/** Whole runs of the limit resolver: commands, disconnects, resets and timer expiries in any order. */
module LimitRuns {
  import opened Wrappers
  import opened DurationManager
  import opened MultiZone
  import opened LimitSpec
  import opened LimitInvariants

  /** "Expiry" is a timer leaving the table and its callback running as one step; "TimerLeaves" and
      "CallbackRuns" are its two halves, between which other events may happen. "AppWrites" is the
      device application changing the control state by itself. */
  datatype Event =
    | Sets(zone: ZoneId, zoneType: u8, req: Request)
    | Clears(zone: ZoneId, target: ClearTarget)
    | Leaves(zone: ZoneId)
    | Resets
    | Wait(d: nat)
    | Expiry(key: TimerKey)
    | TimerLeaves(key: TimerKey)
    | CallbackRuns(key: TimerKey)
    | AppWrites(control: ControlState)

  datatype System = System(s: State, now: int, pending: multiset<TimerKey>)

  const Start := System(Initial, 0, multiset{})

  /** Go starts a timer's function no earlier than its deadline, possibly later. */
  predicate Due(x: System, key: TimerKey) {
    key in x.s.timers && x.now >= x.s.timers[key].Deadline()
  }

  /** An event that is not enabled leaves the system as it is. */
  ghost function Step(cap: Capacity, x: System, e: Event): System {
    match e
    case Sets(z, zt, req) => x.(s := SetLimit(x.s, cap, z, zt, req, x.now))
    case Clears(z, target) => x.(s := ClearLimit(x.s, z, target, x.now))
    case Leaves(z) => x.(s := ClearZone(x.s, z, x.now))
    case Resets => x.(s := ResetAll(x.s, x.now))
    case Wait(d) => x.(now := x.now + d)
    case Expiry(key) => if Due(x, key) then x.(s := Expire(x.s, key, x.now)) else x
    case TimerLeaves(key) =>
      if Due(x, key) then x.(s := x.s.(timers := x.s.timers - {key}), pending := x.pending + multiset{key}) else x
    case CallbackRuns(key) =>
      if key in x.pending then x.(s := OnExpiry(x.s, key, x.now), pending := x.pending - multiset{key}) else x
    case AppWrites(c) => x.(s := x.s.(attrs := x.s.attrs.(control := c)))
  }

  ghost function Run(cap: Capacity, es: seq<Event>): System {
    if es == [] then Start else Step(cap, Run(cap, es[..|es| - 1]), es[|es| - 1])
  }

  // ---- The derived values, with no restriction on the run ----

  /** No value is negative, and none exceeds a positive device maximum. */
  ghost predicate AllWithin(m: Values, max: int) {
    forall z :: z in m ==> 0 <= m[z].value && (max > 0 ==> m[z].value <= max)
  }

  ghost predicate WithinCapacity(s: State, cap: Capacity) {
    AllWithin(s.consumption, cap.consumption) && AllWithin(s.production, cap.production)
  }

  /** The minimum over the zones that are not TEST zones, absent when there is none. */
  ghost predicate IsMinimum(m: Values, e: Option<int>) {
    match e
    case None => forall z :: z in m ==> m[z].zoneType == ZONE_TYPE_TEST
    case Some(v) =>
      && (exists z :: Eligible(m, z) && m[z].value == v)
      && (forall z :: Eligible(m, z) ==> v <= m[z].value)
  }

  lemma EffectiveMinimum(m: Values, max: int)
    requires AllWithin(m, max)
    ensures IsMinimum(m, Effective(m))
    ensures var e := Effective(m); e.Some? && max > 0 ==> e.value <= max
  {
    var e := Effective(m);
    EffectiveIsMinimum(m, if e.Some? then e.value else 0);
  }

  lemma StoreWithin(s: State, cap: Capacity, z: ZoneId, zt: u8, req: Request, now: int)
    requires WithinCapacity(s, cap) && z in s.zoneIndex
    requires req.consumption.Some? ==>
               0 <= req.consumption.value && (cap.consumption > 0 ==> req.consumption.value <= cap.consumption)
    requires req.production.Some? ==>
               0 <= req.production.value && (cap.production > 0 ==> req.production.value <= cap.production)
    ensures WithinCapacity(StorePair(s, z, zt, req, now), cap)
  {
  }

  lemma FinishWithin(s: State, cap: Capacity, n: Note, now: int)
    requires WithinCapacity(s, cap)
    ensures WithinCapacity(Finish(s, n, now), cap)
  {
  }

  lemma SetLimitWithin(s: State, cap: Capacity, z: ZoneId, zt: u8, req: Request, now: int)
    requires WithinCapacity(s, cap)
    ensures WithinCapacity(SetLimit(s, cap, z, zt, req, now), cap)
  {
    hide Finish;
    if Stores(s, cap, z, req) {
      StoreWithin(EnsureIndex(s, z), cap, z, zt, req, now);
      FinishWithin(StoreBoth(s, z, zt, req, now), cap,
                   Note(z, SetChange(req.consumption), SetChange(req.production)), now);
    } else {
      FinishWithin(DropZone(s, z), cap, Note(z, To(None), To(None)), now);
    }
  }

  lemma ClearLimitWithin(s: State, cap: Capacity, z: ZoneId, target: ClearTarget, now: int)
    requires WithinCapacity(s, cap)
    ensures WithinCapacity(ClearLimit(s, z, target, now), cap)
  {
    hide Finish;
    FinishWithin(DropBoth(s, z, target), cap,
                 Note(z, ClearChange(target.Covers(Consumption)), ClearChange(target.Covers(Production))), now);
  }

  lemma OnExpiryWithin(s: State, cap: Capacity, key: TimerKey, now: int)
    requires WithinCapacity(s, cap)
    ensures WithinCapacity(OnExpiry(s, key, now), cap)
  {
    hide Finish, Resolve;
    ResolveWithin(s, cap, now);
    if key.zone in s.indexZone {
      var z := s.indexZone[key.zone];
      FinishWithin(s.(consumption := s.consumption - {z}), cap, Note(z, To(None), Unchanged), now);
      FinishWithin(s.(production := s.production - {z}), cap, Note(z, Unchanged, To(None)), now);
    }
  }

  lemma ResolveWithin(s: State, cap: Capacity, now: int)
    requires WithinCapacity(s, cap)
    ensures WithinCapacity(Resolve(s, now), cap)
  {
  }

  lemma StepWithin(cap: Capacity, x: System, e: Event)
    requires WithinCapacity(x.s, cap)
    ensures WithinCapacity(Step(cap, x, e).s, cap)
  {
    match e {
      case Sets(z, zt, req) => SetLimitWithin(x.s, cap, z, zt, req, x.now);
      case Clears(z, target) => ClearLimitWithin(x.s, cap, z, target, x.now);
      case Leaves(z) => FinishWithin(DropZone(x.s, z), cap, Note(z, To(None), To(None)), x.now);
      case Expiry(key) => OnExpiryWithin(x.s.(timers := x.s.timers - {key}), cap, key, x.now);
      case CallbackRuns(key) => OnExpiryWithin(x.s, cap, key, x.now);
      case _ =>
    }
  }

  lemma OnExpiryDerived(s: State, key: TimerKey, now: int)
    requires Derived(s)
    ensures Derived(OnExpiry(s, key, now))
    ensures key.zone in s.indexZone || ControlDerived(s) ==> ControlDerived(OnExpiry(s, key, now))
  {
    hide Finish, Resolve;
    if key.zone in s.indexZone {
      var z := s.indexZone[key.zone];
      FinishSound(s.(consumption := s.consumption - {z}), Note(z, To(None), Unchanged), now);
      FinishSound(s.(production := s.production - {z}), Note(z, Unchanged, To(None)), now);
      ResolveDerived(s, now);
    }
  }

  lemma ResolveDerived(s: State, now: int)
    ensures Derived(Resolve(s, now)) && ControlDerived(Resolve(s, now))
  {
  }

  lemma StepDerived(cap: Capacity, x: System, e: Event)
    requires Derived(x.s)
    ensures Derived(Step(cap, x, e).s)
    ensures ControlDerived(x.s) && !e.AppWrites? ==> ControlDerived(Step(cap, x, e).s)
  {
    match e {
      case Sets(z, zt, req) =>
        FinishSound(StoreBoth(x.s, z, zt, req, x.now), Note(z, SetChange(req.consumption), SetChange(req.production)),
                    x.now);
        FinishSound(DropZone(x.s, z), Note(z, To(None), To(None)), x.now);
      case Clears(z, target) =>
        FinishSound(DropBoth(x.s, z, target),
                    Note(z, ClearChange(target.Covers(Consumption)), ClearChange(target.Covers(Production))), x.now);
      case Leaves(z) => FinishSound(DropZone(x.s, z), Note(z, To(None), To(None)), x.now);
      case Resets =>
      case Expiry(key) => OnExpiryDerived(x.s.(timers := x.s.timers - {key}), key, x.now);
      case CallbackRuns(key) => OnExpiryDerived(x.s, key, x.now);
      case _ =>
    }
  }

  /** In every run whatsoever (expiries split in two, timers refused or late, more zones than indices)
      the published limits are the minima over the stored ones, and no stored or published limit exceeds
      the device's maximum. */
  lemma {:induction false} EffectiveAlways(cap: Capacity, es: seq<Event>)
    ensures var s := Run(cap, es).s;
            && IsMinimum(s.consumption, s.attrs.effConsumption)
            && IsMinimum(s.production, s.attrs.effProduction)
            && Derived(s) && WithinCapacity(s, cap)
            && (cap.consumption > 0 && s.attrs.effConsumption.Some? ==> s.attrs.effConsumption.value <= cap.consumption)
            && (cap.production > 0 && s.attrs.effProduction.Some? ==> s.attrs.effProduction.value <= cap.production)
  {
    if es == [] {
      EffectiveUnique(map[], Effective(map[]), None);
    } else {
      EffectiveAlways(cap, es[..|es| - 1]);
      StepDerived(cap, Run(cap, es[..|es| - 1]), es[|es| - 1]);
      StepWithin(cap, Run(cap, es[..|es| - 1]), es[|es| - 1]);
    }
    EffectiveMinimum(Run(cap, es).s.consumption, cap.consumption);
    EffectiveMinimum(Run(cap, es).s.production, cap.production);
  }

  /** As long as only the resolver writes the control state, it is CONTROLLED exactly when some
      effective limit is set, and AUTONOMOUS otherwise. */
  lemma {:induction false} ControlAlways(cap: Capacity, es: seq<Event>)
    requires forall e :: e in es ==> !e.AppWrites?
    ensures var a := Run(cap, es).s.attrs;
            && (a.control == Controlled <==> a.effConsumption.Some? || a.effProduction.Some?)
            && (a.control == Autonomous <==> a.effConsumption.None? && a.effProduction.None?)
            && ControlDerived(Run(cap, es).s)
  {
    EffectiveAlways(cap, es);
    if es == [] {
      EffectiveUnique(map[], Effective(map[]), None);
    } else {
      var init := es[..|es| - 1];
      assert forall e :: e in init ==> e in es;
      ControlAlways(cap, init);
      EffectiveAlways(cap, init);
      StepDerived(cap, Run(cap, init), es[|es| - 1]);
    }
  }

  // ---- The coupling invariant, over runs with atomic expiries ----

  predicate Atomic(e: Event) {
    !e.TimerLeaves? && !e.CallbackRuns?
  }

  /** The timer manager accepts the request's duration, if there is one. */
  predicate Timeable(req: Request) {
    req.Duration() == 0 || ValidDuration(req.Duration())
  }

  predicate Tame(e: Event) {
    Atomic(e) && (e.Sets? ==> Timeable(e.req))
  }

  function ZonesOf(es: seq<Event>): set<ZoneId> {
    if es == [] then {}
    else ZonesOf(es[..|es| - 1]) + (if es[|es| - 1].Sets? then {es[|es| - 1].zone} else {})
  }

  /** The zone an event is about, if it is about a single one. */
  function Actor(x: System, e: Event): Option<ZoneId> {
    match e
    case Sets(z, _, _) => Some(z)
    case Clears(z, _) => Some(z)
    case Leaves(z) => Some(z)
    case Expiry(key) => if key.zone in x.s.indexZone then Some(x.s.indexZone[key.zone]) else None
    case TimerLeaves(key) => if key.zone in x.s.indexZone then Some(x.s.indexZone[key.zone]) else None
    case CallbackRuns(key) => if key.zone in x.s.indexZone then Some(x.s.indexZone[key.zone]) else None
    case _ => None
  }

  /** A zone that sets a limit has an index or can be given a free one. */
  predicate HasRoom(x: System, e: Event) {
    e.Sets? && e.zone != NO_ZONE ==> RoomFor(x.s, e.zone)
  }

  lemma StepSound(cap: Capacity, x: System, e: Event)
    requires Sound(x.s) && HasRoom(x, e)
    ensures Sound(Step(cap, x, e).s)
  {
    hide ClearZone, ResetAll, Expire, OnExpiry;
    match e {
      case Sets(z, zt, req) =>
        if Stores(x.s, cap, z, req) {
          SetLimitSound(x.s, cap, z, zt, req, x.now);
        } else if Judge(x.s, cap, z, req).Accepted? {
          ClearZoneSound(x.s, z, x.now);
        }
      case Clears(z, target) =>
        if z != NO_ZONE {
          ClearLimitSound(x.s, z, target, x.now);
        }
      case Leaves(z) => ClearZoneSound(x.s, z, x.now);
      case Resets => ResetAllSound(x.s, x.now);
      case Wait(d) =>
      case Expiry(key) =>
        if Due(x, key) {
          ExpireSound(x.s, key, x.now);
        }
      case TimerLeaves(key) => TimerLeavesSound(x.s, key);
      case CallbackRuns(key) => OnExpirySound(x.s, key, x.now);
      case AppWrites(c) =>
    }
  }

  /** What a step does to one slot. */
  function ViewStep(cap: Capacity, x: System, e: Event, slot: Slot): View {
    var v := ViewOf(x.s, slot);
    match e
    case Sets(z, zt, req) =>
      if !Judge(x.s, cap, z, req).Accepted? then v
      else if slot.zone != z then Lapse(v, x.now)
      else if Stores(x.s, cap, z, req) then ViewSet(v, zt, req.Of(slot.dir), req.Duration(), x.now)
      else EMPTY
    case Clears(z, target) =>
      if z == NO_ZONE then v
      else if slot.zone == z && target.Covers(slot.dir) then EMPTY
      else Lapse(v, x.now)
    case Leaves(z) => if slot.zone == z then EMPTY else Lapse(v, x.now)
    case Resets => if slot.zone in x.s.zoneIndex then EMPTY else v
    case Expiry(key) =>
      if !Due(x, key) then v
      else if key.zone in x.s.indexZone && slot == SlotFor(x.s, key) then EMPTY
      else Lapse(v, x.now)
    case TimerLeaves(key) =>
      if Due(x, key) && key.zone in x.s.indexZone && slot == SlotFor(x.s, key) then v.(timer := None) else v
    case CallbackRuns(key) =>
      if key !in x.pending || key.zone !in x.s.indexZone then v
      else if ClearsSlot(x.s, key, slot) then v.(stored := None, my := None)
      else Lapse(v, x.now)
    case _ => v
  }

  lemma SetsView(cap: Capacity, x: System, z: ZoneId, zt: u8, req: Request, slot: Slot)
    requires Sound(x.s) && (z != NO_ZONE ==> RoomFor(x.s, z))
    ensures ViewOf(SetLimit(x.s, cap, z, zt, req, x.now), slot) == ViewStep(cap, x, Sets(z, zt, req), slot)
  {
    if Stores(x.s, cap, z, req) {
      SetLimitView(x.s, cap, z, zt, req, x.now, slot);
    } else if Judge(x.s, cap, z, req).Accepted? {
      ClearZoneView(x.s, z, x.now, slot);
    }
  }

  lemma StepView(cap: Capacity, x: System, e: Event, slot: Slot)
    requires Sound(x.s) && HasRoom(x, e)
    ensures ViewOf(Step(cap, x, e).s, slot) == ViewStep(cap, x, e, slot)
  {
    hide SetLimit, ClearZone, ResetAll, Resolve, Finish, Lapse;
    match e {
      case Sets(z, zt, req) => SetsView(cap, x, z, zt, req, slot);
      case Clears(z, target) =>
        if z != NO_ZONE {
          ClearLimitView(x.s, z, target, x.now, slot);
        }
      case Leaves(z) => ClearZoneView(x.s, z, x.now, slot);
      case Resets => ResetAllView(x.s, x.now, slot);
      case Wait(d) =>
      case Expiry(key) =>
        if Due(x, key) {
          ExpireIsDrop(x.s, key, x.now);
          ExpireView(x.s, key, x.now, slot);
        }
      case TimerLeaves(key) =>
        if Due(x, key) {
          TimerLeavesView(x.s, key, slot);
        }
      case CallbackRuns(key) =>
        if key in x.pending && key.zone in x.s.indexZone {
          OnExpiryView(x.s, key, x.now, slot);
        }
      case AppWrites(c) =>
    }
  }

  lemma ViewStepOk(cap: Capacity, x: System, e: Event, slot: Slot)
    requires SlotOk(ViewOf(x.s, slot), x.now) && Tame(e)
    ensures SlotOk(ViewStep(cap, x, e, slot), Step(cap, x, e).now)
  {
    SlotLater(ViewOf(x.s, slot), x.now, Step(cap, x, e).now);
    SlotLater(ViewOf(x.s, slot), x.now, x.now);
  }

  lemma StepCoupled(cap: Capacity, x: System, e: Event)
    requires Sound(x.s) && Coupled(x.s, x.now) && HasRoom(x, e) && Tame(e)
    ensures var x' := Step(cap, x, e); Coupled(x'.s, x'.now)
  {
    forall slot: Slot
      ensures SlotOk(ViewOf(Step(cap, x, e).s, slot), Step(cap, x, e).now)
    {
      StepView(cap, x, e, slot);
      ViewStepOk(cap, x, e, slot);
    }
  }

  lemma SubsetSize<T>(a: set<T>, b: set<T>)
    requires a <= b
    ensures |a| <= |b|
  {
    assert b == a + (b - a);
  }

  lemma StoreZones(s: State, z: ZoneId, zt: u8, req: Request, now: int)
    ensures StoreBoth(s, z, zt, req, now).zoneIndex == EnsureIndex(s, z).zoneIndex
    ensures EnsureIndex(s, z).zoneIndex.Keys == s.zoneIndex.Keys + {z}
  {
    var s1 := EnsureIndex(s, z);
    var s2 := StoreIf(s1, Slot(z, Consumption), zt, req.consumption, req.Duration(), now);
    assert s2.zoneIndex == s1.zoneIndex;
  }

  lemma ResolveKeepsIndex()
    ensures forall s: State, now: int :: Resolve(s, now).zoneIndex == s.zoneIndex
  {
  }

  /** Only an accepted SetLimit with a value hands out an index. */
  lemma StepIndex(cap: Capacity, x: System, e: Event)
    ensures Step(cap, x, e).s.zoneIndex ==
            if e.Sets? && Stores(x.s, cap, e.zone, e.req) then EnsureIndex(x.s, e.zone).zoneIndex else x.s.zoneIndex
  {
    hide Resolve, EnsureIndex, StoreBoth, DropBoth, OnExpiry;
    ResolveKeepsIndex();
    match e {
      case Sets(z, zt, req) => StoreZones(x.s, z, zt, req, x.now);
      case Clears(z, target) => DropKeepsIndex(x.s, z, target);
      case Expiry(key) => OnExpiryKeepsIndex(x.s.(timers := x.s.timers - {key}), key, x.now);
      case CallbackRuns(key) => OnExpiryKeepsIndex(x.s, key, x.now);
      case _ =>
    }
  }

  lemma DropKeepsIndex(s: State, z: ZoneId, target: ClearTarget)
    ensures DropBoth(s, z, target).zoneIndex == s.zoneIndex
  {
    hide DropIf, IndexOk;
    DropIfIndices(s, Slot(z, Consumption), target.Covers(Consumption));
    DropIfIndices(DropIf(s, Slot(z, Consumption), target.Covers(Consumption)), Slot(z, Production),
                  target.Covers(Production));
  }

  lemma OnExpiryKeepsIndex(s: State, key: TimerKey, now: int)
    ensures OnExpiry(s, key, now).zoneIndex == s.zoneIndex
  {
    hide Resolve;
    ResolveKeepsIndex();
  }

  lemma StepZones(cap: Capacity, x: System, e: Event)
    ensures Step(cap, x, e).s.zoneIndex.Keys <= x.s.zoneIndex.Keys + (if e.Sets? then {e.zone} else {})
  {
    hide Step;
    StepIndex(cap, x, e);
  }

  lemma RoomInRun(cap: Capacity, es: seq<Event>)
    requires es != [] && |ZonesOf(es)| <= 256
    requires Run(cap, es[..|es| - 1]).s.zoneIndex.Keys <= ZonesOf(es[..|es| - 1])
    ensures HasRoom(Run(cap, es[..|es| - 1]), es[|es| - 1])
  {
    var x, e := Run(cap, es[..|es| - 1]), es[|es| - 1];
    if e.Sets? && e.zone !in x.s.zoneIndex {
      SubsetSize(x.s.zoneIndex.Keys + {e.zone}, ZonesOf(es));
    }
  }

  /** Every run with at most 256 zones keeps the two index maps mutually inverse and every timer and
      stored limit at an indexed zone: expiries may be split, and durations refused. */
  lemma {:induction false} SoundAlways(cap: Capacity, es: seq<Event>)
    requires |ZonesOf(es)| <= 256
    ensures var x := Run(cap, es); Sound(x.s) && x.s.zoneIndex.Keys <= ZonesOf(es)
  {
    if es != [] {
      var init, e := es[..|es| - 1], es[|es| - 1];
      SubsetSize(ZonesOf(init), ZonesOf(es));
      SoundAlways(cap, init);
      RoomInRun(cap, es);
      StepSound(cap, Run(cap, init), e);
      StepZones(cap, Run(cap, init), e);
    }
  }

  lemma ViewStepTold(cap: Capacity, x: System, e: Event, slot: Slot)
    requires var v := ViewOf(x.s, slot); v.stored.Some? ==> v.my == Some(v.stored.value.value)
    ensures var v := ViewStep(cap, x, e, slot); v.stored.Some? ==> v.my == Some(v.stored.value.value)
  {
    hide ViewOf;
  }

  /** In every such run a zone whose limit is stored was last told exactly this limit. */
  lemma {:induction false} ToldWhileStored(cap: Capacity, es: seq<Event>, slot: Slot)
    requires |ZonesOf(es)| <= 256
    ensures var v := ViewOf(Run(cap, es).s, slot); v.stored.Some? ==> v.my == Some(v.stored.value.value)
  {
    hide Step, ViewStep;
    if es != [] {
      var init, e := es[..|es| - 1], es[|es| - 1];
      SubsetSize(ZonesOf(init), ZonesOf(es));
      ToldWhileStored(cap, init, slot);
      SoundAlways(cap, init);
      RoomInRun(cap, es);
      StepView(cap, Run(cap, init), e, slot);
      ViewStepTold(cap, Run(cap, init), e, slot);
    }
  }

  /** Every run with atomic expiries, accepted durations and at most 256 zones keeps the limits,
      the timers, the indices and the notified values coupled. */
  lemma {:induction false} CouplingAlways(cap: Capacity, es: seq<Event>)
    requires forall e :: e in es ==> Tame(e)
    requires |ZonesOf(es)| <= 256
    ensures var x := Run(cap, es); Inv(x.s, x.now) && x.s.zoneIndex.Keys <= ZonesOf(es)
  {
    EffectiveAlways(cap, es);
    SoundAlways(cap, es);
    if es != [] {
      var init, e := es[..|es| - 1], es[|es| - 1];
      assert forall d :: d in init ==> d in es;
      SubsetSize(ZonesOf(init), ZonesOf(es));
      CouplingAlways(cap, init);
      var x := Run(cap, init);
      RoomInRun(cap, es);
      StepCoupled(cap, x, e);
    }
  }

  // ---- Prompt runs: no timer is overtaken by the clock ----

  ghost predicate OnTime(x: System) {
    forall key :: key in x.s.timers ==> x.now <= x.s.timers[key].Deadline()
  }

  /** Time passes only up to the next armed deadline. */
  ghost predicate PromptWait(x: System, e: Event) {
    e.Wait? ==> forall key :: key in x.s.timers ==> x.now + e.d <= x.s.timers[key].Deadline()
  }

  ghost predicate Prompt(cap: Capacity, es: seq<Event>) {
    forall i :: 0 <= i < |es| ==> PromptWait(Run(cap, es[..i]), es[i])
  }

  /** While no timer is late, a zone's own reading is what it was last told, and a timed limit is
      still within its duration. */
  lemma OnTimeSlot(x: System, slot: Slot)
    requires Inv(x.s, x.now) && OnTime(x)
    ensures ReadMy(x.s, slot) == Look(x.s.my, slot)
    ensures var v := ViewOf(x.s, slot); v.stored.Some? ==> !v.stored.value.Expired(x.now)
    ensures Lapse(ViewOf(x.s, slot), x.now) == ViewOf(x.s, slot)
  {
    assert SlotOk(ViewOf(x.s, slot), x.now);
  }

  lemma TimerNewOrKept(cap: Capacity, x: System, e: Event, slot: Slot)
    ensures var t := ViewStep(cap, x, e, slot).timer;
            t.Some? ==> t == TimerAt(x.s, slot) || t.value.Deadline() > x.now
  {
  }

  lemma KeyHasSlot(s: State, key: TimerKey)
    requires Sound(s) && key in s.timers
    ensures key.zone in s.indexZone && TimerAt(s, SlotFor(s, key)) == Some(s.timers[key])
  {
    InverseBack(s.zoneIndex, s.indexZone, key.zone);
  }

  lemma StepOnTime(cap: Capacity, x: System, e: Event)
    requires Inv(x.s, x.now) && OnTime(x) && HasRoom(x, e) && PromptWait(x, e)
    ensures OnTime(Step(cap, x, e))
  {
    var x' := Step(cap, x, e);
    if !e.Wait? {
      StepSound(cap, x, e);
      forall key | key in x'.s.timers
        ensures x'.now <= x'.s.timers[key].Deadline()
      {
        KeyHasSlot(x'.s, key);
        StepView(cap, x, e, SlotFor(x'.s, key));
        TimerNewOrKept(cap, x, e, SlotFor(x'.s, key));
      }
    }
  }

  lemma PromptPrefix(cap: Capacity, es: seq<Event>)
    requires Prompt(cap, es) && es != []
    ensures Prompt(cap, es[..|es| - 1]) && PromptWait(Run(cap, es[..|es| - 1]), es[|es| - 1])
  {
    var init := es[..|es| - 1];
    forall i | 0 <= i < |init|
      ensures PromptWait(Run(cap, init[..i]), init[i])
    {
      assert init[..i] == es[..i];
    }
  }

  lemma {:induction false} PromptAlways(cap: Capacity, es: seq<Event>)
    requires forall e :: e in es ==> Tame(e)
    requires |ZonesOf(es)| <= 256 && Prompt(cap, es)
    ensures OnTime(Run(cap, es))
  {
    if es != [] {
      var init, e := es[..|es| - 1], es[|es| - 1];
      assert forall d :: d in init ==> d in es;
      SubsetSize(ZonesOf(init), ZonesOf(es));
      PromptPrefix(cap, es);
      PromptAlways(cap, init);
      CouplingAlways(cap, init);
      RoomInRun(cap, es);
      StepOnTime(cap, Run(cap, init), e);
    }
  }

  // ---- Consequences ----

  /** In every run, a timer for a zone and direction exists exactly when the stored limit was set
      with a positive duration, and carries its value and duration; the one exception is a limit whose
      time ran out before its late timer fired. */
  lemma TimerIffTimedLimit(cap: Capacity, es: seq<Event>, slot: Slot)
    requires forall e :: e in es ==> Tame(e)
    requires |ZonesOf(es)| <= 256
    ensures var x := Run(cap, es);
            var v := ViewOf(x.s, slot);
            && (v.stored.Some? ==> v.timer == if v.stored.value.duration > 0
                                              then Some(Timer(v.stored.value.setAt, v.stored.value.duration,
                                                              v.stored.value.value))
                                              else None)
            && (v.stored.None? && v.timer.Some? ==> x.now > v.timer.value.Deadline())
            && (Prompt(cap, es) ==> (v.timer.Some? <==> v.stored.Some? && v.stored.value.duration > 0))
  {
    CouplingAlways(cap, es);
    var x := Run(cap, es);
    assert SlotOk(ViewOf(x.s, slot), x.now);
    if Prompt(cap, es) {
      PromptAlways(cap, es);
    }
  }

  /** What a zone's subscriber holds after the notifications is what the read hook returns, except
      exactly while a limit has lapsed and its timer has not fired yet; prompt runs have no such time. */
  lemma ReplicaFollows(cap: Capacity, es: seq<Event>, slot: Slot)
    requires forall e :: e in es ==> Tame(e)
    requires |ZonesOf(es)| <= 256
    ensures var s := Run(cap, es).s;
            var v := ViewOf(s, slot);
            && (Look(s.my, slot) == ReadMy(s, slot) <==> v.stored.Some? || v.timer.None?)
            && (Prompt(cap, es) ==> Look(s.my, slot) == ReadMy(s, slot))
  {
    CouplingAlways(cap, es);
    var x := Run(cap, es);
    assert SlotOk(ViewOf(x.s, slot), x.now);
    if Prompt(cap, es) {
      PromptAlways(cap, es);
      OnTimeSlot(x, slot);
    }
  }

  lemma StepElsewhere(cap: Capacity, x: System, e: Event, slot: Slot)
    requires Sound(x.s) && HasRoom(x, e) && !e.Resets? && Actor(x, e) != Some(slot.zone)
    ensures var v, v' := ViewOf(x.s, slot), ViewOf(Step(cap, x, e).s, slot); v' == v || v' == Lapse(v, x.now)
  {
    hide Step, ViewOf, Lapse;
    StepView(cap, x, e, slot);
  }

  /** In every run with at most 256 zones, no event about one zone changes what is stored, armed or
      last told for another zone, except that a limit whose own time is up may leave the store. */
  lemma NonInterference(cap: Capacity, es: seq<Event>, e: Event, slot: Slot)
    requires |ZonesOf(es + [e])| <= 256 && !e.Resets?
    requires Actor(Run(cap, es), e) != Some(slot.zone)
    ensures var x := Run(cap, es);
            var v, v' := ViewOf(x.s, slot), ViewOf(Run(cap, es + [e]).s, slot);
            && (v' == v || v' == Lapse(v, x.now))
            && ((forall d :: d in es ==> Tame(d)) && Prompt(cap, es) ==> v' == v)
  {
    hide Step, ViewOf, Lapse, ReadMy, Prompt;
    var x := Run(cap, es);
    assert (es + [e])[..|es|] == es;
    SubsetSize(ZonesOf(es), ZonesOf(es + [e]));
    SoundAlways(cap, es);
    RoomInRun(cap, es + [e]);
    StepElsewhere(cap, x, e, slot);
    if (forall d :: d in es ==> Tame(d)) && Prompt(cap, es) {
      CouplingAlways(cap, es);
      PromptAlways(cap, es);
      OnTimeSlot(x, slot);
    }
  }
}
