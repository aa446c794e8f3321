/** Over every run with at most 256 zones (expiries split or whole, durations accepted or refused): when
    exactly a stored limit is lost, and when exactly a zone's subscriber is right about it. */
module LimitOutcomes {
  import opened Wrappers
  import opened DurationManager
  import opened MultiZone
  import opened LimitSpec
  import opened LimitInvariants
  import opened LimitRuns

  /** The zone itself sets, clears or leaves. */
  predicate OwnCommand(e: Event, z: ZoneId) {
    match e
    case Sets(y, _, _) => y == z
    case Clears(y, _) => y == z
    case Leaves(y) => y == z
    case _ => false
  }

  /** The slot's own timer expires, as a whole or in its second half. */
  predicate Takes(x: System, e: Event, slot: Slot) {
    match e
    case Expiry(key) => Due(x, key) && key.zone in x.s.indexZone && slot == SlotFor(x.s, key)
    case CallbackRuns(key) => key in x.pending && ClearsSlot(x.s, key, slot)
    case _ => false
  }

  /** The event makes the resolver drop expired limits. */
  predicate Recomputes(cap: Capacity, x: System, e: Event) {
    match e
    case Sets(z, _, req) => Judge(x.s, cap, z, req).Accepted?
    case Clears(z, _) => z != NO_ZONE
    case Leaves(_) => true
    case Resets => true
    case Expiry(key) => Due(x, key)
    case CallbackRuns(key) => key in x.pending && key.zone in x.s.indexZone
    case _ => false
  }

  /** The slot's zone is told about this direction. */
  predicate Tells(cap: Capacity, x: System, e: Event, slot: Slot) {
    match e
    case Sets(z, _, req) =>
      z == slot.zone && Judge(x.s, cap, z, req).Accepted? && (req.Of(slot.dir).Some? || !Stores(x.s, cap, z, req))
    case Clears(z, target) => z != NO_ZONE && z == slot.zone && target.Covers(slot.dir)
    case Leaves(z) => z == slot.zone
    case Resets => true
    case _ => Takes(x, e, slot)
  }

  // ---- When a limit is lost ----

  lemma LostView(cap: Capacity, x: System, e: Event, slot: Slot)
    requires !OwnCommand(e, slot.zone) && !e.Resets? && ViewOf(x.s, slot).stored.Some?
    requires e.Expiry? && Due(x, e.key) ==> e.key.zone in x.s.indexZone
    ensures var l := ViewOf(x.s, slot).stored;
            ViewStep(cap, x, e, slot).stored != l <==>
            Takes(x, e, slot) || (l.value.Expired(x.now) && Recomputes(cap, x, e))
  {
    hide ViewOf, Judge, Due;
  }

  lemma LostStep(cap: Capacity, x: System, e: Event, slot: Slot)
    requires Sound(x.s) && HasRoom(x, e)
    requires !OwnCommand(e, slot.zone) && !e.Resets? && ViewOf(x.s, slot).stored.Some?
    ensures var l := ViewOf(x.s, slot).stored;
            ViewOf(Step(cap, x, e).s, slot).stored != l <==>
            Takes(x, e, slot) || (l.value.Expired(x.now) && Recomputes(cap, x, e))
  {
    hide Step, ViewOf, ViewStep, Takes, Recomputes, OwnCommand;
    StepView(cap, x, e, slot);
    if e.Expiry? && Due(x, e.key) {
      KeyHasSlot(x.s, e.key);
    }
    LostView(cap, x, e, slot);
  }

  lemma LastStep(cap: Capacity, es: seq<Event>, e: Event)
    requires |ZonesOf(es + [e])| <= 256
    ensures |ZonesOf(es)| <= 256 && Run(cap, es + [e]) == Step(cap, Run(cap, es), e)
    ensures Sound(Run(cap, es).s) && HasRoom(Run(cap, es), e)
  {
    hide Step;
    assert (es + [e])[..|es|] == es;
    SubsetSize(ZonesOf(es), ZonesOf(es + [e]));
    SoundAlways(cap, es);
    RoomInRun(cap, es + [e]);
  }

  /** Apart from its own zone's commands and resets, a stored limit is lost exactly when its slot's timer
      expires (whole, or as a pending callback), or when it is past its time and something recomputes. */
  lemma LostExactly(cap: Capacity, es: seq<Event>, e: Event, slot: Slot)
    requires |ZonesOf(es + [e])| <= 256 && !OwnCommand(e, slot.zone) && !e.Resets?
    requires ViewOf(Run(cap, es).s, slot).stored.Some?
    ensures var x := Run(cap, es);
            var l := ViewOf(x.s, slot).stored;
            ViewOf(Run(cap, es + [e]).s, slot).stored != l <==>
            Takes(x, e, slot) || (l.value.Expired(x.now) && Recomputes(cap, x, e))
  {
    hide Step, ViewOf, Takes, Recomputes;
    LastStep(cap, es, e);
    LostStep(cap, Run(cap, es), e, slot);
  }

  // ---- Accepted durations: only a pending callback comes early ----

  predicate AllTimeable(es: seq<Event>) {
    forall e :: e in es && e.Sets? ==> Timeable(e.req)
  }

  /** The limit's duration is over. */
  predicate TimeUp(l: ZoneValue, now: int) {
    l.duration > 0 && now >= l.setAt + l.duration
  }

  /** An armed timer of a stored limit is the limit's own; a timed limit without one is past its time. */
  predicate OwnTimer(v: View, now: int) {
    v.stored.Some? ==>
      var l := v.stored.value;
      && (v.timer.Some? ==> l.duration > 0 && v.timer.value == Timer(l.setAt, l.duration, l.value))
      && (v.timer.None? && l.duration > 0 ==> TimeUp(l, now))
  }

  lemma ViewStepOwnTimer(cap: Capacity, x: System, e: Event, slot: Slot, later: int)
    requires x.now <= later
    requires OwnTimer(ViewOf(x.s, slot), x.now) && (e.Sets? ==> Timeable(e.req))
    requires e.TimerLeaves? && Due(x, e.key) ==>
               e.key.zone in x.s.indexZone && TimerAt(x.s, SlotFor(x.s, e.key)) == Some(x.s.timers[e.key])
    ensures OwnTimer(ViewStep(cap, x, e, slot), later)
  {
  }

  lemma {:induction false} OwnTimerAlways(cap: Capacity, es: seq<Event>, slot: Slot)
    requires |ZonesOf(es)| <= 256 && AllTimeable(es)
    ensures OwnTimer(ViewOf(Run(cap, es).s, slot), Run(cap, es).now)
  {
    hide Step, ViewStep, OwnTimer, ViewOf;
    if es != [] {
      var init, e := es[..|es| - 1], es[|es| - 1];
      assert init + [e] == es && e in es && forall d :: d in init ==> d in es;
      LastStep(cap, init, e);
      OwnTimerAlways(cap, init, slot);
      var x := Run(cap, init);
      StepView(cap, x, e, slot);
      if e.TimerLeaves? && Due(x, e.key) {
        KeyHasSlot(x.s, e.key);
      }
      PendingGrows(cap, x, e);
      ViewStepOwnTimer(cap, x, e, slot, Step(cap, x, e).now);
    } else {
      assert OwnTimer(ViewOf(Start.s, slot), 0) by {
        NothingStored(slot);
      }
    }
  }

  lemma NothingStored(slot: Slot)
    ensures ViewOf(Start.s, slot) == EMPTY && OwnTimer(EMPTY, 0)
  {
  }

  /** With accepted durations, a stored limit is lost before its time is up, other than by its own zone's
      commands and resets, exactly when a pending callback for its slot runs. */
  lemma NeverEarly(cap: Capacity, es: seq<Event>, e: Event, slot: Slot)
    requires |ZonesOf(es + [e])| <= 256 && AllTimeable(es) && !OwnCommand(e, slot.zone) && !e.Resets?
    requires var l := ViewOf(Run(cap, es).s, slot).stored; l.Some? && !TimeUp(l.value, Run(cap, es).now)
    ensures var x := Run(cap, es);
            ViewOf(Run(cap, es + [e]).s, slot).stored != ViewOf(x.s, slot).stored <==>
            e.CallbackRuns? && e.key in x.pending && ClearsSlot(x.s, e.key, slot)
  {
    hide Step, Recomputes, ClearsSlot;
    LastStep(cap, es, e);
    LostExactly(cap, es, e, slot);
    OwnTimerAlways(cap, es, slot);
    var x := Run(cap, es);
    if e.Expiry? && Due(x, e.key) {
      KeyHasSlot(x.s, e.key);
    }
  }

  // ---- A limit that no pending callback threatens lasts its whole time ----

  /** A zone's index never changes. */
  lemma StepKeepsIndex(cap: Capacity, x: System, e: Event, y: ZoneId)
    requires y in x.s.zoneIndex
    ensures var s' := Step(cap, x, e).s; y in s'.zoneIndex && s'.zoneIndex[y] == x.s.zoneIndex[y]
  {
    hide Step;
    StepIndex(cap, x, e);
  }

  function KeyOf(s: State, slot: Slot): TimerKey
    requires slot.zone in s.zoneIndex
  {
    TimerKey(s.zoneIndex[slot.zone], Command(slot.dir))
  }

  lemma ClearsItsKey(s: State, key: TimerKey, slot: Slot)
    requires Sound(s) && slot.zone in s.zoneIndex
    ensures ClearsSlot(s, key, slot) <==> key == KeyOf(s, slot)
  {
    if key.zone in s.indexZone {
      InverseBack(s.zoneIndex, s.indexZone, key.zone);
    }
  }

  /** No callback that would clear the slot is waiting to run. */
  ghost predicate NoCallback(x: System, slot: Slot) {
    forall key :: key in x.pending ==> !ClearsSlot(x.s, key, slot)
  }

  /** Nothing is under way that could end the stored limit before its time: no pending callback, and no
      armed timer that is due sooner. A caller can look this up. */
  ghost predicate Unthreatened(x: System, slot: Slot) {
    var v := ViewOf(x.s, slot);
    && NoCallback(x, slot)
    && (v.stored.Some? && v.timer.Some? ==> !Sooner(v.timer.value, v.stored.value))
  }

  /** The timer is due before the limit's duration is over. */
  predicate Sooner(t: Timer, l: ZoneValue) {
    l.duration <= 0 || t.Deadline() < l.setAt + l.duration
  }

  /** From here on, whatever happens but the zone's own commands and resets, the limit stays until its
      time is up. */
  ghost predicate LastsItsTime(cap: Capacity, es: seq<Event>, slot: Slot)
    requires ViewOf(Run(cap, es).s, slot).stored.Some?
  {
    forall fs :: Undisturbed(cap, es, fs, slot) ==>
      ViewOf(Run(cap, es + fs).s, slot).stored == ViewOf(Run(cap, es).s, slot).stored
  }

  ghost predicate Undisturbed(cap: Capacity, es: seq<Event>, fs: seq<Event>, slot: Slot)
    requires ViewOf(Run(cap, es).s, slot).stored.Some?
  {
    && (forall e :: e in fs ==> !OwnCommand(e, slot.zone) && !e.Resets?)
    && |ZonesOf(es + fs)| <= 256
    && !TimeUp(ViewOf(Run(cap, es).s, slot).stored.value, Run(cap, es + fs).now)
  }

  lemma ViewStepIndefinite(cap: Capacity, x: System, e: Event, slot: Slot)
    requires var v := ViewOf(x.s, slot); v.stored.Some? && v.stored.value.duration <= 0 ==> v.timer.None?
    ensures var v := ViewStep(cap, x, e, slot); v.stored.Some? && v.stored.value.duration <= 0 ==> v.timer.None?
  {
    hide ViewOf, Due;
  }

  /** An indefinite limit has no timer, whatever durations were refused before. */
  lemma {:induction false} IndefiniteUntimed(cap: Capacity, es: seq<Event>, slot: Slot)
    requires |ZonesOf(es)| <= 256
    ensures var v := ViewOf(Run(cap, es).s, slot);
            v.stored.Some? && v.stored.value.duration <= 0 ==> v.timer.None?
  {
    hide Step, ViewStep, ViewOf;
    if es != [] {
      var init, e := es[..|es| - 1], es[|es| - 1];
      assert init + [e] == es;
      LastStep(cap, init, e);
      IndefiniteUntimed(cap, init, slot);
      StepView(cap, Run(cap, init), e, slot);
      ViewStepIndefinite(cap, Run(cap, init), e, slot);
    } else {
      NothingStored(slot);
    }
  }

  lemma PendingGrows(cap: Capacity, x: System, e: Event)
    ensures forall key :: key in Step(cap, x, e).pending ==> key in x.pending || (e == TimerLeaves(key) && Due(x, key))
    ensures Step(cap, x, e).now >= x.now
  {
    hide SetLimit, ClearLimit, ClearZone, ResetAll, Expire, OnExpiry;
  }

  /** A timer that is not due before the limit's end cannot be due before the limit's time is up. */
  lemma NotDueYet(x: System, slot: Slot)
    requires slot.zone in x.s.zoneIndex && Unthreatened(x, slot)
    requires var v := ViewOf(x.s, slot); v.stored.Some? && !TimeUp(v.stored.value, x.now)
    ensures !Due(x, KeyOf(x.s, slot))
  {
  }

  lemma TimerKept(cap: Capacity, x: System, e: Event, slot: Slot)
    requires !OwnCommand(e, slot.zone) && !e.Resets?
    ensures ViewStep(cap, x, e, slot).timer == ViewOf(x.s, slot).timer || ViewStep(cap, x, e, slot).timer == None
  {
    hide ViewOf, Due;
  }

  lemma NoNewCallback(cap: Capacity, x: System, e: Event, slot: Slot)
    requires Sound(x.s) && Sound(Step(cap, x, e).s) && Unthreatened(x, slot) && slot.zone in x.s.zoneIndex
    requires var v := ViewOf(x.s, slot); v.stored.Some? && !TimeUp(v.stored.value, x.now)
    ensures NoCallback(Step(cap, x, e), slot)
  {
    hide Step, ClearsSlot, ViewOf;
    NotDueYet(x, slot);
    StepKeepsIndex(cap, x, e, slot.zone);
    PendingGrows(cap, x, e);
    var x' := Step(cap, x, e);
    forall key | key in x'.pending
      ensures !ClearsSlot(x'.s, key, slot)
    {
      ClearsItsKey(x.s, key, slot);
      ClearsItsKey(x'.s, key, slot);
    }
  }

  /** While its time is not up, nothing takes an unthreatened slot. */
  lemma NotTaken(x: System, e: Event, slot: Slot)
    requires Sound(x.s) && Unthreatened(x, slot) && slot.zone in x.s.zoneIndex
    requires var v := ViewOf(x.s, slot); v.stored.Some? && !TimeUp(v.stored.value, x.now)
    ensures !Takes(x, e, slot)
  {
    hide ViewOf;
    NotDueYet(x, slot);
    if e.Expiry? && Due(x, e.key) && e.key.zone in x.s.indexZone && slot == SlotFor(x.s, e.key) {
      KeyHasSlot(x.s, e.key);
      KeyOfSlot(x.s, e.key);
    }
  }

  lemma KeyOfSlot(s: State, key: TimerKey)
    requires Sound(s) && key in s.timers && key.zone in s.indexZone
    ensures SlotFor(s, key).zone in s.zoneIndex && KeyOf(s, SlotFor(s, key)) == key
  {
    InverseBack(s.zoneIndex, s.indexZone, key.zone);
  }

  lemma StaysUnthreatened(cap: Capacity, x: System, e: Event, slot: Slot)
    requires Sound(x.s) && HasRoom(x, e) && Unthreatened(x, slot) && !OwnCommand(e, slot.zone) && !e.Resets?
    requires var v := ViewOf(x.s, slot); v.stored.Some? && !TimeUp(v.stored.value, x.now)
    ensures Unthreatened(Step(cap, x, e), slot)
    ensures ViewOf(Step(cap, x, e).s, slot).stored == ViewOf(x.s, slot).stored
  {
    hide Step, ViewOf, ViewStep, NoCallback, Takes, Recomputes, OwnCommand;
    StoredIsIndexed(x.s, slot);
    StepSound(cap, x, e);
    NoNewCallback(cap, x, e, slot);
    NotTaken(x, e, slot);
    LostStep(cap, x, e, slot);
    StepView(cap, x, e, slot);
    TimerKept(cap, x, e, slot);
  }

  lemma StoredIsIndexed(s: State, slot: Slot)
    requires Sound(s) && ViewOf(s, slot).stored.Some?
    ensures slot.zone in s.zoneIndex && slot.zone != NO_ZONE
  {
  }

  lemma {:induction false} StaysWhileUnthreatened(cap: Capacity, es: seq<Event>, fs: seq<Event>, slot: Slot)
    requires |ZonesOf(es)| <= 256 && ViewOf(Run(cap, es).s, slot).stored.Some?
    requires Undisturbed(cap, es, fs, slot) && Unthreatened(Run(cap, es), slot)
    ensures ViewOf(Run(cap, es + fs).s, slot).stored == ViewOf(Run(cap, es).s, slot).stored
    ensures Unthreatened(Run(cap, es + fs), slot)
    decreases |fs|
  {
    hide Step, ViewOf, Unthreatened, OwnCommand;
    if fs == [] {
      assert es + fs == es;
    } else {
      var init, e := fs[..|fs| - 1], fs[|fs| - 1];
      var before := es + init;
      assert before + [e] == es + fs;
      assert e in fs && forall d :: d in init ==> d in fs;
      LastStep(cap, before, e);
      PendingGrows(cap, Run(cap, before), e);
      StaysWhileUnthreatened(cap, es, init, slot);
      StaysUnthreatened(cap, Run(cap, before), e, slot);
    }
  }

  /** In every run with at most 256 zones, whatever the durations: a stored limit is sure to last its whole
      time, short of its own zone's commands and resets, exactly when no callback for its slot is pending
      and no armed timer of its slot is due sooner. */
  lemma LastsIffUnthreatened(cap: Capacity, es: seq<Event>, slot: Slot)
    requires |ZonesOf(es)| <= 256
    requires var l := ViewOf(Run(cap, es).s, slot).stored; l.Some? && !TimeUp(l.value, Run(cap, es).now)
    ensures LastsItsTime(cap, es, slot) <==> Unthreatened(Run(cap, es), slot)
  {
    hide Step, ViewOf, ClearsSlot, OwnCommand, Sooner, Undisturbed;
    var x := Run(cap, es);
    if Unthreatened(x, slot) {
      forall fs | Undisturbed(cap, es, fs, slot)
        ensures ViewOf(Run(cap, es + fs).s, slot).stored == ViewOf(x.s, slot).stored
      {
        StaysWhileUnthreatened(cap, es, fs, slot);
      }
    } else if !NoCallback(x, slot) {
      var key :| key in x.pending && ClearsSlot(x.s, key, slot);
      CallbackTakes(cap, es, key, slot);
    } else {
      TimerTakes(cap, es, slot);
    }
  }

  lemma CallbackTakes(cap: Capacity, es: seq<Event>, key: TimerKey, slot: Slot)
    requires |ZonesOf(es)| <= 256
    requires var l := ViewOf(Run(cap, es).s, slot).stored; l.Some? && !TimeUp(l.value, Run(cap, es).now)
    requires key in Run(cap, es).pending && ClearsSlot(Run(cap, es).s, key, slot)
    ensures Undisturbed(cap, es, [CallbackRuns(key)], slot)
    ensures ViewOf(Run(cap, es + [CallbackRuns(key)]).s, slot).stored != ViewOf(Run(cap, es).s, slot).stored
  {
    hide ViewOf, Recomputes, ClearsSlot;
    var e := CallbackRuns(key);
    assert (es + [e])[..|es|] == es;
    assert ZonesOf(es + [e]) == ZonesOf(es);
    assert [e][0] == e;
    LostExactly(cap, es, e, slot);
    LastStep(cap, es, e);
  }

  /** Waiting for a timer that is due before the limit's end, and letting it expire, loses the limit. */
  lemma TimerTakes(cap: Capacity, es: seq<Event>, slot: Slot)
    requires |ZonesOf(es)| <= 256
    requires var v := ViewOf(Run(cap, es).s, slot);
             && v.stored.Some? && !TimeUp(v.stored.value, Run(cap, es).now)
             && v.timer.Some? && Sooner(v.timer.value, v.stored.value)
    ensures exists fs :: Undisturbed(cap, es, fs, slot) &&
              ViewOf(Run(cap, es + fs).s, slot).stored != ViewOf(Run(cap, es).s, slot).stored
  {
    hide ViewOf, Recomputes, OwnCommand, Step;
    IndefiniteUntimed(cap, es, slot);
    SoundAlways(cap, es);
    var x := Run(cap, es);
    var v := ViewOf(x.s, slot);
    var d: nat := if v.timer.value.Deadline() > x.now then v.timer.value.Deadline() - x.now else 0;
    var key := TheTimer(x.s, slot);
    var fs := [Wait(d), Expiry(key)];
    QuietEvents(cap, es, d, key, slot);
    assert es + [Wait(d)] + [Expiry(key)] == es + fs;
    Waited(cap, es, d, slot);
    LostExactly(cap, es + [Wait(d)], Expiry(key), slot);
    assert Undisturbed(cap, es, fs, slot);
  }

  lemma TheTimer(s: State, slot: Slot) returns (key: TimerKey)
    requires Sound(s)
    requires ViewOf(s, slot).timer.Some?
    ensures key in s.timers && Some(s.timers[key]) == ViewOf(s, slot).timer
    ensures key.zone in s.indexZone && SlotFor(s, key) == slot
  {
    key := KeyOf(s, slot);
    InverseBack(s.zoneIndex, s.indexZone, key.zone);
  }

  lemma Waited(cap: Capacity, es: seq<Event>, d: nat, slot: Slot)
    ensures var x, y := Run(cap, es), Run(cap, es + [Wait(d)]); y == x.(now := x.now + d)
  {
    assert (es + [Wait(d)])[..|es|] == es;
  }

  lemma QuietEvents(cap: Capacity, es: seq<Event>, d: nat, key: TimerKey, slot: Slot)
    ensures var fs := [Wait(d), Expiry(key)];
            && ZonesOf(es + fs) == ZonesOf(es) && ZonesOf(es + [Wait(d)] + [Expiry(key)]) == ZonesOf(es)
            && (forall e :: e in fs ==> !OwnCommand(e, slot.zone) && !e.Resets?)
            && Run(cap, es + fs).now == Run(cap, es).now + d
  {
    hide SetLimit, ClearLimit, ClearZone, ResetAll, Expire, OnExpiry;
    var w, fs := es + [Wait(d)], [Wait(d), Expiry(key)];
    assert w[..|es|] == es && (es + fs)[..|es| + 1] == w && w + [Expiry(key)] == es + fs;
    Waited(cap, es, d, slot);
  }

  /** With accepted durations, an armed timer is never due sooner: only pending callbacks threaten. */
  lemma AcceptedUnthreatened(cap: Capacity, es: seq<Event>, slot: Slot)
    requires |ZonesOf(es)| <= 256 && AllTimeable(es) && ViewOf(Run(cap, es).s, slot).stored.Some?
    ensures Unthreatened(Run(cap, es), slot) <==> NoCallback(Run(cap, es), slot)
  {
    OwnTimerAlways(cap, es, slot);
  }

  // ---- When a subscriber is right ----

  /** What the zone was told is what it reads. */
  predicate Agrees(s: State, slot: Slot) {
    Look(s.my, slot) == ReadMy(s, slot)
  }

  lemma AgreesView(s: State, slot: Slot)
    requires Sound(s)
    ensures var v := ViewOf(s, slot);
            Agrees(s, slot) <==> v.my == (if v.stored.Some? then Some(v.stored.value.value) else None)
  {
  }

  /** Whoever has been told a limit has an index, so a reset reaches it. */
  lemma {:induction false} ToldIsIndexed(cap: Capacity, es: seq<Event>, slot: Slot)
    requires |ZonesOf(es)| <= 256
    ensures ViewOf(Run(cap, es).s, slot).my.Some? ==> slot.zone in Run(cap, es).s.zoneIndex
  {
    hide Step, ViewStep, ViewOf;
    if es != [] {
      var init, e := es[..|es| - 1], es[|es| - 1];
      assert init + [e] == es;
      LastStep(cap, init, e);
      ToldIsIndexed(cap, init, slot);
      var x := Run(cap, init);
      StepView(cap, x, e, slot);
      if slot.zone in x.s.zoneIndex {
        StepKeepsIndex(cap, x, e, slot.zone);
      } else {
        NewlyTold(cap, x, e, slot);
      }
    } else {
      NothingStored(slot);
    }
  }

  lemma NewlyTold(cap: Capacity, x: System, e: Event, slot: Slot)
    requires ViewOf(x.s, slot).my.None?
    ensures ViewStep(cap, x, e, slot).my.Some? ==> slot.zone in Step(cap, x, e).s.zoneIndex
  {
    if e.Sets? {
      StoreZones(x.s, e.zone, e.zoneType, e.req, x.now);
    }
  }

  lemma ViewStepAgrees(cap: Capacity, x: System, e: Event, slot: Slot)
    requires var v := ViewOf(x.s, slot);
             (v.stored.Some? ==> v.my == Some(v.stored.value.value)) && (v.my.Some? ==> slot.zone in x.s.zoneIndex)
    requires e.Expiry? && Due(x, e.key) ==> e.key.zone in x.s.indexZone
    ensures var v, v' := ViewOf(x.s, slot), ViewStep(cap, x, e, slot);
            v'.my == (if v'.stored.Some? then Some(v'.stored.value.value) else None) <==>
            if v.stored.None? && v.my.Some? then Tells(cap, x, e, slot)
            else !(v.stored.Some? && v.stored.value.Expired(x.now) && Recomputes(cap, x, e) && !Tells(cap, x, e, slot))
  {
    hide ViewOf, Due;
  }

  /** One step over any run: a subscriber that is right becomes wrong exactly when its limit is past its
      time and is dropped without its being told; one that is wrong becomes right exactly when told. */
  lemma AgreementStep(cap: Capacity, es: seq<Event>, e: Event, slot: Slot)
    requires |ZonesOf(es + [e])| <= 256
    ensures var x, l := Run(cap, es), ViewOf(Run(cap, es).s, slot).stored;
            Agrees(Run(cap, es + [e]).s, slot) <==>
            if Agrees(x.s, slot)
            then !(l.Some? && l.value.Expired(x.now) && Recomputes(cap, x, e) && !Tells(cap, x, e, slot))
            else Tells(cap, x, e, slot)
  {
    hide Step, ViewStep, ViewOf, Agrees, Tells, Recomputes;
    LastStep(cap, es, e);
    SoundAlways(cap, es + [e]);
    ToldWhileStored(cap, es, slot);
    ToldIsIndexed(cap, es, slot);
    var x := Run(cap, es);
    AgreesView(x.s, slot);
    AgreesView(Run(cap, es + [e]).s, slot);
    StepView(cap, x, e, slot);
    if e.Expiry? && Due(x, e.key) {
      KeyHasSlot(x.s, e.key);
    }
    ViewStepAgrees(cap, x, e, slot);
  }

  /** The last drop of the slot's limit that its zone was not told about has not been made good since. */
  ghost predicate Stale(cap: Capacity, es: seq<Event>, slot: Slot) {
    es != [] &&
    var init, e := es[..|es| - 1], es[|es| - 1];
    var x := Run(cap, init);
    var l := ViewOf(x.s, slot).stored;
    && !Tells(cap, x, e, slot)
    && (Stale(cap, init, slot) || (l.Some? && l.value.Expired(x.now) && Recomputes(cap, x, e)))
  }

  /** In every run the notifications folded together give what the read hook returns, except exactly
      while a limit that was dropped untold has not been made good. */
  lemma {:induction false} ReplicaExactly(cap: Capacity, es: seq<Event>, slot: Slot)
    requires |ZonesOf(es)| <= 256
    ensures Agrees(Run(cap, es).s, slot) <==> !Stale(cap, es, slot)
  {
    hide Step, ViewOf, Agrees, Tells, Recomputes;
    if es != [] {
      var init, e := es[..|es| - 1], es[|es| - 1];
      assert init + [e] == es;
      LastStep(cap, init, e);
      ReplicaExactly(cap, init, slot);
      AgreementStep(cap, init, e, slot);
    } else {
      NothingTold(slot);
    }
  }

  lemma NothingTold(slot: Slot)
    ensures Agrees(Start.s, slot)
  {
  }
}
