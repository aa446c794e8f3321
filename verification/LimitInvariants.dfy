/** The coupling between stored limits, duration timers, zone indices and notified values,
    and what each resolver operation does to one zone's slot. */
module LimitInvariants {
  import opened Wrappers
  import opened DurationManager
  import opened MultiZone
  import opened LimitSpec

  /** Everything the resolver knows about one zone and direction. */
  datatype View = View(stored: Option<ZoneValue>, timer: Option<Timer>, my: Option<int>)

  function Look<K, V>(m: map<K, V>, k: K): Option<V> {
    if k in m then Some(m[k]) else None
  }

  function TimerAt(s: State, slot: Slot): Option<Timer> {
    if slot.zone in s.zoneIndex then Look(s.timers, TimerKey(s.zoneIndex[slot.zone], Command(slot.dir))) else None
  }

  function ViewOf(s: State, slot: Slot): View {
    View(Look(s.Of(slot.dir), slot.zone), TimerAt(s, slot), Look(s.my, slot))
  }

  /** The two index maps are mutually inverse. */
  ghost predicate Inverse(index: map<ZoneId, u8>, zone: map<u8, ZoneId>) {
    && (forall z :: z in index ==> index[z] in zone && zone[index[z]] == z)
    && (forall i :: i in zone ==> i in index.Values)
  }

  lemma InverseBack(index: map<ZoneId, u8>, zone: map<u8, ZoneId>, i: u8)
    requires Inverse(index, zone) && i in zone
    ensures zone[i] in index && index[zone[i]] == i
  {
    var z :| z in index && index[z] == i;
  }

  /** The index maps are mutually inverse and indices are handed out in order. */
  ghost predicate Indexed(index: map<ZoneId, u8>, zone: map<u8, ZoneId>, next: u8) {
    && Inverse(index, zone)
    && (forall i: u8 :: i in zone <==> i < |index|)
    && next == |index| % 256
    && |index| <= 256
  }

  ghost predicate IndexOk(s: State) {
    Indexed(s.zoneIndex, s.indexZone, s.nextIndex)
  }

  /** Every timer belongs to a direction of an indexed zone and has an accepted duration; every
      stored limit belongs to an indexed zone. */
  ghost predicate KeysOk(s: State) {
    && (forall key :: key in s.timers ==>
          && key.zone in s.indexZone
          && (key.cmd == LimitConsumption || key.cmd == LimitProduction)
          && ValidDuration(s.timers[key].duration))
    && s.consumption.Keys <= s.zoneIndex.Keys
    && s.production.Keys <= s.zoneIndex.Keys
    && NO_ZONE !in s.zoneIndex
  }

  /** A stored timed limit has exactly its own timer and an indefinite one has none; a timer without
      a limit is one whose limit has lapsed and whose expiry is still to come. The zone was last told
      the stored limit, or else the lapsed one, or else nothing. */
  predicate SlotOk(v: View, now: int) {
    match (v.stored, v.timer)
    case (Some(l), Some(t)) =>
      l.duration > 0 && l.setAt <= now && t == Timer(l.setAt, l.duration, l.value) && v.my == Some(l.value)
    case (Some(l), None) => l.duration == 0 && v.my == Some(l.value)
    case (None, Some(t)) => now > t.Deadline() && v.my == Some(t.value)
    case (None, None) => v.my == None
  }

  /** The published effective limits are the most restrictive stored ones. */
  ghost predicate Derived(s: State) {
    && s.attrs.effConsumption == Effective(s.consumption)
    && s.attrs.effProduction == Effective(s.production)
  }

  ghost predicate ControlDerived(s: State) {
    s.attrs.control == ControlFor(Effective(s.consumption), Effective(s.production))
  }

  ghost predicate Coupled(s: State, now: int) {
    forall slot: Slot :: SlotOk(ViewOf(s, slot), now)
  }

  ghost predicate Sound(s: State) {
    IndexOk(s) && KeysOk(s)
  }

  ghost predicate Inv(s: State, now: int) {
    Sound(s) && Coupled(s, now) && Derived(s)
  }

  // ---- Effect of the shared steps on one slot ----

  /** Handing out an index keeps the maps inverse exactly when the zone is known or one of the
      256 indices is still free. */
  lemma IndexExact(s: State, z: ZoneId)
    requires IndexOk(s)
    ensures var s' := EnsureIndex(s, z);
            && (Inverse(s'.zoneIndex, s'.indexZone) <==> z in s.zoneIndex || |s.zoneIndex| < 256)
            && (IndexOk(s') <==> z in s.zoneIndex || |s.zoneIndex| < 256)
  {
    if z !in s.zoneIndex {
      var s' := EnsureIndex(s, z);
      assert |s'.zoneIndex| == |s.zoneIndex| + 1;
      if |s.zoneIndex| < 256 {
        IndexGrows(s.zoneIndex, s.indexZone, s.nextIndex, z);
      } else {
        InverseBack(s.zoneIndex, s.indexZone, 0);
        var y := s.indexZone[0];
        assert s'.zoneIndex[y] == 0 && s'.indexZone[0] == z;
      }
    }
  }

  lemma InverseGrows(index: map<ZoneId, u8>, zone: map<u8, ZoneId>, next: u8, z: ZoneId)
    requires Inverse(index, zone) && z !in index && next !in zone
    ensures Inverse(index[z := next], zone[next := z])
  {
    var index', zone' := index[z := next], zone[next := z];
    forall i | i in zone'
      ensures i in index'.Values
    {
      if i == next {
        assert index'[z] == i;
      } else {
        InverseBack(index, zone, i);
        assert index'[zone[i]] == i;
      }
    }
  }

  lemma IndexGrows(index: map<ZoneId, u8>, zone: map<u8, ZoneId>, next: u8, z: ZoneId)
    requires Indexed(index, zone, next) && z !in index && |index| < 256
    ensures next !in zone && Indexed(index[z := next], zone[next := z], (next + 1) % 256)
  {
    assert next == |index|;
    InverseGrows(index, zone, next, z);
    hide Inverse;
    var index', zone' := index[z := next], zone[next := z];
    assert |index'| == |index| + 1;
    assert forall i: u8 :: i in zone' <==> i in zone || i == next;
  }

  /** A proper zone for which there is an index, old or new. */
  predicate RoomFor(s: State, z: ZoneId) {
    z != NO_ZONE && (z in s.zoneIndex || |s.zoneIndex| < 256)
  }

  lemma IndexSound(s: State, z: ZoneId)
    requires Sound(s) && RoomFor(s, z)
    ensures Sound(EnsureIndex(s, z))
  {
    IndexExact(s, z);
  }

  lemma IndexView(s: State, z: ZoneId, slot: Slot)
    requires Sound(s) && RoomFor(s, z)
    ensures ViewOf(EnsureIndex(s, z), slot) == ViewOf(s, slot)
  {
    if z !in s.zoneIndex {
      IndexGrows(s.zoneIndex, s.indexZone, s.nextIndex, z);
    }
  }

  predicate SameKey(s: State, a: Slot, b: Slot) {
    && a.zone in s.zoneIndex && b.zone in s.zoneIndex
    && TimerKey(s.zoneIndex[a.zone], Command(a.dir)) == TimerKey(s.zoneIndex[b.zone], Command(b.dir))
  }

  /** Different slots have different timer keys. */
  lemma KeysDiffer(s: State, a: Slot, b: Slot)
    requires IndexOk(s) && a != b
    ensures !SameKey(s, a, b)
  {
  }

  function TimerAfter(was: Option<Timer>, v: int, d: int, now: int): Option<Timer> {
    if d > 0 then (if ValidDuration(d) then Some(Timer(now, d, v)) else was) else None
  }

  function ViewStored(was: View, zt: u8, v: int, d: int, now: int): View {
    was.(stored := Some(ZoneValue(zt, v, d, now)), timer := TimerAfter(was.timer, v, d, now))
  }

  lemma TimersElsewhere(s: State, at: Slot, zt: u8, v: int, d: int, now: int, slot: Slot)
    requires at.zone in s.zoneIndex && !SameKey(s, slot, at)
    ensures TimerAt(Store(s, at, zt, v, d, now), slot) == TimerAt(s, slot)
  {
  }

  lemma StoreElsewhere(s: State, at: Slot, zt: u8, v: int, d: int, now: int, slot: Slot)
    requires at.zone in s.zoneIndex && slot != at && !SameKey(s, slot, at)
    ensures ViewOf(Store(s, at, zt, v, d, now), slot) == ViewOf(s, slot)
  {
    var s' := Store(s, at, zt, v, d, now);
    assert s'.my == s.my && s'.zoneIndex == s.zoneIndex;
    assert Look(s'.Of(slot.dir), slot.zone) == Look(s.Of(slot.dir), slot.zone) by {
      assert slot.dir == at.dir ==> slot.zone != at.zone;
    }
    hide Store;
    assert TimerAt(s', slot) == TimerAt(s, slot) by {
      TimersElsewhere(s, at, zt, v, d, now, slot);
    }
  }

  lemma StoreSound(s: State, at: Slot, zt: u8, v: int, d: int, now: int)
    requires Sound(s) && at.zone in s.zoneIndex
    ensures Sound(Store(s, at, zt, v, d, now))
  {
  }

  lemma StoreView(s: State, at: Slot, zt: u8, v: int, d: int, now: int, slot: Slot)
    requires IndexOk(s) && at.zone in s.zoneIndex
    ensures ViewOf(Store(s, at, zt, v, d, now), slot) ==
            if slot == at then ViewStored(ViewOf(s, at), zt, v, d, now) else ViewOf(s, slot)
  {
    if slot != at {
      KeysDiffer(s, slot, at);
      StoreElsewhere(s, at, zt, v, d, now, slot);
    }
  }

  lemma TimersAfterDrop(s: State, at: Slot, slot: Slot)
    requires !SameKey(s, slot, at)
    ensures TimerAt(Drop(s, at), slot) == TimerAt(s, slot)
  {
  }

  lemma DropElsewhere(s: State, at: Slot, slot: Slot)
    requires slot != at && !SameKey(s, slot, at)
    ensures ViewOf(Drop(s, at), slot) == ViewOf(s, slot)
  {
    TimersAfterDrop(s, at, slot);
    DropKeeps(s, at, slot.dir);
    hide Look, TimerAt, SameKey, Drop, State.With, State.Of;
    LookWithout(s.Of(at.dir), at.zone, slot.zone);
  }

  lemma DropKeeps(s: State, at: Slot, dir: Direction)
    ensures Drop(s, at).Of(dir) == (if dir == at.dir then s.Of(dir) - {at.zone} else s.Of(dir)) &&
            Drop(s, at).my == s.my
  {
    hide State.With, State.Of;
    OfWith(s, at.dir, s.Of(at.dir) - {at.zone}, dir);
    var t := s.With(at.dir, s.Of(at.dir) - {at.zone});
    SameValues(t, Drop(s, at), dir);
  }

  lemma SameValues(s: State, s': State, dir: Direction)
    requires s'.consumption == s.consumption && s'.production == s.production
    ensures s'.Of(dir) == s.Of(dir)
  {
  }

  lemma DropSound(s: State, at: Slot)
    requires Sound(s)
    ensures Sound(Drop(s, at))
  {
  }

  function ViewDropped(was: View): View {
    was.(stored := None, timer := None)
  }

  lemma DropView(s: State, at: Slot, slot: Slot)
    requires IndexOk(s)
    ensures ViewOf(Drop(s, at), slot) == if slot == at then ViewDropped(ViewOf(s, at)) else ViewOf(s, slot)
  {
    if slot != at {
      KeysDiffer(s, slot, at);
      DropElsewhere(s, at, slot);
    }
  }

  lemma DropZoneElsewhere(s: State, z: ZoneId, slot: Slot)
    requires slot.zone != z && !SameKey(s, slot, Slot(z, slot.dir))
    ensures ViewOf(DropZone(s, z), slot) == ViewOf(s, slot)
  {
  }

  lemma DropZoneSound(s: State, z: ZoneId)
    requires Sound(s)
    ensures Sound(DropZone(s, z))
  {
  }

  lemma DropZoneView(s: State, z: ZoneId, slot: Slot)
    requires IndexOk(s)
    ensures ViewOf(DropZone(s, z), slot) ==
            if slot.zone == z then ViewDropped(ViewOf(s, slot)) else ViewOf(s, slot)
  {
    if slot.zone != z {
      KeysDiffer(s, slot, Slot(z, slot.dir));
      DropZoneElsewhere(s, z, slot);
    }
  }

  /** Recomputing removes limits whose time is up and touches neither timers nor replicas. */
  function Lapse(v: View, now: int): View {
    if v.stored.Some? && v.stored.value.Expired(now) then v.(stored := None) else v
  }

  function Told(v: View, n: Note, slot: Slot): View {
    if slot.zone == n.zone && n.Of(slot.dir).To? then v.(my := n.Of(slot.dir).value) else v
  }

  lemma ResolveView(s: State, now: int, slot: Slot)
    ensures ViewOf(Resolve(s, now), slot) == Lapse(ViewOf(s, slot), now)
  {
  }

  lemma NotifyView(s: State, n: Note, slot: Slot)
    ensures ViewOf(Notify(s, n), slot) == Told(ViewOf(s, slot), n, slot)
  {
  }

  lemma FinishSound(s: State, n: Note, now: int)
    ensures Sound(s) ==> Sound(Finish(s, n, now))
    ensures Derived(Finish(s, n, now)) && ControlDerived(Finish(s, n, now))
  {
  }

  lemma FinishView(s: State, n: Note, now: int, slot: Slot)
    ensures ViewOf(Finish(s, n, now), slot) == Told(Lapse(ViewOf(s, slot), now), n, slot)
  {
    ResolveView(s, now, slot);
    NotifyView(Resolve(s, now), n, slot);
  }

  lemma SlotLater(v: View, now: int, later: int)
    requires SlotOk(v, now) && now <= later
    ensures SlotOk(v, later) && SlotOk(Lapse(v, later), later)
  {
  }

  // ---- Effect of the operations on one slot ----

  const EMPTY := View(None, None, None)

  /** A zone's own slot after it set "v" (or left the direction out) with duration "d". */
  function ViewSet(was: View, zt: u8, v: Option<int>, d: int, now: int): View {
    match v
    case Some(x) => View(Some(ZoneValue(zt, x, d, now)), TimerAfter(was.timer, x, d, now), Some(x))
    case None => Lapse(was, now)
  }

  /** The request passes every check and carries a value. */
  predicate Stores(s: State, cap: Capacity, z: ZoneId, req: Request) {
    Judge(s, cap, z, req).Accepted? && (req.consumption.Some? || req.production.Some?)
  }

  lemma StoreIfSound(s: State, at: Slot, zt: u8, v: Option<int>, d: int, now: int)
    requires Sound(s) && at.zone in s.zoneIndex
    ensures Sound(StoreIf(s, at, zt, v, d, now))
  {
    if v.Some? {
      StoreSound(s, at, zt, v.value, d, now);
    }
  }

  lemma StoreIfView(s: State, at: Slot, zt: u8, v: Option<int>, d: int, now: int, slot: Slot)
    requires IndexOk(s) && at.zone in s.zoneIndex
    ensures ViewOf(StoreIf(s, at, zt, v, d, now), slot) ==
            if slot == at && v.Some? then ViewStored(ViewOf(s, at), zt, v.value, d, now) else ViewOf(s, slot)
  {
    if v.Some? {
      StoreView(s, at, zt, v.value, d, now, slot);
    }
  }

  lemma StoreBothSound(s: State, z: ZoneId, zt: u8, req: Request, now: int)
    requires Sound(s) && RoomFor(s, z)
    ensures Sound(StoreBoth(s, z, zt, req, now))
  {
    IndexSound(s, z);
    var s1 := EnsureIndex(s, z);
    StoreIfSound(s1, Slot(z, Consumption), zt, req.consumption, req.Duration(), now);
    var s2 := StoreIf(s1, Slot(z, Consumption), zt, req.consumption, req.Duration(), now);
    StoreIfSound(s2, Slot(z, Production), zt, req.production, req.Duration(), now);
  }

  lemma StorePairView(s: State, z: ZoneId, zt: u8, req: Request, now: int, slot: Slot)
    requires IndexOk(s) && z in s.zoneIndex
    ensures ViewOf(StorePair(s, z, zt, req, now), slot) ==
            if slot.zone == z && req.Of(slot.dir).Some?
            then ViewStored(ViewOf(s, slot), zt, req.Of(slot.dir).value, req.Duration(), now)
            else ViewOf(s, slot)
  {
    StoreIfView(s, Slot(z, Consumption), zt, req.consumption, req.Duration(), now, slot);
    var s1 := StoreIf(s, Slot(z, Consumption), zt, req.consumption, req.Duration(), now);
    StoreIfView(s1, Slot(z, Production), zt, req.production, req.Duration(), now, slot);
  }

  lemma StoreBothView(s: State, z: ZoneId, zt: u8, req: Request, now: int, slot: Slot)
    requires Sound(s) && RoomFor(s, z)
    ensures ViewOf(StoreBoth(s, z, zt, req, now), slot) ==
            if slot.zone == z && req.Of(slot.dir).Some?
            then ViewStored(ViewOf(s, slot), zt, req.Of(slot.dir).value, req.Duration(), now)
            else ViewOf(s, slot)
  {
    IndexSound(s, z);
    IndexView(s, z, slot);
    StorePairView(EnsureIndex(s, z), z, zt, req, now, slot);
  }

  lemma SetLimitSound(s: State, cap: Capacity, z: ZoneId, zt: u8, req: Request, now: int)
    requires Sound(s) && RoomFor(s, z) && Stores(s, cap, z, req)
    ensures var s' := SetLimit(s, cap, z, zt, req, now); Sound(s') && Derived(s') && ControlDerived(s')
  {
    StoreBothSound(s, z, zt, req, now);
    var n := Note(z, SetChange(req.consumption), SetChange(req.production));
    FinishSound(StoreBoth(s, z, zt, req, now), n, now);
  }

  /** A zone that sets a limit changes its own slots as asked; other zones' slots only lapse. */
  lemma SetLimitView(s: State, cap: Capacity, z: ZoneId, zt: u8, req: Request, now: int, slot: Slot)
    requires Sound(s) && RoomFor(s, z) && Stores(s, cap, z, req)
    ensures ViewOf(SetLimit(s, cap, z, zt, req, now), slot) ==
            if slot.zone == z then ViewSet(ViewOf(s, slot), zt, req.Of(slot.dir), req.Duration(), now)
            else Lapse(ViewOf(s, slot), now)
  {
    StoreBothView(s, z, zt, req, now, slot);
    var n := Note(z, SetChange(req.consumption), SetChange(req.production));
    FinishView(StoreBoth(s, z, zt, req, now), n, now, slot);
    assert n.Of(slot.dir) == SetChange(req.Of(slot.dir));
  }

  lemma DropIfSound(s: State, at: Slot, b: bool)
    requires Sound(s)
    ensures Sound(DropIf(s, at, b))
  {
    if b {
      DropSound(s, at);
    }
  }

  lemma DropIfView(s: State, at: Slot, b: bool, slot: Slot)
    requires IndexOk(s)
    ensures ViewOf(DropIf(s, at, b), slot) ==
            if slot == at && b then ViewDropped(ViewOf(s, at)) else ViewOf(s, slot)
  {
    if b {
      DropView(s, at, slot);
    }
  }

  lemma DropIfIndices(s: State, at: Slot, b: bool)
    ensures DropIf(s, at, b).zoneIndex == s.zoneIndex && IndexOk(DropIf(s, at, b)) == IndexOk(s)
  {
    hide IndexOk;
    SameIndices(s, DropIf(s, at, b));
  }

  lemma DropBothView(s: State, z: ZoneId, target: ClearTarget, slot: Slot)
    requires IndexOk(s)
    ensures ViewOf(DropBoth(s, z, target), slot) ==
            if slot.zone == z && target.Covers(slot.dir) then ViewDropped(ViewOf(s, slot)) else ViewOf(s, slot)
  {
    hide ViewOf, DropIf, IndexOk;
    var c, p := target.Covers(Consumption), target.Covers(Production);
    DropIfIndices(s, Slot(z, Consumption), c);
    assert slot.zone == z && slot.dir.Consumption? <==> slot == Slot(z, Consumption);
    assert slot.zone == z && slot.dir.Production? <==> slot == Slot(z, Production);
    DropIfView(s, Slot(z, Consumption), c, slot);
    DropIfView(DropIf(s, Slot(z, Consumption), c), Slot(z, Production), p, slot);
  }

  lemma ClearLimitSound(s: State, z: ZoneId, target: ClearTarget, now: int)
    requires Sound(s) && z != NO_ZONE
    ensures var s' := ClearLimit(s, z, target, now); Sound(s') && Derived(s') && ControlDerived(s')
  {
    var c, p := target.Covers(Consumption), target.Covers(Production);
    DropIfSound(s, Slot(z, Consumption), c);
    var s1 := DropIf(s, Slot(z, Consumption), c);
    DropIfSound(s1, Slot(z, Production), p);
    FinishSound(DropBoth(s, z, target), Note(z, ClearChange(c), ClearChange(p)), now);
  }

  lemma ClearLimitView(s: State, z: ZoneId, target: ClearTarget, now: int, slot: Slot)
    requires Sound(s) && z != NO_ZONE
    ensures ViewOf(ClearLimit(s, z, target, now), slot) ==
            if slot.zone == z && target.Covers(slot.dir) then EMPTY else Lapse(ViewOf(s, slot), now)
  {
    var c, p := target.Covers(Consumption), target.Covers(Production);
    var n := Note(z, ClearChange(c), ClearChange(p));
    assert n.Of(slot.dir) == ClearChange(target.Covers(slot.dir)) by {
      match slot.dir {
        case Consumption =>
        case Production =>
      }
    }
    DropBothView(s, z, target, slot);
    FinishView(DropBoth(s, z, target), n, now, slot);
  }

  lemma ClearZoneSound(s: State, z: ZoneId, now: int)
    requires Sound(s)
    ensures var s' := ClearZone(s, z, now); Sound(s') && Derived(s') && ControlDerived(s')
  {
    DropZoneSound(s, z);
    FinishSound(DropZone(s, z), Note(z, To(None), To(None)), now);
  }

  lemma ClearZoneView(s: State, z: ZoneId, now: int, slot: Slot)
    requires Sound(s)
    ensures ViewOf(ClearZone(s, z, now), slot) ==
            if slot.zone == z then EMPTY else Lapse(ViewOf(s, slot), now)
  {
    DropZoneView(s, z, slot);
    FinishView(DropZone(s, z), Note(z, To(None), To(None)), now, slot);
  }

  lemma ResetAllSound(s: State, now: int)
    requires Sound(s)
    ensures var s' := ResetAll(s, now);
            Sound(s') && Derived(s') && s'.timers == map[] && s'.attrs == Attributes(None, None, Autonomous)
  {
    var s' := ResetAll(s, now);
    EffectiveUnique(map[], Effective(map[]), None);
    assert s'.consumption == map[] && s'.production == map[];
    forall key | key in s.timers
      ensures key.zone in s.zoneIndex.Values
    {
      InverseBack(s.zoneIndex, s.indexZone, key.zone);
    }
    assert s'.timers == map[];
  }

  lemma ResetAllView(s: State, now: int, slot: Slot)
    requires Sound(s)
    ensures ViewOf(ResetAll(s, now), slot) == if slot.zone in s.zoneIndex then EMPTY else ViewOf(s, slot)
  {
    ResetAllSound(s, now);
    var s' := ResetAll(s, now);
    assert s'.consumption == map[] && s'.production == map[];
  }

  /** The slot a timer key stands for. */
  function SlotFor(s: State, key: TimerKey): Slot
    requires key.zone in s.indexZone
  {
    Slot(s.indexZone[key.zone], if key.cmd.LimitConsumption? then Consumption else Production)
  }

  lemma ExpireIsDrop(s: State, key: TimerKey, now: int)
    requires Sound(s) && key in s.timers
    ensures key.zone in s.indexZone && TimerAt(s, SlotFor(s, key)) == Some(s.timers[key])
    ensures var at := SlotFor(s, key);
            Expire(s, key, now) ==
            Finish(Drop(s, at), Note(at.zone, ClearChange(at.dir.Consumption?), ClearChange(at.dir.Production?)), now)
  {
    InverseBack(s.zoneIndex, s.indexZone, key.zone);
  }

  lemma ExpireSound(s: State, key: TimerKey, now: int)
    requires Sound(s) && key in s.timers
    ensures var s' := Expire(s, key, now); Sound(s') && Derived(s') && ControlDerived(s')
  {
    ExpireIsDrop(s, key, now);
    var at := SlotFor(s, key);
    DropSound(s, at);
    FinishSound(Drop(s, at), Note(at.zone, ClearChange(at.dir.Consumption?), ClearChange(at.dir.Production?)), now);
  }

  lemma ExpireView(s: State, key: TimerKey, now: int, slot: Slot)
    requires Sound(s) && key in s.timers
    ensures ViewOf(Expire(s, key, now), slot) ==
            if slot == SlotFor(s, key) then EMPTY else Lapse(ViewOf(s, slot), now)
  {
    ExpireIsDrop(s, key, now);
    var at := SlotFor(s, key);
    DropView(s, at, slot);
    FinishView(Drop(s, at), Note(at.zone, ClearChange(at.dir.Consumption?), ClearChange(at.dir.Production?)),
               now, slot);
  }

  // ---- The two halves of an expiry ----

  lemma TimerLeavesSound(s: State, key: TimerKey)
    requires Sound(s)
    ensures Sound(s.(timers := s.timers - {key}))
  {
  }

  lemma TimerLeavesView(s: State, key: TimerKey, slot: Slot)
    requires Sound(s) && key in s.timers
    ensures key.zone in s.indexZone
    ensures ViewOf(s.(timers := s.timers - {key}), slot) ==
            if slot == SlotFor(s, key) then ViewOf(s, slot).(timer := None) else ViewOf(s, slot)
  {
    InverseBack(s.zoneIndex, s.indexZone, key.zone);
    var at := SlotFor(s, key);
    if slot != at {
      KeysDiffer(s, slot, at);
    }
  }

  /** The slot a late callback clears; callbacks for other commands clear none. */
  predicate ClearsSlot(s: State, key: TimerKey, slot: Slot) {
    && key.zone in s.indexZone && slot == SlotFor(s, key)
    && (key.cmd.LimitConsumption? || key.cmd.LimitProduction?)
  }

  lemma ResolveSound(s: State, now: int)
    requires Sound(s)
    ensures Sound(Resolve(s, now))
  {
  }

  lemma UnstoreSound(s: State, at: Slot)
    requires Sound(s)
    ensures Sound(s.With(at.dir, s.Of(at.dir) - {at.zone}))
  {
    hide IndexOk;
    assert IndexOk(s) ==> IndexOk(s.With(at.dir, s.Of(at.dir) - {at.zone})) by {
      SameIndices(s, s.With(at.dir, s.Of(at.dir) - {at.zone}));
    }
  }

  lemma SameIndices(s: State, s': State)
    requires s'.zoneIndex == s.zoneIndex && s'.indexZone == s.indexZone && s'.nextIndex == s.nextIndex
    ensures IndexOk(s') == IndexOk(s)
  {
  }

  lemma OnExpirySound(s: State, key: TimerKey, now: int)
    requires Sound(s)
    ensures Sound(OnExpiry(s, key, now))
  {
    hide Finish, Resolve, Sound;
    ResolveSound(s, now);
    if key.zone in s.indexZone {
      var z := s.indexZone[key.zone];
      UnstoreSound(s, Slot(z, Consumption));
      UnstoreSound(s, Slot(z, Production));
      FinishSound(s.(consumption := s.consumption - {z}), Note(z, To(None), Unchanged), now);
      FinishSound(s.(production := s.production - {z}), Note(z, Unchanged, To(None)), now);
    }
  }

  lemma UnstoreView(s: State, at: Slot, slot: Slot)
    ensures ViewOf(s.With(at.dir, s.Of(at.dir) - {at.zone}), slot) ==
            if slot == at then ViewOf(s, slot).(stored := None) else ViewOf(s, slot)
  {
    hide Look, TimerAt, State.With, State.Of;
    OfWith(s, at.dir, s.Of(at.dir) - {at.zone}, slot.dir);
    SameTimers(s, s.With(at.dir, s.Of(at.dir) - {at.zone}), slot);
    LookWithout(s.Of(at.dir), at.zone, slot.zone);
  }

  /** Replacing one direction's values leaves everything else. */
  lemma OfWith(s: State, dir: Direction, m: Values, other: Direction)
    ensures var s' := s.With(dir, m);
            && s'.Of(other) == (if other == dir then m else s.Of(other))
            && s'.my == s.my && s'.timers == s.timers && s'.zoneIndex == s.zoneIndex
  {
  }

  lemma LookWithout(m: Values, z: ZoneId, y: ZoneId)
    ensures Look(m - {z}, y) == if y == z then None else Look(m, y)
  {
  }

  lemma SameTimers(s: State, s': State, slot: Slot)
    requires s'.timers == s.timers && s'.zoneIndex == s.zoneIndex
    ensures TimerAt(s', slot) == TimerAt(s, slot)
  {
  }

  lemma OnExpiryView(s: State, key: TimerKey, now: int, slot: Slot)
    requires Sound(s) && key.zone in s.indexZone
    ensures ViewOf(OnExpiry(s, key, now), slot) ==
            if ClearsSlot(s, key, slot) then ViewOf(s, slot).(stored := None, my := None)
            else Lapse(ViewOf(s, slot), now)
  {
    hide Finish, Resolve, ViewOf;
    var z := s.indexZone[key.zone];
    match key.cmd {
      case LimitConsumption =>
        UnstoreView(s, Slot(z, Consumption), slot);
        FinishView(s.(consumption := s.consumption - {z}), Note(z, To(None), Unchanged), now, slot);
      case LimitProduction =>
        UnstoreView(s, Slot(z, Production), slot);
        FinishView(s.(production := s.production - {z}), Note(z, Unchanged, To(None)), now, slot);
      case _ => ResolveView(s, now, slot);
    }
  }
}
