/** Where the resolver's guarantees end: the exact conditions, and what happens beyond them. */
module LimitBoundaries {
  import opened Wrappers
  import opened DurationManager
  import opened MultiZone
  import opened LimitSpec
  import opened LimitInvariants
  import opened LimitRuns
  import opened LimitOutcomes

  /** Setting a limit keeps limits and timers coupled exactly when the timer manager accepts the
      duration, that is, when it is at most 24 hours. */
  lemma CoupledIffTimeable(s: State, cap: Capacity, z: ZoneId, zt: u8, req: Request, now: int)
    requires Inv(s, now) && RoomFor(s, z) && Stores(s, cap, z, req)
    ensures Coupled(SetLimit(s, cap, z, zt, req, now), now) <==> Timeable(req)
    ensures Timeable(req) <==> (req.seconds.Some? ==> req.seconds.value <= 86400)
  {
    hide SetLimit, Derived;
    var s' := SetLimit(s, cap, z, zt, req, now);
    if Timeable(req) {
      StepCoupled(cap, System(s, now, multiset{}), Sets(z, zt, req));
    } else {
      var slot := Slot(z, if req.consumption.Some? then Consumption else Production);
      SetLimitView(s, cap, z, zt, req, now, slot);
      assert SlotOk(ViewOf(s, slot), now);
      assert !SlotOk(ViewOf(s', slot), now);
    }
  }

  /** Beyond 24 hours the refusal is ignored, so a timer armed for an earlier limit stays armed, and
      its expiry removes the new limit before that limit's own duration is over. */
  lemma OverlongCutShort(s: State, cap: Capacity, z: ZoneId, zt: u8, req: Request, now: int, dir: Direction)
    requires Inv(s, now) && RoomFor(s, z) && Stores(s, cap, z, req)
    requires !Timeable(req) && req.Of(dir).Some? && TimerAt(s, Slot(z, dir)).Some?
    ensures var slot, s' := Slot(z, dir), SetLimit(s, cap, z, zt, req, now);
            var t, key := TimerAt(s, slot).value, TimerKey(s'.zoneIndex[z], Command(dir));
            && ViewOf(s', slot).stored == Some(ZoneValue(zt, req.Of(dir).value, req.Duration(), now))
            && TimerAt(s', slot) == Some(t)
            && t.Deadline() < now + req.Duration()
            && forall at: int :: ViewOf(Expire(s', key, at), slot).stored == None
  {
    var slot := Slot(z, dir);
    assert SlotOk(ViewOf(s, slot), now);
    SetLimitView(s, cap, z, zt, req, now, slot);
    SetLimitSound(s, cap, z, zt, req, now);
    KeyHasSlot(s, TimerKey(s.zoneIndex[z], Command(dir)));
    var s' := SetLimit(s, cap, z, zt, req, now);
    forall at: int
      ensures ViewOf(Expire(s', TimerKey(s'.zoneIndex[z], Command(dir)), at), slot).stored == None
    {
      ExpireArmed(s', slot, at);
    }
  }

  /** A limit beyond 24 hours that finds no older timer has none itself: when its time is up, any event
      that recomputes without telling its zone drops it, and leaves the zone with the value it was told. */
  lemma LapsesUntold(s: State, cap: Capacity, z: ZoneId, zt: u8, req: Request, now: int, dir: Direction,
                     x: System, e: Event)
    requires Inv(s, now) && RoomFor(s, z) && Stores(s, cap, z, req)
    requires !Timeable(req) && req.Of(dir).Some? && TimerAt(s, Slot(z, dir)).None?
    requires x.s == SetLimit(s, cap, z, zt, req, now) && x.now > now + req.Duration() && HasRoom(x, e)
    requires Recomputes(cap, x, e) && !Tells(cap, x, e, Slot(z, dir))
    ensures var slot, s' := Slot(z, dir), Step(cap, x, e).s;
            ViewOf(s', slot) == View(None, None, req.Of(dir)) && !Agrees(s', slot)
  {
    hide SetLimit, Step;
    var slot := Slot(z, dir);
    SetLimitView(s, cap, z, zt, req, now, slot);
    SetLimitSound(s, cap, z, zt, req, now);
    StepSound(cap, x, e);
    StepView(cap, x, e, slot);
    if e.Expiry? && Due(x, e.key) {
      KeyHasSlot(x.s, e.key);
    }
    AgreesView(Step(cap, x, e).s, slot);
  }

  lemma ExpireArmed(s: State, slot: Slot, now: int)
    requires Sound(s) && TimerAt(s, slot).Some?
    ensures ViewOf(Expire(s, TimerKey(s.zoneIndex[slot.zone], Command(slot.dir)), now), slot).stored == None
  {
    var key := TimerKey(s.zoneIndex[slot.zone], Command(slot.dir));
    ExpireView(s, key, now, slot);
  }

  /** When an expiry is split, a limit that its zone sets after the timer left the table and before
      the callback runs is cleared by that callback, whatever its duration. */
  lemma StaleCallback(s: State, cap: Capacity, key: TimerKey, zt: u8, req: Request, now: int)
    requires Sound(s) && key in s.timers && key.zone in s.indexZone
    requires var slot := SlotFor(s, key); Stores(s, cap, slot.zone, req) && req.Of(slot.dir).Some?
    ensures var slot := SlotFor(s, key);
            var s2 := SetLimit(s.(timers := s.timers - {key}), cap, slot.zone, zt, req, now);
            && ViewOf(s2, slot).stored == Some(ZoneValue(zt, req.Of(slot.dir).value, req.Duration(), now))
            && ViewOf(OnExpiry(s2, key, now), slot).stored == None
  {
    var slot := SlotFor(s, key);
    InverseBack(s.zoneIndex, s.indexZone, key.zone);
    var s1 := s.(timers := s.timers - {key});
    assert Sound(s1);
    SetLimitView(s1, cap, slot.zone, zt, req, now, slot);
    KnownZoneKeepsIndex(s1, cap, slot.zone, zt, req, now);
    ViewAfterCallback(SetLimit(s1, cap, slot.zone, zt, req, now), key, now);
  }

  lemma KnownZoneKeepsIndex(s: State, cap: Capacity, z: ZoneId, zt: u8, req: Request, now: int)
    requires z in s.zoneIndex
    ensures SetLimit(s, cap, z, zt, req, now).indexZone == s.indexZone
    ensures SetLimit(s, cap, z, zt, req, now).zoneIndex == s.zoneIndex
  {
    hide Finish;
    FinishKeepsIndex(StorePair(s, z, zt, req, now), Note(z, SetChange(req.consumption), SetChange(req.production)),
                     now);
    FinishKeepsIndex(DropZone(s, z), Note(z, To(None), To(None)), now);
  }

  lemma FinishKeepsIndex(s: State, n: Note, now: int)
    ensures Finish(s, n, now).indexZone == s.indexZone && Finish(s, n, now).zoneIndex == s.zoneIndex
  {
  }

  lemma ViewAfterCallback(s: State, key: TimerKey, now: int)
    requires key.zone in s.indexZone && (key.cmd == LimitConsumption || key.cmd == LimitProduction)
    ensures ViewOf(OnExpiry(s, key, now), SlotFor(s, key)).stored == None
  {
  }

  /** The 257th zone is given an index that another zone already holds. */
  lemma IndexCollides(s: State, z: ZoneId)
    requires IndexOk(s) && |s.zoneIndex| == 256 && z !in s.zoneIndex
    ensures var s' := EnsureIndex(s, z);
            exists y :: y != z && y in s'.zoneIndex && s'.zoneIndex[y] == s'.zoneIndex[z] &&
                        s'.indexZone[s'.zoneIndex[y]] == z
  {
    InverseBack(s.zoneIndex, s.indexZone, 0);
    var y := s.indexZone[0];
    assert EnsureIndex(s, z).zoneIndex[y] == 0;
  }

  /** OVERRIDE refuses new limits, but any clearing or reset by the resolver ends it. */
  lemma OverrideEnds(cap: Capacity, x: System, e: Event)
    requires x.s.attrs.control == Override
    ensures Step(cap, x, e).s.attrs.control == Override <==>
            match e
            case Sets(_, _, _) => true
            case Clears(z, _) => z == NO_ZONE
            case Leaves(_) => false
            case Resets => false
            case Expiry(key) => !Due(x, key) || key.zone !in x.s.indexZone
            case CallbackRuns(key) => key !in x.pending || key.zone !in x.s.indexZone
            case AppWrites(c) => c == Override
            case _ => true
  {
    match e {
      case Clears(z, target) => assert ClearLimit(x.s, z, target, x.now).attrs.control == Override <==> z == NO_ZONE;
      case Leaves(z) => assert ClearZone(x.s, z, x.now).attrs.control != Override;
      case Resets => assert ResetAll(x.s, x.now).attrs.control != Override;
      case Expiry(key) => ExpiryEndsOverride(x.s.(timers := x.s.timers - {key}), key, x.now);
      case CallbackRuns(key) => ExpiryEndsOverride(x.s, key, x.now);
      case _ =>
    }
  }

  lemma ExpiryEndsOverride(s: State, key: TimerKey, now: int)
    requires s.attrs.control == Override
    ensures OnExpiry(s, key, now).attrs.control == Override <==> key.zone !in s.indexZone
  {
  }
}
