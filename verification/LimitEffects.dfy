/** What the resolver's commands do, told in terms of their arguments alone: which requests are taken, and
    what a zone reads, is timed by and was told afterwards. */
module LimitEffects {
  import opened Wrappers
  import opened DurationManager
  import opened MultiZone
  import opened LimitSpec
  import opened LimitInvariants
  import opened LimitRuns

  /** A value that is given lies between zero and the device's maximum, if there is one. */
  predicate Allowed(v: Option<int>, max: int) {
    v.Some? ==> 0 <= v.value && (max <= 0 || v.value <= max)
  }

  /** What a SetLimit must satisfy to be taken. */
  predicate Takeable(s: State, cap: Capacity, z: ZoneId, req: Request) {
    && z.name != "" && s.attrs.control != Override
    && Allowed(req.consumption, cap.consumption) && Allowed(req.production, cap.production)
  }

  /** A request is taken exactly when its caller has a zone, its values are neither negative nor above the
      maxima, and the device is not in OVERRIDE; otherwise nothing at all changes. */
  lemma TakenExactly(s: State, cap: Capacity, z: ZoneId, zt: u8, req: Request, now: int)
    ensures Judge(s, cap, z, req).Accepted? <==> Takeable(s, cap, z, req)
    ensures !Takeable(s, cap, z, req) ==> SetLimit(s, cap, z, zt, req, now) == s
  {
    hide Finish, ClearZone, StoreBoth;
    assert z == NO_ZONE <==> z.name == "";
  }

  /** The timer of a limit set for so many seconds. */
  function TimerFor(seconds: Option<u32>, now: int, v: int): Option<Timer> {
    if seconds.Some? && seconds.value > 0 then Some(Timer(now, seconds.value * 1_000_000_000, v)) else None
  }

  /** A taken request for a direction: the zone reads its value, was told it, has a timer that is due the
      given number of seconds later (none if it gave none), and unless it is a TEST zone the published limit
      is no higher. */
  lemma SetLimitTakesEffect(s: State, cap: Capacity, z: ZoneId, zt: u8, req: Request, now: int, dir: Direction)
    requires Sound(s) && RoomFor(s, z) && WithinCapacity(s, cap) && Takeable(s, cap, z, req)
    requires req.Of(dir).Some? && (req.seconds.Some? ==> req.seconds.value <= 86400)
    ensures var s', slot := SetLimit(s, cap, z, zt, req, now), Slot(z, dir);
            && ReadMy(s', slot) == req.Of(dir) && Look(s'.my, slot) == req.Of(dir)
            && TimerAt(s', slot) == TimerFor(req.seconds, now, req.Of(dir).value)
            && (zt != 3 ==>
                  var e := if dir.Consumption? then s'.attrs.effConsumption else s'.attrs.effProduction;
                  e.Some? && e.value <= req.Of(dir).value)
  {
    hide SetLimit, ViewOf;
    var s', slot := SetLimit(s, cap, z, zt, req, now), Slot(z, dir);
    TakenExactly(s, cap, z, zt, req, now);
    SetLimitView(s, cap, z, zt, req, now, slot);
    SetLimitSound(s, cap, z, zt, req, now);
    SetLimitWithin(s, cap, z, zt, req, now);
    ViewParts(s', slot);
    if zt != 3 {
      PublishedAtMost(s', cap, slot, zt, req.Of(dir).value);
    }
  }

  lemma ViewParts(s: State, slot: Slot)
    ensures var v := ViewOf(s, slot);
            && v.stored == Look(s.Of(slot.dir), slot.zone) && v.timer == TimerAt(s, slot) && v.my == Look(s.my, slot)
            && (slot.zone != NO_ZONE ==> ReadMy(s, slot) == if v.stored.Some? then Some(v.stored.value.value) else None)
  {
  }

  lemma PublishedAtMost(s: State, cap: Capacity, slot: Slot, zt: u8, v: int)
    requires Derived(s) && WithinCapacity(s, cap) && zt != 3
    requires var l := Look(s.Of(slot.dir), slot.zone); l.Some? && l.value.zoneType == zt && l.value.value == v
    ensures var e := if slot.dir.Consumption? then s.attrs.effConsumption else s.attrs.effProduction;
            e.Some? && e.value <= v
  {
    var m := s.Of(slot.dir);
    var max := if slot.dir.Consumption? then cap.consumption else cap.production;
    assert Eligible(m, slot.zone);
    EffectiveMinimum(m, max);
  }

  /** A taken request without values withdraws both limits of its zone. */
  lemma DeactivationTakesEffect(s: State, cap: Capacity, z: ZoneId, zt: u8, req: Request, now: int, dir: Direction)
    requires Sound(s) && Takeable(s, cap, z, req) && req.consumption.None? && req.production.None?
    ensures var s', slot := SetLimit(s, cap, z, zt, req, now), Slot(z, dir);
            ReadMy(s', slot) == None && Look(s'.my, slot) == None && TimerAt(s', slot) == None
  {
    hide ClearZone, ViewOf;
    TakenExactly(s, cap, z, zt, req, now);
    ClearZoneView(s, z, now, Slot(z, dir));
    ViewParts(SetLimit(s, cap, z, zt, req, now), Slot(z, dir));
  }

  /** ClearLimit without a direction withdraws both limits of its zone, with a direction that one only, and
      with a direction it does not know none. */
  lemma ClearLimitTakesEffect(s: State, z: ZoneId, target: ClearTarget, now: int, dir: Direction)
    requires Sound(s) && z.name != ""
    ensures var s', slot := ClearLimit(s, z, target, now), Slot(z, dir);
            if target == Both || target == Only(dir)
            then ReadMy(s', slot) == None && Look(s'.my, slot) == None && TimerAt(s', slot) == None
            else ViewOf(s', slot) == Lapse(ViewOf(s, slot), now)
  {
    hide ClearLimit, ViewOf;
    ClearLimitView(s, z, target, now, Slot(z, dir));
    ViewParts(ClearLimit(s, z, target, now), Slot(z, dir));
  }

  /** A limit leaves the store by itself only strictly after its last instant. */
  lemma LapsesExactly(s: State, now: int, slot: Slot)
    ensures var l := ViewOf(s, slot).stored;
            l.Some? ==> (ViewOf(Resolve(s, now), slot).stored == None <==>
                           l.value.duration > 0 && now > l.value.setAt + l.value.duration)
  {
    hide ViewOf;
    ResolveView(s, now, slot);
  }
}
