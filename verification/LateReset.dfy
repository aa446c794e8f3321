/** A reset clears everything under its lock and sends its notices after releasing it: what a notice says
    when other events came first. */
module LateReset {
  import opened Wrappers
  import opened DurationManager
  import opened MultiZone
  import opened LimitSpec
  import opened LimitInvariants
  import opened LimitRuns
  import opened LimitOutcomes

  /** The system when a reset has released its lock. */
  ghost function Silent(x: System): System {
    x.(s := ResetSilently(x.s, x.now))
  }

  /** With its notices at once, it is the reset of the runs. */
  lemma SilentThenTold(x: System)
    ensures Silent(x).s.(my := Forget(x.s.my, x.s.zoneIndex.Keys)) == ResetAll(x.s, x.now)
  {
  }

  ghost function From(cap: Capacity, x: System, fs: seq<Event>): System {
    if fs == [] then x else Step(cap, From(cap, x, fs[..|fs| - 1]), fs[|fs| - 1])
  }

  /** The notice to one zone arrives. */
  ghost function AfterNotice(x: System, z: ZoneId): State {
    Notify(x.s, Note(z, To(None), To(None)))
  }

  /** The zone's SetLimit is accepted and carries a value for this direction. */
  predicate SetsSlot(cap: Capacity, x: System, e: Event, slot: Slot) {
    e.Sets? && e.zone == slot.zone && Judge(x.s, cap, e.zone, e.req).Accepted? && e.req.Of(slot.dir).Some?
  }

  /** The event removes the slot's limit: its zone clears it, its timer takes it, everything is reset, or
      its time has passed and something recomputes. */
  ghost predicate Drops(cap: Capacity, x: System, e: Event, slot: Slot) {
    var l := ViewOf(x.s, slot).stored;
    Tells(cap, x, e, slot) || (l.Some? && l.value.Expired(x.now) && Recomputes(cap, x, e))
  }

  /** Since "x" the zone has set the limit, and nothing has removed it after that. */
  ghost predicate SetAndHeld(cap: Capacity, x: System, fs: seq<Event>, slot: Slot) {
    fs != [] &&
    var init, e := fs[..|fs| - 1], fs[|fs| - 1];
    var y := From(cap, x, init);
    SetsSlot(cap, y, e, slot) || (SetAndHeld(cap, x, init, slot) && !Drops(cap, y, e, slot))
  }

  lemma SilentView(x: System, slot: Slot)
    requires Sound(x.s)
    ensures Sound(Silent(x).s) && ViewOf(Silent(x).s, slot) == ViewOf(x.s, slot).(stored := None, timer := None)
    ensures Silent(x).s.zoneIndex == x.s.zoneIndex && Silent(x).s.attrs.control != Override
  {
    ResetAllSound(x.s, x.now);
    SilentThenTold(x);
  }

  /** Room for the zones of the run before the reset and of what follows it. */
  lemma {:induction false} SoundFrom(cap: Capacity, es: seq<Event>, fs: seq<Event>)
    requires |ZonesOf(es + fs)| <= 256
    ensures var y := From(cap, Silent(Run(cap, es)), fs); Sound(y.s) && y.s.zoneIndex.Keys <= ZonesOf(es + fs)
    decreases |fs|
  {
    hide Step, Silent;
    if fs == [] {
      assert es + fs == es;
      SoundAlways(cap, es);
      SilentView(Run(cap, es), Slot(NO_ZONE, Consumption));
    } else {
      RoomFrom(cap, es, fs);
      var init, e := fs[..|fs| - 1], fs[|fs| - 1];
      var y := From(cap, Silent(Run(cap, es)), init);
      StepSound(cap, y, e);
      StepZones(cap, y, e);
      assert (es + fs)[..|es + fs| - 1] == es + init;
    }
  }

  lemma {:induction false} RoomFrom(cap: Capacity, es: seq<Event>, fs: seq<Event>)
    requires |ZonesOf(es + fs)| <= 256 && fs != []
    ensures var init := fs[..|fs| - 1];
            var y := From(cap, Silent(Run(cap, es)), init);
            |ZonesOf(es + init)| <= 256 && Sound(y.s) && HasRoom(y, fs[|fs| - 1]) &&
            y.s.zoneIndex.Keys <= ZonesOf(es + init)
    decreases |fs|, 0
  {
    hide Step, Silent;
    var init, e := fs[..|fs| - 1], fs[|fs| - 1];
    assert (es + fs)[..|es + fs| - 1] == es + init;
    SubsetSize(ZonesOf(es + init), ZonesOf(es + fs));
    SoundFrom(cap, es, init);
    var y := From(cap, Silent(Run(cap, es)), init);
    if e.Sets? && e.zone !in y.s.zoneIndex {
      SubsetSize(y.s.zoneIndex.Keys + {e.zone}, ZonesOf(es + fs));
    }
  }

  lemma ViewStepHeld(cap: Capacity, x: System, e: Event, slot: Slot)
    requires e.Expiry? && Due(x, e.key) ==> e.key.zone in x.s.indexZone
    requires ViewOf(x.s, slot).stored.Some? ==> slot.zone in x.s.zoneIndex
    ensures ViewStep(cap, x, e, slot).stored.Some? <==>
            SetsSlot(cap, x, e, slot) || (ViewOf(x.s, slot).stored.Some? && !Drops(cap, x, e, slot))
  {
    hide ViewOf, Due;
  }

  /** A limit is stored after the reset exactly when it was set since and is still held. */
  lemma {:induction false} HeldExactly(cap: Capacity, es: seq<Event>, fs: seq<Event>, slot: Slot)
    requires |ZonesOf(es + fs)| <= 256
    ensures var x := Silent(Run(cap, es));
            ViewOf(From(cap, x, fs).s, slot).stored.Some? <==> SetAndHeld(cap, x, fs, slot)
    decreases |fs|
  {
    hide Step, Silent, ViewOf, ViewStep, SetsSlot, Drops;
    var x := Silent(Run(cap, es));
    if fs == [] {
      assert es + fs == es;
      SoundAlways(cap, es);
      SilentView(Run(cap, es), slot);
    } else {
      RoomFrom(cap, es, fs);
      var init, e := fs[..|fs| - 1], fs[|fs| - 1];
      HeldExactly(cap, es, init, slot);
      var y := From(cap, x, init);
      StepView(cap, y, e, slot);
      if e.Expiry? && Due(y, e.key) {
        KeyHasSlot(y.s, e.key);
      }
      if ViewOf(y.s, slot).stored.Some? {
        StoredIsIndexed(y.s, slot);
      }
      ViewStepHeld(cap, y, e, slot);
    }
  }

  lemma {:induction false} SetSomewhere(cap: Capacity, x: System, fs: seq<Event>, slot: Slot) returns (k: nat)
    requires SetAndHeld(cap, x, fs, slot)
    ensures k < |fs| && SetsSlot(cap, From(cap, x, fs[..k]), fs[k], slot)
  {
    hide SetsSlot, Drops, From;
    var init := fs[..|fs| - 1];
    if SetsSlot(cap, From(cap, x, init), fs[|fs| - 1], slot) {
      k := |fs| - 1;
    } else {
      k := SetSomewhere(cap, x, init, slot);
      assert init[..k] == fs[..k];
    }
  }

  /** For every run before the reset and every continuation before the notice: the notice leaves its zone
      right about a direction exactly unless the zone has set that limit since the reset and still holds it;
      so only if one of the events in between was an accepted SetLimit of the zone. */
  lemma LateNoticeExactly(cap: Capacity, es: seq<Event>, fs: seq<Event>, slot: Slot)
    requires |ZonesOf(es + fs)| <= 256
    ensures var x := Silent(Run(cap, es));
            var y := From(cap, x, fs);
            && (Agrees(AfterNotice(y, slot.zone), slot) <==> !SetAndHeld(cap, x, fs, slot))
            && (!Agrees(AfterNotice(y, slot.zone), slot) ==>
                  exists k :: 0 <= k < |fs| && SetsSlot(cap, From(cap, x, fs[..k]), fs[k], slot))
  {
    hide Silent, From, ViewOf, SetAndHeld, SetsSlot, Agrees;
    var x := Silent(Run(cap, es));
    var y := From(cap, x, fs);
    SoundFrom(cap, es, fs);
    HeldExactly(cap, es, fs, slot);
    NoticeView(y, slot);
    if SetAndHeld(cap, x, fs, slot) {
      var k := SetSomewhere(cap, x, fs, slot);
      assert SetsSlot(cap, From(cap, x, fs[..k]), fs[k], slot);
    }
  }

  lemma NoticeView(y: System, slot: Slot)
    requires Sound(y.s)
    ensures ViewOf(AfterNotice(y, slot.zone), slot) == ViewOf(y.s, slot).(my := None)
    ensures Agrees(AfterNotice(y, slot.zone), slot) <==> ViewOf(y.s, slot).stored.None?
  {
    NotifyView(y.s, Note(slot.zone, To(None), To(None)), slot);
    AgreesView(AfterNotice(y, slot.zone), slot);
  }

  /** The notice is wrong after every run in which one acceptable SetLimit comes between. */
  lemma LateNoticeWrong(cap: Capacity, es: seq<Event>, z: ZoneId, zt: u8, req: Request, dir: Direction)
    requires z != NO_ZONE && |ZonesOf(es + [Sets(z, zt, req)])| <= 256 && req.Of(dir).Some?
    requires !cap.Exceeded(req.consumption, cap.consumption) && !cap.Exceeded(req.production, cap.production)
    requires req.consumption.Some? ==> req.consumption.value >= 0
    requires req.production.Some? ==> req.production.value >= 0
    ensures var y := From(cap, Silent(Run(cap, es)), [Sets(z, zt, req)]);
            && ReadMy(AfterNotice(y, z), Slot(z, dir)) == req.Of(dir)
            && Look(AfterNotice(y, z).my, Slot(z, dir)) == None
  {
    hide Step, ViewOf, ViewStep, Silent, AfterNotice, ReadMy, Look;
    var e, slot := Sets(z, zt, req), Slot(z, dir);
    var x := Silent(Run(cap, es));
    RoomFrom(cap, es, [e]);
    assert [e][..0] == [] && es + [] == es;
    SoundFrom(cap, es, []);
    SoundAlways(cap, es);
    SilentView(Run(cap, es), slot);
    StepSound(cap, x, e);
    StepView(cap, x, e, slot);
    AcceptedView(cap, x, e, dir);
    var y := From(cap, x, [e]);
    assert From(cap, x, []) == x && y == Step(cap, x, e);
    NoticeView(y, slot);
    ReadsView(AfterNotice(y, z), slot);
  }

  lemma AcceptedView(cap: Capacity, x: System, e: Event, dir: Direction)
    requires e.Sets? && e.zone != NO_ZONE && e.req.Of(dir).Some? && x.s.attrs.control != Override
    requires !cap.Exceeded(e.req.consumption, cap.consumption) && !cap.Exceeded(e.req.production, cap.production)
    requires e.req.consumption.Some? ==> e.req.consumption.value >= 0
    requires e.req.production.Some? ==> e.req.production.value >= 0
    ensures var l := ViewStep(cap, x, e, Slot(e.zone, dir)).stored;
            l.Some? && Some(l.value.value) == e.req.Of(dir)
  {
  }

  lemma ReadsView(s: State, slot: Slot)
    requires slot.zone != NO_ZONE
    ensures var v := ViewOf(s, slot);
            && Look(s.my, slot) == v.my
            && ReadMy(s, slot) == if v.stored.Some? then Some(v.stored.value.value) else None
  {
  }

  /** A zone left wrong by a late notice becomes right exactly when it is told something, or when its limit
      is past its time and something recomputes. */
  lemma WrongUntil(cap: Capacity, x: System, e: Event, slot: Slot)
    requires Sound(x.s) && HasRoom(x, e)
    requires ViewOf(x.s, slot).stored.Some? && ViewOf(x.s, slot).my.None?
    ensures Agrees(Step(cap, x, e).s, slot) <==>
            Tells(cap, x, e, slot) ||
            (ViewOf(x.s, slot).stored.value.Expired(x.now) && Recomputes(cap, x, e))
  {
    hide Step, ViewOf, ViewStep, Agrees, Tells, Recomputes;
    StepSound(cap, x, e);
    StepView(cap, x, e, slot);
    AgreesView(Step(cap, x, e).s, slot);
    StoredIsIndexed(x.s, slot);
    if e.Expiry? && Due(x, e.key) {
      KeyHasSlot(x.s, e.key);
    }
    ViewStepWrong(cap, x, e, slot);
  }

  lemma ViewStepWrong(cap: Capacity, x: System, e: Event, slot: Slot)
    requires ViewOf(x.s, slot).stored.Some? && ViewOf(x.s, slot).my.None? && slot.zone in x.s.zoneIndex
    requires e.Expiry? && Due(x, e.key) ==> e.key.zone in x.s.indexZone
    ensures var v' := ViewStep(cap, x, e, slot);
            v'.my == (if v'.stored.Some? then Some(v'.stored.value.value) else None) <==>
            Tells(cap, x, e, slot) ||
            (ViewOf(x.s, slot).stored.value.Expired(x.now) && Recomputes(cap, x, e))
  {
    hide ViewOf, Due;
  }
}
