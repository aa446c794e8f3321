/** Whole runs of the discovery manager, with registrations failing at any time. */
module DiscoveryRuns {
  import opened Wrappers
  import opened DiscoveryTypes
  import opened DiscoverySpec

  datatype Event =
    | SetsInfo(info: CommissionableInfo)
    | Enters(ok: bool)
    | Exits
    | WindowCloses
    | SetsWindow(duration: int)
    | Wait(d: nat)
    | AddsZone(zone: OperationalInfo, ok: bool)
    | UpdatesZone(zone: OperationalInfo)
    | RemovesZone(id: string)
    | AddsCommissioner(commissioner: CommissionerInfo, ok: bool)
    | UpdatesCommissioner(commissioner: CommissionerInfo)
    | RemovesCommissioner(id: string)
    | Announces(request: PairingRequestInfo, ok: bool)
    | Withdraws(discriminator: u16)
    | StopsAll

  datatype System = System(s: State, now: int)

  /** The window timer's function runs at its deadline or later; otherwise "WindowCloses" is no event. */
  function Step(x: System, e: Event): System {
    match e
    case SetsInfo(info) => x.(s := x.s.(info := Some(info)))
    case Enters(ok) => x.(s := EnterCommissioning(x.s, x.now, ok).s)
    case Exits => x.(s := ExitCommissioning(x.s, true))
    case WindowCloses =>
      if x.s.timer.Some? && x.now >= x.s.timer.value then x.(s := ExitCommissioning(x.s, false)) else x
    case SetsWindow(d) => x.(s := SetWindow(x.s, d, x.now))
    case Wait(d) => x.(now := x.now + d)
    case AddsZone(info, ok) => x.(s := AddZone(x.s, info, ok).s)
    case UpdatesZone(info) => x.(s := UpdateZone(x.s, info).s)
    case RemovesZone(z) => x.(s := RemoveZone(x.s, z).s)
    case AddsCommissioner(info, ok) => x.(s := AddCommissioner(x.s, info, ok).s)
    case UpdatesCommissioner(info) => x.(s := UpdateCommissionerZone(x.s, info).s)
    case RemovesCommissioner(z) => x.(s := RemoveCommissioner(x.s, z).s)
    case Announces(info, ok) => x.(s := AnnouncePairing(x.s, info, ok).s)
    case Withdraws(d) => x.(s := WithdrawPairing(x.s, d).s)
    case StopsAll => x.(s := StopEverything(x.s))
  }

  function Run(quiet: bool, es: seq<Event>): System {
    if es == [] then System(Initial(quiet), 0) else Step(Run(quiet, es[..|es| - 1]), es[|es| - 1])
  }

  // ---- Discovery state, zones, window and registrations ----

  ghost predicate ZonesFit(s: State) {
    && (s.state == Operational || s.state == OperationalCommissioning ==> s.zones != map[])
    && (s.state == Uncommissioned ==> s.zones == map[])
  }

  /** The device is in a commissioning state exactly while the window timer is set and, on the air,
      exactly while the commissionable service is registered. */
  predicate WindowFits(s: State) {
    && (Commissioning(s.state) <==> s.timer.Some?)
    && (!s.quiet ==> (Commissioning(s.state) <==> s.regs.commissionable.Some?))
  }

  /** What the TXT records say: everything but port and host. */
  function ZoneText(info: OperationalInfo): OperationalInfo {
    info.(port := 0, host := "")
  }

  function CommissionerText(info: CommissionerInfo): CommissionerInfo {
    info.(port := 0, host := "")
  }

  /** What is registered is known, with the same text; a quiet advertiser registers nothing. */
  ghost predicate Fits<K, V>(quiet: bool, registered: map<K, V>, known: map<K, V>, text: V -> V) {
    if quiet then registered == map[]
    else forall k :: k in registered ==> k in known && text(registered[k]) == text(known[k])
  }

  /** Whatever is registered is known to the manager and publishes what the manager holds; pairing
      requests agree completely. A quiet advertiser registers nothing. */
  ghost predicate RegistrationsFit(s: State) {
    && Fits(s.quiet, s.regs.operational, s.zones, ZoneText)
    && Fits(s.quiet, s.regs.commissioner, s.commissioners, CommissionerText)
    && (if s.quiet then s.regs.pairing == map[] else s.regs.pairing == s.pairings)
  }

  ghost predicate Inv(s: State) {
    ZonesFit(s) && WindowFits(s) && RegistrationsFit(s)
  }

  lemma FitsChanges<K, V>(quiet: bool, r: map<K, V>, known: map<K, V>, text: V -> V, k: K, p: V, v: V)
    requires Fits(quiet, r, known, text) && text(p) == text(v)
    ensures Fits(quiet, if quiet then r else r[k := p], known[k := v], text)
    ensures Fits(quiet, if quiet then r else r - {k}, known - {k}, text)
    ensures Fits(quiet, if quiet then r else r - {k}, known, text)
  {
  }

  lemma NothingFits<K, V>(quiet: bool, r: map<K, V>, known: map<K, V>, text: V -> V)
    requires Fits(quiet, r, known, text)
    ensures Fits(quiet, if quiet then r else map[], map[], text)
  {
  }

  /** What an update leaves registered: the new text at the old port and host. */
  function RepublishedZone(s: State, info: OperationalInfo): OperationalInfo {
    if info.zoneId in s.regs.operational
    then info.(port := s.regs.operational[info.zoneId].port, host := s.regs.operational[info.zoneId].host)
    else info
  }

  function RepublishedCommissioner(s: State, info: CommissionerInfo): CommissionerInfo {
    if info.zoneId in s.regs.commissioner
    then info.(port := s.regs.commissioner[info.zoneId].port, host := s.regs.commissioner[info.zoneId].host)
    else info
  }

  lemma EnterInv(s: State, now: int, ok: bool)
    requires Inv(s)
    ensures Inv(EnterCommissioning(s, now, ok).s)
  {
    hide Fits;
  }

  lemma ExitInv(s: State, byUser: bool)
    requires Inv(s)
    ensures Inv(ExitCommissioning(s, byUser))
  {
    hide Fits;
  }

  lemma AddZoneInv(s: State, info: OperationalInfo, ok: bool)
    requires Inv(s)
    ensures Inv(AddZone(s, info, ok).s)
  {
    hide Fits;
    FitsChanges(s.quiet, s.regs.operational, s.zones, ZoneText, info.zoneId, info, info);
    if s.state == Uncommissioned {
      assert |s.zones[info.zoneId := info]| == |s.zones| + 1 == 1;
    }
  }

  lemma UpdateZoneInv(s: State, info: OperationalInfo)
    requires Inv(s)
    ensures Inv(UpdateZone(s, info).s)
  {
    hide Fits;
    FitsChanges(s.quiet, s.regs.operational, s.zones, ZoneText, info.zoneId, RepublishedZone(s, info), info);
  }

  lemma RemoveZoneInv(s: State, z: string)
    requires Inv(s)
    ensures Inv(RemoveZone(s, z).s)
  {
    hide Fits;
    if z in s.zones {
      FitsChanges(s.quiet, s.regs.operational, s.zones, ZoneText, z, s.zones[z], s.zones[z]);
    }
  }

  lemma AddCommissionerInv(s: State, info: CommissionerInfo, ok: bool)
    requires Inv(s)
    ensures Inv(AddCommissioner(s, info, ok).s)
  {
    hide Fits;
    FitsChanges(s.quiet, s.regs.commissioner, s.commissioners, CommissionerText, info.zoneId, info, info);
  }

  lemma UpdateCommissionerInv(s: State, info: CommissionerInfo)
    requires Inv(s)
    ensures Inv(UpdateCommissionerZone(s, info).s)
  {
    hide Fits;
    FitsChanges(s.quiet, s.regs.commissioner, s.commissioners, CommissionerText, info.zoneId,
                RepublishedCommissioner(s, info), info);
  }

  lemma RemoveCommissionerInv(s: State, z: string)
    requires Inv(s)
    ensures Inv(RemoveCommissioner(s, z).s)
  {
    hide Fits;
    if z in s.commissioners {
      FitsChanges(s.quiet, s.regs.commissioner, s.commissioners, CommissionerText, z, s.commissioners[z],
                  s.commissioners[z]);
    }
  }

  lemma AnnounceInv(s: State, info: PairingRequestInfo, ok: bool)
    requires Inv(s)
    ensures Inv(AnnouncePairing(s, info, ok).s)
  {
    hide Fits, Validate;
    assert info.discriminator !in s.pairings ==> s.pairings - {info.discriminator} == s.pairings;
  }

  lemma WithdrawInv(s: State, d: u16)
    requires Inv(s)
    ensures Inv(WithdrawPairing(s, d).s)
  {
    hide Fits;
  }

  lemma StopInv(s: State)
    requires Inv(s)
    ensures Inv(StopEverything(s))
  {
    hide Fits;
    NothingFits(s.quiet, s.regs.operational, s.zones, ZoneText);
    NothingFits(s.quiet, s.regs.commissioner, s.commissioners, CommissionerText);
  }

  predicate AboutZones(e: Event) {
    e.AddsZone? || e.UpdatesZone? || e.RemovesZone?
  }

  predicate AboutCommissioners(e: Event) {
    e.AddsCommissioner? || e.UpdatesCommissioner? || e.RemovesCommissioner?
  }

  predicate AboutPairings(e: Event) {
    e.Announces? || e.Withdraws?
  }

  /** Only the zones, their registrations and the discovery state differ. */
  predicate ZoneFrame(s: State, s': State) {
    s' == s.(regs := s.regs.(operational := s'.regs.operational), zones := s'.zones, state := s'.state,
             changes := s'.changes)
  }

  predicate CommissionerFrame(s: State, s': State) {
    s' == s.(regs := s.regs.(commissioner := s'.regs.commissioner), commissioners := s'.commissioners)
  }

  predicate PairingFrame(s: State, s': State) {
    s' == s.(regs := s.regs.(pairing := s'.regs.pairing), pairings := s'.pairings)
  }

  lemma AddZoneFrame(s: State, info: OperationalInfo, ok: bool)
    ensures ZoneFrame(s, AddZone(s, info, ok).s)
  {
  }

  lemma UpdateZoneFrame(s: State, info: OperationalInfo)
    ensures ZoneFrame(s, UpdateZone(s, info).s)
  {
  }

  lemma RemoveZoneFrame(s: State, z: string)
    ensures ZoneFrame(s, RemoveZone(s, z).s)
  {
  }

  lemma CommissionerFrames(s: State, info: CommissionerInfo, ok: bool)
    ensures CommissionerFrame(s, AddCommissioner(s, info, ok).s)
    ensures CommissionerFrame(s, UpdateCommissionerZone(s, info).s)
  {
  }

  lemma RemoveCommissionerFrame(s: State, z: string)
    ensures CommissionerFrame(s, RemoveCommissioner(s, z).s)
  {
  }

  lemma PairingFrames(s: State, info: PairingRequestInfo, ok: bool, d: u16)
    ensures PairingFrame(s, AnnouncePairing(s, info, ok).s)
    ensures PairingFrame(s, WithdrawPairing(s, d).s)
  {
    hide Validate;
  }

  /** Zones, commissioners, pairing requests and their registrations are the same. */
  predicate WindowFrame(s: State, s': State) {
    s' == s.(regs := s.regs.(commissionable := s'.regs.commissionable), state := s'.state, info := s'.info,
             timer := s'.timer, window := s'.window, changes := s'.changes, timeouts := s'.timeouts)
  }

  lemma EnterFrame(s: State, now: int, ok: bool)
    ensures WindowFrame(s, EnterCommissioning(s, now, ok).s)
  {
    hide Window;
  }

  lemma ExitFrame(s: State, byUser: bool)
    ensures WindowFrame(s, ExitCommissioning(s, byUser))
  {
  }

  /** An event about one kind of registration touches nothing else. */
  lemma StepFrame(x: System, e: Event)
    ensures AboutZones(e) ==> ZoneFrame(x.s, Step(x, e).s)
    ensures AboutCommissioners(e) ==> CommissionerFrame(x.s, Step(x, e).s)
    ensures AboutPairings(e) ==> PairingFrame(x.s, Step(x, e).s)
    ensures !AboutRegistrations(e) && !e.StopsAll? ==> WindowFrame(x.s, Step(x, e).s)
  {
    hide AddZone, UpdateZone, RemoveZone, AddCommissioner, UpdateCommissionerZone, RemoveCommissioner, AnnouncePairing,
         WithdrawPairing, EnterCommissioning, ExitCommissioning, StopEverything, ZoneFrame,
         CommissionerFrame, PairingFrame;
    match e {
      case AddsZone(info, ok) => AddZoneFrame(x.s, info, ok);
      case UpdatesZone(info) => UpdateZoneFrame(x.s, info);
      case RemovesZone(z) => RemoveZoneFrame(x.s, z);
      case AddsCommissioner(info, ok) => CommissionerFrames(x.s, info, ok);
      case UpdatesCommissioner(info) => CommissionerFrames(x.s, info, true);
      case RemovesCommissioner(z) => RemoveCommissionerFrame(x.s, z);
      case Announces(info, ok) => PairingFrames(x.s, info, ok, 0);
      case Withdraws(d) => PairingFrames(x.s, PairingRequestInfo(d, "", "", ""), true, d);
      case Enters(ok) => EnterFrame(x.s, x.now, ok);
      case Exits => ExitFrame(x.s, true);
      case WindowCloses => ExitFrame(x.s, false);
      case _ =>
    }
  }

  predicate AboutRegistrations(e: Event) {
    AboutZones(e) || AboutCommissioners(e) || AboutPairings(e)
  }

  lemma KeepsQuiet(x: System, e: Event)
    ensures Step(x, e).s.quiet == x.s.quiet
  {
    if !e.StopsAll? {
      hide Step;
      StepFrame(x, e);
    }
  }

  lemma StepInv(x: System, e: Event)
    requires Inv(x.s)
    ensures Inv(Step(x, e).s)
  {
    match e {
      case SetsInfo(info) =>
      case Enters(ok) => EnterInv(x.s, x.now, ok);
      case Exits => ExitInv(x.s, true);
      case WindowCloses => ExitInv(x.s, false);
      case SetsWindow(d) =>
      case Wait(d) =>
      case AddsZone(info, ok) => AddZoneInv(x.s, info, ok);
      case UpdatesZone(info) => UpdateZoneInv(x.s, info);
      case RemovesZone(z) => RemoveZoneInv(x.s, z);
      case AddsCommissioner(info, ok) => AddCommissionerInv(x.s, info, ok);
      case UpdatesCommissioner(info) => UpdateCommissionerInv(x.s, info);
      case RemovesCommissioner(z) => RemoveCommissionerInv(x.s, z);
      case Announces(info, ok) => AnnounceInv(x.s, info, ok);
      case Withdraws(d) => WithdrawInv(x.s, d);
      case StopsAll => StopInv(x.s);
    }
  }

  lemma {:induction false} DiscoveryAlways(quiet: bool, es: seq<Event>)
    ensures var s := Run(quiet, es).s; Inv(s) && s.quiet == quiet
  {
    hide Step, Inv;
    if es != [] {
      DiscoveryAlways(quiet, es[..|es| - 1]);
      KeepsQuiet(Run(quiet, es[..|es| - 1]), es[|es| - 1]);
      StepInv(Run(quiet, es[..|es| - 1]), es[|es| - 1]);
    } else {
      InitialInv(quiet);
    }
  }

  lemma InitialInv(quiet: bool)
    ensures Inv(Initial(quiet))
  {
  }

  // ---- Full agreement, until a re-registration fails ----

  ghost predicate SameTexts<K, V>(registered: map<K, V>, known: map<K, V>, text: V -> V) {
    registered.Keys == known.Keys && forall k :: k in registered ==> text(registered[k]) == text(known[k])
  }

  ghost predicate FullyRegistered(s: State) {
    && SameTexts(s.regs.operational, s.zones, ZoneText)
    && SameTexts(s.regs.commissioner, s.commissioners, CommissionerText)
    && s.regs.pairing == s.pairings
  }

  /** The one way to lose agreement: a zone that is already known is added again and the library
      refuses the new registration, after the old one is gone. */
  predicate LosesRegistration(s: State, e: Event) {
    match e
    case AddsZone(info, ok) => !ok && info.deviceId != "" && info.zoneId != "" && info.zoneId in s.zones
    case AddsCommissioner(info, ok) => !ok && info.zoneName != "" && info.zoneId != "" && info.zoneId in s.commissioners
    case _ => false
  }

  lemma AgreementLostExactly(x: System, e: Event)
    requires !x.s.quiet && FullyRegistered(x.s)
    ensures FullyRegistered(Step(x, e).s) <==> !LosesRegistration(x.s, e)
  {
    if e.AddsZone? {
      ZoneAgreement(x.s, e.zone, e.ok);
    } else if e.AddsCommissioner? {
      CommissionerAgreement(x.s, e.commissioner, e.ok);
    } else {
      OtherAgreement(x, e);
    }
  }

  lemma TextsChange<K, V>(r: map<K, V>, known: map<K, V>, text: V -> V, k: K, p: V, v: V)
    requires SameTexts(r, known, text) && text(p) == text(v)
    ensures SameTexts(r[k := p], known[k := v], text)
    ensures SameTexts(r - {k}, known - {k}, text)
    ensures SameTexts(r - {k}, known, text) <==> k !in known
    ensures k in r <==> k in known
  {
    if k in known {
      assert k !in (r - {k}).Keys;
    }
  }

  lemma ZoneAgreement(s: State, info: OperationalInfo, ok: bool)
    requires !s.quiet && FullyRegistered(s)
    ensures FullyRegistered(AddZone(s, info, ok).s) <==> !LosesRegistration(s, AddsZone(info, ok))
  {
    hide SameTexts, MoveTo;
    TextsChange(s.regs.operational, s.zones, ZoneText, info.zoneId, info, info);
    if ok {
      MoveAgreement(s.(regs := s.regs.(operational := s.regs.operational[info.zoneId := info]),
                       zones := s.zones[info.zoneId := info]),
                    Operational);
    }
  }

  lemma MoveAgreement(s: State, d: DiscoveryState)
    ensures FullyRegistered(MoveTo(s, d)) == FullyRegistered(s)
  {
    hide SameTexts;
  }

  lemma ZoneUpdateAgreement(s: State, info: OperationalInfo)
    requires !s.quiet && FullyRegistered(s)
    ensures FullyRegistered(UpdateZone(s, info).s)
  {
    hide SameTexts;
    TextsChange(s.regs.operational, s.zones, ZoneText, info.zoneId, RepublishedZone(s, info), info);
  }

  lemma ZoneRemovalAgreement(s: State, z: string)
    requires !s.quiet && FullyRegistered(s)
    ensures FullyRegistered(RemoveZone(s, z).s)
  {
    hide SameTexts;
    if z in s.zones {
      TextsChange(s.regs.operational, s.zones, ZoneText, z, s.zones[z], s.zones[z]);
    }
  }

  lemma CommissionerAgreement(s: State, info: CommissionerInfo, ok: bool)
    requires !s.quiet && FullyRegistered(s)
    ensures FullyRegistered(AddCommissioner(s, info, ok).s) <==> !LosesRegistration(s, AddsCommissioner(info, ok))
    ensures FullyRegistered(UpdateCommissionerZone(s, info).s)
  {
    hide SameTexts;
    TextsChange(s.regs.commissioner, s.commissioners, CommissionerText, info.zoneId, info, info);
    TextsChange(s.regs.commissioner, s.commissioners, CommissionerText, info.zoneId, RepublishedCommissioner(s, info),
                info);
  }

  lemma CommissionerRemovalAgreement(s: State, z: string)
    requires !s.quiet && FullyRegistered(s)
    ensures FullyRegistered(RemoveCommissioner(s, z).s)
  {
    hide SameTexts;
    if z in s.commissioners {
      TextsChange(s.regs.commissioner, s.commissioners, CommissionerText, z, s.commissioners[z], s.commissioners[z]);
    }
  }

  lemma PairingAgreement(s: State, info: PairingRequestInfo, ok: bool, d: u16)
    requires !s.quiet && FullyRegistered(s)
    ensures FullyRegistered(AnnouncePairing(s, info, ok).s)
    ensures FullyRegistered(WithdrawPairing(s, d).s)
  {
    hide Validate, SameTexts;
    assert info.discriminator !in s.pairings ==> s.pairings - {info.discriminator} == s.pairings;
  }

  lemma StopAgreement(s: State)
    requires !s.quiet
    ensures FullyRegistered(StopEverything(s))
  {
  }

  lemma FrameAgreement(s: State, s': State)
    requires WindowFrame(s, s') && FullyRegistered(s)
    ensures FullyRegistered(s')
  {
    hide SameTexts;
  }

  lemma OtherAgreement(x: System, e: Event)
    requires !x.s.quiet && FullyRegistered(x.s) && !e.AddsZone? && !e.AddsCommissioner?
    ensures FullyRegistered(Step(x, e).s)
  {
    hide FullyRegistered, UpdateZone, RemoveZone, UpdateCommissionerZone, RemoveCommissioner, AnnouncePairing,
         WithdrawPairing, StopEverything;
    match e {
      case Announces(info, ok) => PairingAgreement(x.s, info, ok, 0);
      case Withdraws(d) => PairingAgreement(x.s, PairingRequestInfo(d, "", "", ""), true, d);
      case RemovesZone(z) => ZoneRemovalAgreement(x.s, z);
      case RemovesCommissioner(z) => CommissionerRemovalAgreement(x.s, z);
      case UpdatesZone(info) => ZoneUpdateAgreement(x.s, info);
      case UpdatesCommissioner(info) => CommissionerAgreement(x.s, info, true);
      case StopsAll => StopAgreement(x.s);
      case _ =>
        hide Step;
        StepFrame(x, e);
        FrameAgreement(x.s, Step(x, e).s);
    }
  }

  /** No event of the run re-registers a known zone in vain. */
  ghost predicate NothingLost(es: seq<Event>) {
    forall i :: 0 <= i < |es| ==> !LosesRegistration(Run(false, es[..i]).s, es[i])
  }

  /** With an advertiser that registers, the registrations are exactly the manager's zones and
      requests in every run that never re-registers a known zone in vain. */
  lemma {:induction false} AgreementAlways(es: seq<Event>)
    requires NothingLost(es)
    ensures FullyRegistered(Run(false, es).s)
  {
    hide Step, FullyRegistered, LosesRegistration;
    if es != [] {
      var init := es[..|es| - 1];
      forall i | 0 <= i < |init|
        ensures !LosesRegistration(Run(false, init[..i]).s, init[i])
      {
        assert init[..i] == es[..i];
      }
      AgreementAlways(init);
      DiscoveryAlways(false, init);
      AgreementLostExactly(Run(false, init), es[|es| - 1]);
    } else {
      InitiallyRegistered();
    }
  }

  lemma InitiallyRegistered()
    ensures FullyRegistered(Initial(false))
  {
  }

  /** The manager keeps the zone but the advertiser has lost it. */
  predicate Stranded(s: State, z: string) {
    !s.quiet && z in s.zones && z !in s.regs.operational
  }

  /** A stranded zone can be neither removed nor updated. */
  lemma StrandedCannotLeave(s: State, info: OperationalInfo)
    requires Stranded(s, info.zoneId)
    ensures RemoveZone(s, info.zoneId) == Outcome(s, Some(NotFound))
    ensures UpdateZone(s, info) == Outcome(s, Some(NotFound))
  {
  }

  predicate Rescues(z: string, e: Event) {
    e.StopsAll? || (e.AddsZone? && e.ok && e.zone.zoneId == z && e.zone.deviceId != "" && z != "")
  }

  /** It stays stranded until it is added again successfully or everything is stopped. */
  lemma StrandedExactlyUntil(x: System, z: string, e: Event)
    requires Stranded(x.s, z)
    ensures Stranded(Step(x, e).s, z) <==> !Rescues(z, e)
  {
    hide Validate, Window, EnterCommissioning, ExitCommissioning, SetWindow;
    if !AboutZones(e) {
      hide Step;
      OtherZones(x, e);
    }
  }

  lemma OtherZones(x: System, e: Event)
    requires !AboutZones(e)
    ensures var s, s' := x.s, Step(x, e).s;
            if e.StopsAll? then s'.zones == map[]
            else s'.quiet == s.quiet && s'.zones == s.zones && s'.regs.operational == s.regs.operational
  {
    if !e.StopsAll? {
      hide Step;
      StepFrame(x, e);
    }
  }

  lemma OtherCommissioners(x: System, e: Event)
    requires !AboutCommissioners(e)
    ensures var s, s' := x.s, Step(x, e).s;
            if e.StopsAll? then s'.commissioners == map[]
            else s'.quiet == s.quiet && s'.commissioners == s.commissioners &&
                 s'.regs.commissioner == s.regs.commissioner
  {
    if !e.StopsAll? {
      hide Step;
      StepFrame(x, e);
    }
  }

  /** The same happens to commissioner zones. */
  predicate StrandedCommissioner(s: State, z: string) {
    !s.quiet && z in s.commissioners && z !in s.regs.commissioner
  }

  lemma StrandedCommissionerCannotLeave(s: State, info: CommissionerInfo)
    requires StrandedCommissioner(s, info.zoneId)
    ensures RemoveCommissioner(s, info.zoneId) == Outcome(s, Some(NotFound))
    ensures UpdateCommissionerZone(s, info) == Outcome(s, Some(NotFound))
  {
  }

  predicate RescuesCommissioner(z: string, e: Event) {
    || e.StopsAll?
    || (e.AddsCommissioner? && e.ok && e.commissioner.zoneId == z && e.commissioner.zoneName != "" && z != "")
  }

  lemma StrandedCommissionerExactlyUntil(x: System, z: string, e: Event)
    requires StrandedCommissioner(x.s, z)
    ensures StrandedCommissioner(Step(x, e).s, z) <==> !RescuesCommissioner(z, e)
  {
    hide Validate, Window, EnterCommissioning, ExitCommissioning, SetWindow;
    if !AboutCommissioners(e) {
      hide Step;
      OtherCommissioners(x, e);
    }
  }

  // ---- Reported state changes ----

  function Follow(d: DiscoveryState, changes: seq<Change>): Option<DiscoveryState> {
    if changes == [] then Some(d)
    else
      var c := changes[|changes| - 1];
      if Follow(d, changes[..|changes| - 1]) == Some(c.from) && c.from != c.to then Some(c.to) else None
  }

  lemma FollowAppend(d: DiscoveryState, changes: seq<Change>, c: Change)
    requires Follow(d, changes) == Some(c.from) && c.from != c.to
    ensures Follow(d, changes + [c]) == Some(c.to)
  {
    assert (changes + [c])[..|changes|] == changes;
  }

  predicate Silent(e: Event) {
    !e.Enters? && !e.Exits? && !e.WindowCloses? && !e.AddsZone? && !e.RemovesZone? && !e.StopsAll?
  }

  lemma SilentStep(x: System, e: Event)
    requires Silent(e)
    ensures Step(x, e).s.changes == x.s.changes && Step(x, e).s.state == x.s.state
  {
  }

  /** Every change of state is reported, and nothing else is. */
  lemma StepChanges(x: System, e: Event)
    ensures var s, s' := x.s, Step(x, e).s;
            s'.changes == if s'.state == s.state then s.changes else s.changes + [Change(s.state, s'.state)]
  {
    if Silent(e) {
      SilentStep(x, e);
    } else {
      hide SetWindow, UpdateZone, AddCommissioner, UpdateCommissionerZone, RemoveCommissioner, AnnouncePairing,
           WithdrawPairing, Window;
    }
  }

  /** The reported changes form one path from UNREGISTERED to the current state, without empty steps. */
  lemma {:induction false} ChangesConnect(quiet: bool, es: seq<Event>)
    ensures var s := Run(quiet, es).s; Follow(Unregistered, s.changes) == Some(s.state)
  {
    hide Step;
    if es != [] {
      var x := Run(quiet, es[..|es| - 1]);
      ChangesConnect(quiet, es[..|es| - 1]);
      StepChanges(x, es[|es| - 1]);
      var s' := Run(quiet, es).s;
      if s'.state != x.s.state {
        FollowAppend(Unregistered, x.s.changes, Change(x.s.state, s'.state));
      }
    }
  }

  // ---- What the commissionable service publishes ----

  lemma CommissionableStep(x: System, e: Event)
    requires Step(x, e).s.regs.commissionable.Some?
    ensures var r := Step(x, e).s.regs.commissionable;
            || (e.Enters? && !Commissioning(x.s.state) && r == x.s.info)
            || (r == x.s.regs.commissionable && !e.Exits? && !e.StopsAll?)
            || x.s.quiet
  {
    if AboutRegistrations(e) {
      hide Step;
      StepFrame(x, e);
    }
  }

  /** A live commissionable registration publishes the information the manager held when the window was
      opened, and has done so ever since: later information does not reach it while the window is open. */
  lemma {:induction false} CommissionableSince(es: seq<Event>) returns (k: nat)
    requires Run(false, es).s.regs.commissionable.Some?
    ensures k < |es| && es[k].Enters? && !Commissioning(Run(false, es[..k]).s.state)
    ensures Run(false, es).s.regs.commissionable == Run(false, es[..k]).s.info
    ensures forall j :: k < j <= |es| ==>
              Run(false, es[..j]).s.regs.commissionable == Run(false, es).s.regs.commissionable
  {
    hide Step;
    var init, e := es[..|es| - 1], es[|es| - 1];
    var x := Run(false, init);
    DiscoveryAlways(false, init);
    CommissionableStep(x, e);
    if e.Enters? && !Commissioning(x.s.state) && Run(false, es).s.regs.commissionable == x.s.info {
      k := |es| - 1;
    } else {
      k := CommissionableSince(init);
      assert init[..k] == es[..k];
      forall j | k < j <= |es|
        ensures Run(false, es[..j]).s.regs.commissionable == Run(false, es).s.regs.commissionable
      {
        if j < |es| {
          assert init[..j] == es[..j];
        } else {
          assert es[..j] == es;
        }
      }
    }
    assert es[..|es|] == es;
  }

  /** New information given to the manager during an open window is published exactly when it is the
      information already published: neither setting it nor opening the window again replaces it. */
  lemma NewInfoPublishedIff(x: System, info: CommissionableInfo, ok: bool)
    requires Inv(x.s) && !x.s.quiet && Commissioning(x.s.state)
    ensures var y := Step(Step(x, SetsInfo(info)), Enters(ok));
            y.s.info == Some(info) && (y.s.regs.commissionable == y.s.info <==> x.s.regs.commissionable == Some(info))
  {
  }

  // ---- The window ----

  /** Setting the duration of an open window gives it the deadline that re-opening it would give exactly
      for positive durations: only opening falls back to the default. */
  lemma WindowDeadline(s: State, d: int, now: int)
    requires Commissioning(s.state) && s.timer.Some? && s.info.Some?
    ensures SetWindow(s, d, now).timer == EnterCommissioning(SetWindow(s, d, now), now, true).s.timer <==> d > 0
  {
  }

  /** The deadline an event gives the window. */
  function DeadlineFrom(x: System, e: Event): int {
    x.now + if e.SetsWindow? then e.duration else Window(x.s)
  }

  lemma TimerStep(x: System, e: Event)
    requires Step(x, e).s.timer.Some?
    ensures || ((e.Enters? || e.SetsWindow?) && Step(x, e).s.timer == Some(DeadlineFrom(x, e)))
            || (Step(x, e).s.timer == x.s.timer && !e.Exits? && !e.StopsAll?)
  {
    if AboutRegistrations(e) {
      hide Step;
      StepFrame(x, e);
    }
  }

  /** An open window goes back to an event that opened or re-timed it. Its deadline is the one which that
      event gave, and it has been open with this deadline ever since. */
  lemma {:induction false} WindowSince(quiet: bool, es: seq<Event>) returns (k: nat)
    requires Run(quiet, es).s.timer.Some?
    ensures k < |es| && (es[k].Enters? || es[k].SetsWindow?)
    ensures Run(quiet, es).s.timer == Some(DeadlineFrom(Run(quiet, es[..k]), es[k]))
    ensures forall j :: k < j <= |es| ==> Run(quiet, es[..j]).s.timer == Run(quiet, es).s.timer
    ensures forall j :: k < j < |es| ==> !es[j].Exits? && !es[j].StopsAll?
  {
    hide Step, DeadlineFrom;
    var init, e := es[..|es| - 1], es[|es| - 1];
    var x := Run(quiet, init);
    TimerStep(x, e);
    if (e.Enters? || e.SetsWindow?) && Step(x, e).s.timer == Some(DeadlineFrom(x, e)) {
      k := |es| - 1;
    } else {
      k := WindowSince(quiet, init);
      assert init[..k] == es[..k];
      forall j | k < j <= |es|
        ensures Run(quiet, es[..j]).s.timer == Run(quiet, es).s.timer
      {
        if j < |es| {
          assert init[..j] == es[..j];
        } else {
          assert es[..j] == es;
        }
      }
    }
    assert es[..|es|] == es;
  }

  /** The timer alone ends a commissioning state only when its deadline has come, and it reports the timeout. */
  lemma WindowEndsOnTime(x: System)
    requires Inv(x.s) && Step(x, WindowCloses).s != x.s
    ensures Commissioning(x.s.state) && x.s.timer.Some? && x.now >= x.s.timer.value
    ensures var s' := Step(x, WindowCloses).s;
            && !Commissioning(s'.state) && s'.timer == None && s'.timeouts == x.s.timeouts + 1
            && s'.state == if x.s.zones == map[] then Uncommissioned else Operational
  {
  }
}
