/** What each discovery operation does, event by event and in terms of what was asked: which ones succeed,
    and what is known, registered and reported afterwards. */
module DiscoveryEffects {
  import opened Wrappers
  import opened DiscoveryTypes
  import opened DiscoverySpec
  import opened DiscoveryRuns

  function Look<K, V>(m: map<K, V>, k: K): Option<V> {
    if k in m then Some(m[k]) else None
  }

  // ---- The commissioning window ----

  predicate Open(s: State) {
    s.state == CommissioningOpen || s.state == OperationalCommissioning
  }

  /** The configured window, or 15 minutes if none is. */
  function WindowLength(s: State): int {
    if s.window > 0 then s.window else 900_000_000_000
  }

  /** Asking for the window opens it, or leaves it open, exactly when there is information to publish and
      the registration succeeds, if one is needed; otherwise nothing but the error results. */
  lemma EnterExactly(quiet: bool, es: seq<Event>, ok: bool)
    ensures var x, r := Run(quiet, es), EnterCommissioning(Run(quiet, es).s, Run(quiet, es).now, ok);
            var s, s' := x.s, Run(quiet, es + [Enters(ok)]).s;
            && s' == r.s
            && (Open(s') <==> Open(s) || (s.info.Some? && (quiet || ok)))
            && (r.error == if s.info.None? then Some(MissingRequired)
                           else if Open(s) || quiet || ok then None
                           else Some(RegistrationFailed))
            && (r.error.None? ==>
                  && s'.timer == Some(x.now + WindowLength(s))
                  && s'.state == (if Open(s) then s.state
                                  else if s.zones == map[] then CommissioningOpen else OperationalCommissioning)
                  && (!quiet && !Open(s) ==> s'.regs.commissionable == s.info)
                  && s'.changes == if Open(s) then s.changes else s.changes + [Change(s.state, s'.state)])
            && (r.error.Some? ==> s'.state == s.state && s'.timer == s.timer && s'.changes == s.changes)
            && s'.zones == s.zones && s'.info == s.info
  {
    hide Step, Inv;
    assert (es + [Enters(ok)])[..|es|] == es;
    DiscoveryAlways(quiet, es);
    StepsOn(quiet, es, Enters(ok));
    EnterFromInv(Run(quiet, es).s, Run(quiet, es).now, ok);
  }

  lemma StepsOn(quiet: bool, es: seq<Event>, e: Event)
    ensures Run(quiet, es + [e]) == Step(Run(quiet, es), e)
  {
    assert (es + [e])[..|es|] == es;
  }

  lemma EnterFromInv(s: State, now: int, ok: bool)
    requires Inv(s)
    ensures var r := EnterCommissioning(s, now, ok);
            var s' := r.s;
            && Step(System(s, now), Enters(ok)).s == s'
            && (Open(s') <==> Open(s) || (s.info.Some? && (s.quiet || ok)))
            && (r.error == if s.info.None? then Some(MissingRequired)
                           else if Open(s) || s.quiet || ok then None
                           else Some(RegistrationFailed))
            && (r.error.None? ==>
                  && s'.timer == Some(now + WindowLength(s))
                  && s'.state == (if Open(s) then s.state
                                  else if s.zones == map[] then CommissioningOpen else OperationalCommissioning)
                  && (!s.quiet && !Open(s) ==> s'.regs.commissionable == s.info)
                  && s'.changes == if Open(s) then s.changes else s.changes + [Change(s.state, s'.state)])
            && (r.error.Some? ==> s'.state == s.state && s'.timer == s.timer && s'.changes == s.changes)
            && s'.zones == s.zones && s'.info == s.info
  {
    hide Fits;
  }

  /** Leaving the window, by request or because its time came, closes it whatever the state was. */
  lemma ExitExactly(s: State, byUser: bool)
    ensures var s' := ExitCommissioning(s, byUser);
            && s'.timer == None && (!s.quiet ==> s'.regs.commissionable == None)
            && s'.state == (if s.zones == map[] then Uncommissioned else Operational)
            && s'.timeouts == (if byUser then s.timeouts else s.timeouts + 1)
            && s'.zones == s.zones && s'.regs.operational == s.regs.operational
  {
  }

  // ---- The state ----

  predicate Added(s: State, e: Event) {
    e.AddsZone? && e.zone.zoneId != "" && e.zone.deviceId != "" && (s.quiet || e.ok)
  }

  predicate Removed(s: State, e: Event) {
    e.RemovesZone? && e.id in s.zones && (s.quiet || e.id in s.regs.operational)
  }

  /** The state after each event. */
  lemma StateAfter(x: System, e: Event)
    requires Inv(x.s)
    ensures var s, s' := x.s, Step(x, e).s;
            s'.state ==
            match e
            case Enters(ok) =>
              if s.info.Some? && (s.quiet || ok) && !Open(s)
              then (if s.zones == map[] then CommissioningOpen else OperationalCommissioning)
              else s.state
            case Exits => if s.zones == map[] then Uncommissioned else Operational
            case WindowCloses =>
              if s.timer.Some? && x.now >= s.timer.value
              then (if s.zones == map[] then Uncommissioned else Operational)
              else s.state
            case AddsZone(_, _) => if Added(s, e) && s.state == Uncommissioned then Operational else s.state
            case RemovesZone(z) =>
              if Removed(s, e) && s.zones.Keys == {z} then
                if s.state == Operational then Uncommissioned
                else if s.state == OperationalCommissioning then CommissioningOpen
                else s.state
              else s.state
            case StopsAll => Unregistered
            case _ => s.state
  {
    hide Fits, Validate, Window, UpdateZone, AddCommissioner, UpdateCommissionerZone, RemoveCommissioner,
         AnnouncePairing,
         WithdrawPairing;
    match e {
      case Enters(ok) => EnterFromInv(x.s, x.now, ok);
      case AddsZone(info, ok) => AddZoneState(x.s, info, ok);
      case RemovesZone(z) => RemoveZoneState(x.s, z);
      case UpdatesZone(info) => UpdateZoneState(x.s, info);
      case _ =>
        hide Step;
        StateKept(x, e);
    }
  }

  lemma AddZoneState(s: State, info: OperationalInfo, ok: bool)
    requires Inv(s)
    ensures AddZone(s, info, ok).s.state ==
            if Added(s, AddsZone(info, ok)) && s.state == Uncommissioned then Operational else s.state
  {
    hide Fits;
    if s.state == Uncommissioned {
      assert |s.zones[info.zoneId := info]| == |s.zones| + 1 == 1;
    }
  }

  lemma RemoveZoneState(s: State, z: string)
    ensures RemoveZone(s, z).s.state ==
            if Removed(s, RemovesZone(z)) && s.zones.Keys == {z} then
              if s.state == Operational then Uncommissioned
              else if s.state == OperationalCommissioning then CommissioningOpen
              else s.state
            else s.state
  {
    if s.zones - {z} == map[] && z in s.zones {
      assert forall y :: y in s.zones ==> y == z by {
        forall y | y in s.zones
          ensures y == z
        {
          assert y != z ==> y in s.zones - {z};
        }
      }
    }
    if s.zones.Keys == {z} {
      assert (s.zones - {z}).Keys == {};
    }
  }

  lemma UpdateZoneState(s: State, info: OperationalInfo)
    ensures UpdateZone(s, info).s.state == s.state
  {
  }

  lemma StateKept(x: System, e: Event)
    requires !e.Enters? && !e.AddsZone? && !e.RemovesZone? && !e.UpdatesZone?
    ensures Step(x, e).s.state ==
            match e
            case Exits => if x.s.zones == map[] then Uncommissioned else Operational
            case WindowCloses =>
              if x.s.timer.Some? && x.now >= x.s.timer.value
              then (if x.s.zones == map[] then Uncommissioned else Operational)
              else x.s.state
            case StopsAll => Unregistered
            case _ => x.s.state
  {
    if AboutRegistrations(e) {
      hide Step;
      StepFrame(x, e);
    }
  }

  // ---- Operational zones ----

  lemma AddZoneMaps(s: State, info: OperationalInfo, ok: bool, z: string)
    ensures var s' := AddZone(s, info, ok).s;
            var valid := info.zoneId != "" && info.deviceId != "" && info.zoneId == z;
            && Look(s'.zones, z) == (if valid && (s.quiet || ok) then Some(info) else Look(s.zones, z))
            && Look(s'.regs.operational, z) ==
               if valid && !s.quiet then (if ok then Some(info) else None) else Look(s.regs.operational, z)
  {
  }

  lemma UpdateZoneMaps(s: State, info: OperationalInfo, z: string)
    ensures var s' := UpdateZone(s, info).s;
            var known := info.zoneId == z && z in s.zones;
            && Look(s'.zones, z) ==
               (if known && (s.quiet || z in s.regs.operational) then Some(info) else Look(s.zones, z))
            && Look(s'.regs.operational, z) ==
               if known && !s.quiet && z in s.regs.operational
               then Some(info.(port := s.regs.operational[z].port, host := s.regs.operational[z].host))
               else Look(s.regs.operational, z)
  {
  }

  lemma RemoveZoneMaps(s: State, id: string, z: string)
    ensures var s' := RemoveZone(s, id).s;
            var known := id == z && z in s.zones && (s.quiet || z in s.regs.operational);
            && Look(s'.zones, z) == (if known then None else Look(s.zones, z))
            && Look(s'.regs.operational, z) == if known && !s.quiet then None else Look(s.regs.operational, z)
  {
  }

  lemma NotThere(s: State, s': State, z: string)
    ensures s'.zones == map[] ==> Look(s'.zones, z) == None
    ensures s'.regs.operational == map[] ==> Look(s'.regs.operational, z) == None
  {
  }

  /** What the manager knows of a zone after each event. */
  lemma ZoneAfter(x: System, e: Event, z: string)
    ensures var s, s' := x.s, Step(x, e).s;
            Look(s'.zones, z) ==
            if e.StopsAll? then None
            else if Added(s, e) && e.zone.zoneId == z then Some(e.zone)
            else if e.UpdatesZone? && e.zone.zoneId == z && z in s.zones && (s.quiet || z in s.regs.operational)
            then Some(e.zone)
            else if Removed(s, e) && e.id == z then None
            else Look(s.zones, z)
  {
    hide AddZone, UpdateZone, RemoveZone, Look;
    match e {
      case AddsZone(info, ok) => AddZoneMaps(x.s, info, ok, z);
      case UpdatesZone(info) => UpdateZoneMaps(x.s, info, z);
      case RemovesZone(id) => RemoveZoneMaps(x.s, id, z);
      case _ =>
        hide Step;
        OtherZones(x, e);
        NotThere(x.s, Step(x, e).s, z);
    }
  }

  /** What is on the air for a zone after each event: a refused registration takes the old one with it. */
  lemma ZoneRegistrationAfter(x: System, e: Event, z: string)
    requires !x.s.quiet
    ensures var s, s' := x.s, Step(x, e).s;
            Look(s'.regs.operational, z) ==
            if e.StopsAll? then None
            else if e.AddsZone? && e.zone.zoneId == z && z != "" && e.zone.deviceId != ""
            then (if e.ok then Some(e.zone) else None)
            else if e.UpdatesZone? && e.zone.zoneId == z && z in s.zones && z in s.regs.operational
            then Some(e.zone.(port := s.regs.operational[z].port, host := s.regs.operational[z].host))
            else if Removed(s, e) && e.id == z then None
            else Look(s.regs.operational, z)
  {
    hide AddZone, UpdateZone, RemoveZone, Look;
    match e {
      case AddsZone(info, ok) => AddZoneMaps(x.s, info, ok, z);
      case UpdatesZone(info) => UpdateZoneMaps(x.s, info, z);
      case RemovesZone(id) => RemoveZoneMaps(x.s, id, z);
      case StopsAll => NotThere(x.s, Step(x, e).s, z);
      case _ =>
        hide Step;
        OtherZones(x, e);
    }
  }

  /** The answers: a zone operation reports no error exactly when it does what it was asked to. */
  lemma ZoneErrors(s: State, info: OperationalInfo, ok: bool, z: string)
    ensures AddZone(s, info, ok).error ==
            if info.zoneId == "" || info.deviceId == "" then Some(MissingRequired)
            else if s.quiet || ok then None else Some(RegistrationFailed)
    ensures UpdateZone(s, info).error ==
            if info.zoneId in s.zones && (s.quiet || info.zoneId in s.regs.operational) then None else Some(NotFound)
    ensures RemoveZone(s, z).error ==
            if z in s.zones && (s.quiet || z in s.regs.operational) then None else Some(NotFound)
  {
  }

  // ---- Commissioner zones ----

  lemma CommissionerAfter(x: System, e: Event, z: string)
    ensures var s, s' := x.s, Step(x, e).s;
            Look(s'.commissioners, z) ==
            if e.StopsAll? then None
            else if e.AddsCommissioner? && e.commissioner.zoneId == z && z != "" && e.commissioner.zoneName != "" &&
                    (s.quiet || e.ok)
            then Some(e.commissioner)
            else if e.UpdatesCommissioner? && e.commissioner.zoneId == z && z in s.commissioners &&
                    (s.quiet || z in s.regs.commissioner)
            then Some(e.commissioner)
            else if e.RemovesCommissioner? && e.id == z && (s.quiet || z in s.regs.commissioner) then None
            else Look(s.commissioners, z)
  {
    if !AboutCommissioners(e) {
      hide Step;
      OtherCommissioners(x, e);
    } else if e.RemovesCommissioner? {
      assert z !in x.s.commissioners ==> Look(x.s.commissioners, z) == None;
    }
  }

  lemma CommissionerRegistrationAfter(x: System, e: Event, z: string)
    requires !x.s.quiet
    ensures var s, s' := x.s, Step(x, e).s;
            Look(s'.regs.commissioner, z) ==
            if e.StopsAll? then None
            else if e.AddsCommissioner? && e.commissioner.zoneId == z && z != "" && e.commissioner.zoneName != ""
            then (if e.ok then Some(e.commissioner) else None)
            else if e.UpdatesCommissioner? && e.commissioner.zoneId == z && z in s.commissioners &&
                z in s.regs.commissioner
            then Some(e.commissioner.(port := s.regs.commissioner[z].port, host := s.regs.commissioner[z].host))
            else if e.RemovesCommissioner? && e.id == z && z in s.commissioners then None
            else Look(s.regs.commissioner, z)
  {
    if !AboutCommissioners(e) && !e.StopsAll? {
      hide Step;
      OtherCommissioners(x, e);
    }
  }

  lemma CommissionerErrors(s: State, info: CommissionerInfo, ok: bool, z: string)
    ensures AddCommissioner(s, info, ok).error ==
            if info.zoneId == "" || info.zoneName == "" then Some(MissingRequired)
            else if s.quiet || ok then None else Some(RegistrationFailed)
    ensures UpdateCommissionerZone(s, info).error ==
            if info.zoneId in s.commissioners && (s.quiet || info.zoneId in s.regs.commissioner) then None
            else Some(NotFound)
    ensures RemoveCommissioner(s, z).error ==
            if z in s.commissioners && (s.quiet || z in s.regs.commissioner) then None else Some(NotFound)
  {
  }

  // ---- Pairing requests ----

  /** A pairing request is valid exactly with a 12-bit discriminator, an identifier of 16 hexadecimal
      digits and a host. */
  lemma ValidExactly(p: PairingRequestInfo)
    ensures Validate(p).None? <==> p.discriminator <= 4095 && IsId(p.zoneId) && p.host != ""
  {
    if IsHexString(p.zoneId) {
      HexLength(p.zoneId);
    }
  }

  predicate Valid(p: PairingRequestInfo) {
    p.discriminator <= 4095 && IsId(p.zoneId) && p.host != ""
  }

  lemma PairingAfter(x: System, e: Event, d: u16)
    requires Inv(x.s)
    ensures var s, s' := x.s, Step(x, e).s;
            Look(s'.pairings, d) ==
            if e.StopsAll? then None
            else if e.Announces? && e.request.discriminator == d && Valid(e.request) && d !in s.pairings &&
                (s.quiet || e.ok)
            then Some(e.request)
            else if e.Withdraws? && e.discriminator == d then None
            else Look(s.pairings, d)
  {
    hide Fits, Validate, IsId;
    if e.Announces? {
      ValidExactly(e.request);
    } else if !e.Withdraws? && !e.StopsAll? {
      hide Step;
      StepFrame(x, e);
    }
  }

  lemma PairingErrors(s: State, p: PairingRequestInfo, ok: bool, d: u16)
    requires Inv(s)
    ensures AnnouncePairing(s, p, ok).error.None? <==> Valid(p) && p.discriminator !in s.pairings && (s.quiet || ok)
    ensures Valid(p) && p.discriminator in s.pairings ==> AnnouncePairing(s, p, ok).error == Some(AlreadyExists)
    ensures WithdrawPairing(s, d).error == if d in s.pairings then None else Some(NotFound)
  {
    hide Fits, Validate, IsId;
    ValidExactly(p);
  }

  /** Stopping leaves nothing on the air, known or timed. */
  lemma StopExactly(x: System)
    requires Inv(x.s)
    ensures var s' := Step(x, StopsAll).s;
            && s'.regs == (if x.s.quiet then x.s.regs else NoRegistrations) && s'.timer == None &&
                s'.state == Unregistered
            && s'.zones == map[] && s'.commissioners == map[] && s'.pairings == map[]
  {
  }
}
