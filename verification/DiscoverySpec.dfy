/** The discovery manager and the mDNS advertiser it drives, on values. */
module DiscoverySpec {
  import opened Wrappers
  import opened DiscoveryTypes

  datatype DiscoveryState =
    | Unregistered
    | Uncommissioned
    | CommissioningOpen
    | Operational
    | OperationalCommissioning

  /** The live mDNS registrations, each with its port and host and the information its TXT records publish. */
  datatype Registrations = Registrations(
    commissionable: Option<CommissionableInfo>,
    operational: map<string, OperationalInfo>,
    commissioner: map<string, CommissionerInfo>,
    pairing: map<u16, PairingRequestInfo>)

  const NoRegistrations := Registrations(None, map[], map[], map[])

  datatype Change = Change(from: DiscoveryState, to: DiscoveryState)

  datatype State = State(
    quiet: bool,
    regs: Registrations,
    state: DiscoveryState,
    info: Option<CommissionableInfo>,
    zones: map<string, OperationalInfo>,
    commissioners: map<string, CommissionerInfo>,
    pairings: map<u16, PairingRequestInfo>,
    timer: Option<int>,
    window: int,
    changes: seq<Change>,
    timeouts: nat)

  datatype Outcome = Outcome(s: State, error: Option<Error>)

  function Initial(quiet: bool): State {
    State(quiet, NoRegistrations, Unregistered, None, map[], map[], map[], None, 0, [], 0)
  }

  // ---- The advertiser; "ok" tells whether the registration it attempts succeeds ----

  datatype Reply = Reply(regs: Registrations, error: Option<Error>)

  function AdvertiseCommissionable(quiet: bool, r: Registrations, info: CommissionableInfo, ok: bool): Reply {
    if quiet then Reply(r, None)
    else if ok then Reply(r.(commissionable := Some(info)), None)
    else Reply(r.(commissionable := None), Some(RegistrationFailed))
  }

  function StopCommissionable(quiet: bool, r: Registrations): Registrations {
    if quiet then r else r.(commissionable := None)
  }

  /** The old registration of the zone is shut down before the new one is attempted. */
  function AdvertiseOperational(quiet: bool, r: Registrations, info: OperationalInfo, ok: bool): Reply {
    if quiet then Reply(r, None)
    else if ok then Reply(r.(operational := r.operational[info.zoneId := info]), None)
    else Reply(r.(operational := r.operational - {info.zoneId}), Some(RegistrationFailed))
  }

  /** Only the TXT records of a live registration can be replaced. */
  function UpdateOperational(quiet: bool, r: Registrations, z: string, info: OperationalInfo): Reply {
    if quiet then Reply(r, None)
    else if z !in r.operational then Reply(r, Some(NotFound))
    else
      var was := r.operational[z];
      Reply(r.(operational := r.operational[z := info.(port := was.port, host := was.host)]), None)
  }

  function StopOperational(quiet: bool, r: Registrations, z: string): Reply {
    if quiet then Reply(r, None)
    else if z !in r.operational then Reply(r, Some(NotFound))
    else Reply(r.(operational := r.operational - {z}), None)
  }

  function AdvertiseCommissioner(quiet: bool, r: Registrations, info: CommissionerInfo, ok: bool): Reply {
    if quiet then Reply(r, None)
    else if ok then Reply(r.(commissioner := r.commissioner[info.zoneId := info]), None)
    else Reply(r.(commissioner := r.commissioner - {info.zoneId}), Some(RegistrationFailed))
  }

  function UpdateCommissioner(quiet: bool, r: Registrations, z: string, info: CommissionerInfo): Reply {
    if quiet then Reply(r, None)
    else if z !in r.commissioner then Reply(r, Some(NotFound))
    else
      var was := r.commissioner[z];
      Reply(r.(commissioner := r.commissioner[z := info.(port := was.port, host := was.host)]), None)
  }

  function StopCommissioner(quiet: bool, r: Registrations, z: string): Reply {
    if quiet then Reply(r, None)
    else if z !in r.commissioner then Reply(r, Some(NotFound))
    else Reply(r.(commissioner := r.commissioner - {z}), None)
  }

  function AdvertisePairing(quiet: bool, r: Registrations, info: PairingRequestInfo, ok: bool): Reply {
    if Validate(info).Some? then Reply(r, Validate(info))
    else if quiet then Reply(r, None)
    else if ok then Reply(r.(pairing := r.pairing[info.discriminator := info]), None)
    else Reply(r.(pairing := r.pairing - {info.discriminator}), Some(RegistrationFailed))
  }

  function StopPairing(quiet: bool, r: Registrations, d: u16): Reply {
    if quiet then Reply(r, None)
    else if d !in r.pairing then Reply(r, Some(NotFound))
    else Reply(r.(pairing := r.pairing - {d}), None)
  }

  // ---- The manager ----

  predicate Commissioning(d: DiscoveryState) {
    d == CommissioningOpen || d == OperationalCommissioning
  }

  function MoveTo(s: State, d: DiscoveryState): State {
    if s.state == d then s else s.(state := d, changes := s.changes + [Change(s.state, d)])
  }

  function Window(s: State): int {
    if s.window <= 0 then WINDOW_DEFAULT else s.window
  }

  function EnterCommissioning(s: State, now: int, ok: bool): Outcome {
    if s.info.None? then Outcome(s, Some(MissingRequired))
    else if Commissioning(s.state) then Outcome(s.(timer := Some(now + Window(s))), None)
    else
      var r := AdvertiseCommissionable(s.quiet, s.regs, s.info.value, ok);
      var s1 := s.(regs := r.regs);
      if r.error.Some? then Outcome(s1, r.error)
      else
        Outcome(MoveTo(s1.(timer := Some(now + Window(s))),
                       if s.zones != map[] then OperationalCommissioning else CommissioningOpen), None)
  }

  /** An active window is restarted with the given duration as it is. */
  function SetWindow(s: State, d: int, now: int): State {
    s.(window := d, timer := if Commissioning(s.state) && s.timer.Some? then Some(now + d) else s.timer)
  }

  function ExitCommissioning(s: State, byUser: bool): State {
    var s1 := MoveTo(s.(timer := None, regs := StopCommissionable(s.quiet, s.regs)),
                     if s.zones != map[] then Operational else Uncommissioned);
    if byUser then s1 else s1.(timeouts := s1.timeouts + 1)
  }

  function AddZone(s: State, info: OperationalInfo, ok: bool): Outcome {
    if info.zoneId == "" || info.deviceId == "" then Outcome(s, Some(MissingRequired))
    else
      var r := AdvertiseOperational(s.quiet, s.regs, info, ok);
      var s1 := s.(regs := r.regs);
      if r.error.Some? then Outcome(s1, r.error)
      else
        var s2 := s1.(zones := s.zones[info.zoneId := info]);
        Outcome(if |s2.zones| == 1 && s.state == Uncommissioned then MoveTo(s2, Operational) else s2, None)
  }

  function UpdateZone(s: State, info: OperationalInfo): Outcome {
    if info.zoneId !in s.zones then Outcome(s, Some(NotFound))
    else
      var r := UpdateOperational(s.quiet, s.regs, info.zoneId, info);
      if r.error.Some? then Outcome(s.(regs := r.regs), r.error)
      else Outcome(s.(regs := r.regs, zones := s.zones[info.zoneId := info]), None)
  }

  function AfterLastZone(d: DiscoveryState): DiscoveryState {
    match d
    case Operational => Uncommissioned
    case OperationalCommissioning => CommissioningOpen
    case _ => d
  }

  function RemoveZone(s: State, z: string): Outcome {
    if z !in s.zones then Outcome(s, Some(NotFound))
    else
      var r := StopOperational(s.quiet, s.regs, z);
      if r.error.Some? then Outcome(s.(regs := r.regs), r.error)
      else
        var s1 := s.(regs := r.regs, zones := s.zones - {z});
        Outcome(if s1.zones == map[] then MoveTo(s1, AfterLastZone(s.state)) else s1, None)
  }

  function AddCommissioner(s: State, info: CommissionerInfo, ok: bool): Outcome {
    if info.zoneId == "" || info.zoneName == "" then Outcome(s, Some(MissingRequired))
    else
      var r := AdvertiseCommissioner(s.quiet, s.regs, info, ok);
      if r.error.Some? then Outcome(s.(regs := r.regs), r.error)
      else Outcome(s.(regs := r.regs, commissioners := s.commissioners[info.zoneId := info]), None)
  }

  function UpdateCommissionerZone(s: State, info: CommissionerInfo): Outcome {
    if info.zoneId !in s.commissioners then Outcome(s, Some(NotFound))
    else
      var r := UpdateCommissioner(s.quiet, s.regs, info.zoneId, info);
      if r.error.Some? then Outcome(s.(regs := r.regs), r.error)
      else Outcome(s.(regs := r.regs, commissioners := s.commissioners[info.zoneId := info]), None)
  }

  function RemoveCommissioner(s: State, z: string): Outcome {
    if z !in s.commissioners then Outcome(s, Some(NotFound))
    else
      var r := StopCommissioner(s.quiet, s.regs, z);
      if r.error.Some? then Outcome(s.(regs := r.regs), r.error)
      else Outcome(s.(regs := r.regs, commissioners := s.commissioners - {z}), None)
  }

  function AnnouncePairing(s: State, info: PairingRequestInfo, ok: bool): Outcome {
    if Validate(info).Some? then Outcome(s, Validate(info))
    else if info.discriminator in s.pairings then Outcome(s, Some(AlreadyExists))
    else
      var r := AdvertisePairing(s.quiet, s.regs, info, ok);
      if r.error.Some? then Outcome(s.(regs := r.regs), r.error)
      else Outcome(s.(regs := r.regs, pairings := s.pairings[info.discriminator := info]), None)
  }

  function WithdrawPairing(s: State, d: u16): Outcome {
    if d !in s.pairings then Outcome(s, Some(NotFound))
    else
      var r := StopPairing(s.quiet, s.regs, d);
      if r.error.Some? then Outcome(s.(regs := r.regs), r.error)
      else Outcome(s.(regs := r.regs, pairings := s.pairings - {d}), None)
  }

  function StopEverything(s: State): State {
    MoveTo(s.(timer := None, regs := if s.quiet then s.regs else NoRegistrations,
              zones := map[], commissioners := map[], pairings := map[]), Unregistered)
  }
}
