/** The advertiser and the discovery manager as objects whose methods update maps and fields. */
module DiscoveryManager {
  import opened Wrappers
  import opened DiscoveryTypes
  import opened DiscoverySpec

  /** "ok" arguments tell whether the mDNS library accepts the registration that the call attempts. */
  class MDNSAdvertiser {
    const quiet: bool
    var commissionableServer: Option<CommissionableInfo>
    var operationalServers: map<string, OperationalInfo>
    var commissionerServers: map<string, CommissionerInfo>
    var pairingRequestServers: map<u16, PairingRequestInfo>

    ghost function View(): Registrations
      reads this
    {
      Registrations(commissionableServer, operationalServers, commissionerServers, pairingRequestServers)
    }

    constructor (q: bool)
      ensures quiet == q && View() == NoRegistrations
    {
      quiet := q;
      commissionableServer, operationalServers, commissionerServers, pairingRequestServers := None, map[], map[], map[];
    }

    method AdvertiseCommissionable(info: CommissionableInfo, ok: bool) returns (error: Option<Error>)
      modifies this
      ensures Reply(View(), error) == DiscoverySpec.AdvertiseCommissionable(quiet, old(View()), info, ok)
    {
      if quiet {
        return None;
      }
      if commissionableServer.Some? {
        commissionableServer := None;
      }
      if !ok {
        return Some(RegistrationFailed);
      }
      commissionableServer := Some(info);
      return None;
    }

    method StopCommissionable()
      modifies this
      ensures View() == DiscoverySpec.StopCommissionable(quiet, old(View()))
    {
      if quiet {
        return;
      }
      if commissionableServer.Some? {
        commissionableServer := None;
      }
    }

    method AdvertiseOperational(info: OperationalInfo, ok: bool) returns (error: Option<Error>)
      modifies this
      ensures Reply(View(), error) == DiscoverySpec.AdvertiseOperational(quiet, old(View()), info, ok)
    {
      if quiet {
        return None;
      }
      ghost var before := operationalServers;
      if info.zoneId in operationalServers {
        operationalServers := operationalServers - {info.zoneId};
      }
      assert operationalServers == before - {info.zoneId};
      if !ok {
        return Some(RegistrationFailed);
      }
      operationalServers := operationalServers[info.zoneId := info];
      assert operationalServers == before[info.zoneId := info];
      return None;
    }

    method UpdateOperational(z: string, info: OperationalInfo) returns (error: Option<Error>)
      modifies this
      ensures Reply(View(), error) == DiscoverySpec.UpdateOperational(quiet, old(View()), z, info)
    {
      if quiet {
        return None;
      }
      if z !in operationalServers {
        return Some(NotFound);
      }
      var was := operationalServers[z];
      operationalServers := operationalServers[z := info.(port := was.port, host := was.host)];
      return None;
    }

    method StopOperational(z: string) returns (error: Option<Error>)
      modifies this
      ensures Reply(View(), error) == DiscoverySpec.StopOperational(quiet, old(View()), z)
    {
      if quiet {
        return None;
      }
      if z !in operationalServers {
        return Some(NotFound);
      }
      operationalServers := operationalServers - {z};
      return None;
    }

    method AdvertiseCommissioner(info: CommissionerInfo, ok: bool) returns (error: Option<Error>)
      modifies this
      ensures Reply(View(), error) == DiscoverySpec.AdvertiseCommissioner(quiet, old(View()), info, ok)
    {
      if quiet {
        return None;
      }
      ghost var before := commissionerServers;
      if info.zoneId in commissionerServers {
        commissionerServers := commissionerServers - {info.zoneId};
      }
      assert commissionerServers == before - {info.zoneId};
      if !ok {
        return Some(RegistrationFailed);
      }
      commissionerServers := commissionerServers[info.zoneId := info];
      assert commissionerServers == before[info.zoneId := info];
      return None;
    }

    method UpdateCommissioner(z: string, info: CommissionerInfo) returns (error: Option<Error>)
      modifies this
      ensures Reply(View(), error) == DiscoverySpec.UpdateCommissioner(quiet, old(View()), z, info)
    {
      if quiet {
        return None;
      }
      if z !in commissionerServers {
        return Some(NotFound);
      }
      var was := commissionerServers[z];
      commissionerServers := commissionerServers[z := info.(port := was.port, host := was.host)];
      return None;
    }

    method StopCommissioner(z: string) returns (error: Option<Error>)
      modifies this
      ensures Reply(View(), error) == DiscoverySpec.StopCommissioner(quiet, old(View()), z)
    {
      if quiet {
        return None;
      }
      if z !in commissionerServers {
        return Some(NotFound);
      }
      commissionerServers := commissionerServers - {z};
      return None;
    }

    method AnnouncePairingRequest(info: PairingRequestInfo, ok: bool) returns (error: Option<Error>)
      modifies this
      ensures Reply(View(), error) == AdvertisePairing(quiet, old(View()), info, ok)
    {
      var invalid := Validate(info);
      if invalid.Some? {
        return invalid;
      }
      if quiet {
        return None;
      }
      ghost var before := pairingRequestServers;
      if info.discriminator in pairingRequestServers {
        pairingRequestServers := pairingRequestServers - {info.discriminator};
      }
      assert pairingRequestServers == before - {info.discriminator};
      if !ok {
        return Some(RegistrationFailed);
      }
      pairingRequestServers := pairingRequestServers[info.discriminator := info];
      assert pairingRequestServers == before[info.discriminator := info];
      return None;
    }

    method StopPairingRequest(d: u16) returns (error: Option<Error>)
      modifies this
      ensures Reply(View(), error) == StopPairing(quiet, old(View()), d)
    {
      if quiet {
        return None;
      }
      if d !in pairingRequestServers {
        return Some(NotFound);
      }
      pairingRequestServers := pairingRequestServers - {d};
      return None;
    }

    method StopAll()
      modifies this
      ensures View() == if quiet then old(View()) else NoRegistrations
    {
      if quiet {
        return;
      }
      if commissionableServer.Some? {
        commissionableServer := None;
      }
      while operationalServers != map[]
        invariant commissionableServer == None
        decreases |operationalServers|
      {
        var z :| z in operationalServers;
        operationalServers := operationalServers - {z};
      }
      while commissionerServers != map[]
        invariant commissionableServer == None && operationalServers == map[]
        decreases |commissionerServers|
      {
        var z :| z in commissionerServers;
        commissionerServers := commissionerServers - {z};
      }
      while pairingRequestServers != map[]
        invariant commissionableServer == None && operationalServers == map[] && commissionerServers == map[]
        decreases |pairingRequestServers|
      {
        var d :| d in pairingRequestServers;
        pairingRequestServers := pairingRequestServers - {d};
      }
    }
  }

  class DiscoveryManager {
    const advertiser: MDNSAdvertiser
    var state: DiscoveryState
    var commissionableInfo: Option<CommissionableInfo>
    var operationalZones: map<string, OperationalInfo>
    var commissionerZones: map<string, CommissionerInfo>
    var pairingRequests: map<u16, PairingRequestInfo>
    /** The instant at which the commissioning window closes, while its timer is set. */
    var commissioningTimer: Option<int>
    var windowDuration: int
    /** Calls of the state-change and timeout callbacks. */
    var changes: seq<Change>
    var timeouts: nat

    ghost function View(): State
      reads this, advertiser
    {
      State(advertiser.quiet, advertiser.View(), state, commissionableInfo, operationalZones, commissionerZones,
            pairingRequests, commissioningTimer, windowDuration, changes, timeouts)
    }

    constructor (a: MDNSAdvertiser)
      requires a.View() == NoRegistrations
      ensures advertiser == a && View() == Initial(a.quiet)
    {
      advertiser := a;
      state, commissionableInfo := Unregistered, None;
      operationalZones, commissionerZones, pairingRequests := map[], map[], map[];
      commissioningTimer, windowDuration, changes, timeouts := None, 0, [], 0;
    }

    method MoveTo(d: DiscoveryState)
      modifies this`state, this`changes
      ensures View() == DiscoverySpec.MoveTo(old(View()), d)
    {
      var oldState := state;
      state := d;
      if oldState != state {
        changes := changes + [Change(oldState, state)];
      }
    }

    method EnterCommissioningMode(now: int, ok: bool) returns (error: Option<Error>)
      modifies this, advertiser
      ensures Outcome(View(), error) == EnterCommissioning(old(View()), now, ok)
    {
      if commissionableInfo.None? {
        return Some(MissingRequired);
      }
      var window := windowDuration;
      if window <= 0 {
        window := WINDOW_DEFAULT;
      }
      if state == CommissioningOpen || state == OperationalCommissioning {
        commissioningTimer := Some(now + window);
        return None;
      }
      error := advertiser.AdvertiseCommissionable(commissionableInfo.value, ok);
      if error.Some? {
        return;
      }
      commissioningTimer := Some(now + window);
      MoveTo(if operationalZones != map[] then OperationalCommissioning else CommissioningOpen);
    }

    method SetCommissioningWindowDuration(d: int, now: int)
      modifies this
      ensures View() == SetWindow(old(View()), d, now)
    {
      windowDuration := d;
      if (state == CommissioningOpen || state == OperationalCommissioning) && commissioningTimer.Some? {
        commissioningTimer := Some(now + d);
      }
    }

    method ExitCommissioningMode(byUser: bool)
      modifies this, advertiser
      ensures View() == ExitCommissioning(old(View()), byUser)
    {
      commissioningTimer := None;
      advertiser.StopCommissionable();
      MoveTo(if operationalZones != map[] then Operational else Uncommissioned);
      if !byUser {
        timeouts := timeouts + 1;
      }
    }

    method AddZone(info: OperationalInfo, ok: bool) returns (error: Option<Error>)
      modifies this, advertiser
      ensures Outcome(View(), error) == DiscoverySpec.AddZone(old(View()), info, ok)
    {
      if info.zoneId == "" || info.deviceId == "" {
        return Some(MissingRequired);
      }
      error := advertiser.AdvertiseOperational(info, ok);
      if error.Some? {
        return;
      }
      operationalZones := operationalZones[info.zoneId := info];
      if |operationalZones| == 1 && state == Uncommissioned {
        MoveTo(Operational);
      }
    }

    method UpdateZone(info: OperationalInfo) returns (error: Option<Error>)
      modifies this, advertiser
      ensures Outcome(View(), error) == DiscoverySpec.UpdateZone(old(View()), info)
    {
      if info.zoneId !in operationalZones {
        return Some(NotFound);
      }
      error := advertiser.UpdateOperational(info.zoneId, info);
      if error.Some? {
        return;
      }
      operationalZones := operationalZones[info.zoneId := info];
    }

    method RemoveZone(z: string) returns (error: Option<Error>)
      modifies this, advertiser
      ensures Outcome(View(), error) == DiscoverySpec.RemoveZone(old(View()), z)
    {
      if z !in operationalZones {
        return Some(NotFound);
      }
      error := advertiser.StopOperational(z);
      if error.Some? {
        return;
      }
      operationalZones := operationalZones - {z};
      if operationalZones == map[] {
        if state == Operational {
          MoveTo(Uncommissioned);
        } else if state == OperationalCommissioning {
          MoveTo(CommissioningOpen);
        }
      }
    }

    method AddCommissionerZone(info: CommissionerInfo, ok: bool) returns (error: Option<Error>)
      modifies this, advertiser
      ensures Outcome(View(), error) == AddCommissioner(old(View()), info, ok)
    {
      if info.zoneId == "" || info.zoneName == "" {
        return Some(MissingRequired);
      }
      error := advertiser.AdvertiseCommissioner(info, ok);
      if error.Some? {
        return;
      }
      commissionerZones := commissionerZones[info.zoneId := info];
    }

    method UpdateCommissionerZone(info: CommissionerInfo) returns (error: Option<Error>)
      modifies this, advertiser
      ensures Outcome(View(), error) == DiscoverySpec.UpdateCommissionerZone(old(View()), info)
    {
      if info.zoneId !in commissionerZones {
        return Some(NotFound);
      }
      error := advertiser.UpdateCommissioner(info.zoneId, info);
      if error.Some? {
        return;
      }
      commissionerZones := commissionerZones[info.zoneId := info];
    }

    method RemoveCommissionerZone(z: string) returns (error: Option<Error>)
      modifies this, advertiser
      ensures Outcome(View(), error) == RemoveCommissioner(old(View()), z)
    {
      if z !in commissionerZones {
        return Some(NotFound);
      }
      error := advertiser.StopCommissioner(z);
      if error.Some? {
        return;
      }
      commissionerZones := commissionerZones - {z};
    }

    method AnnouncePairingRequest(info: PairingRequestInfo, ok: bool) returns (error: Option<Error>)
      modifies this, advertiser
      ensures Outcome(View(), error) == AnnouncePairing(old(View()), info, ok)
    {
      var invalid := Validate(info);
      if invalid.Some? {
        return invalid;
      }
      if info.discriminator in pairingRequests {
        return Some(AlreadyExists);
      }
      error := advertiser.AnnouncePairingRequest(info, ok);
      if error.Some? {
        return;
      }
      pairingRequests := pairingRequests[info.discriminator := info];
    }

    method StopPairingRequest(d: u16) returns (error: Option<Error>)
      modifies this, advertiser
      ensures Outcome(View(), error) == WithdrawPairing(old(View()), d)
    {
      if d !in pairingRequests {
        return Some(NotFound);
      }
      error := advertiser.StopPairingRequest(d);
      if error.Some? {
        return;
      }
      pairingRequests := pairingRequests - {d};
    }

    method Stop()
      modifies this, advertiser
      ensures View() == StopEverything(old(View()))
    {
      commissioningTimer := None;
      advertiser.StopAll();
      operationalZones, commissionerZones, pairingRequests := map[], map[], map[];
      MoveTo(Unregistered);
    }
  }
}
