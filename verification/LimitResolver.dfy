/** The limit resolver as the object whose handlers update maps, timers and attributes in place. */
module LimitResolver {
  import opened Wrappers
  import opened DurationManager
  import opened MultiZone
  import opened LimitSpec

  class EnergyControl {
    var attrs: Attributes

    constructor ()
      ensures attrs == Attributes(None, None, Autonomous)
    {
      attrs := Attributes(None, None, Autonomous);
    }
  }

  datatype Response = Response(applied: bool, control: ControlState,
                               effConsumption: Option<int>, effProduction: Option<int>, verdict: Verdict)

  class LimitResolver {
    const ec: EnergyControl
    const cap: Capacity
    const timers: Manager
    var consumptionLimits: MultiZoneValue
    var productionLimits: MultiZoneValue
    var zoneIndexMap: map<ZoneId, u8>
    var indexZoneMap: map<u8, ZoneId>
    var nextIndex: u8
    /** Every call of the change callback, in order. */
    var sent: seq<Note>

    ghost predicate Valid()
      reads this
    {
      consumptionLimits != productionLimits
    }

    ghost function Repr(): set<object>
      reads this
    {
      {this, ec, timers, consumptionLimits, productionLimits}
    }

    ghost function View(): State
      reads this, ec, timers, consumptionLimits, productionLimits
    {
      State(consumptionLimits.values, productionLimits.values, timers.timers,
            zoneIndexMap, indexZoneMap, nextIndex, ec.attrs, Fold(sent))
    }

    constructor (energy: EnergyControl, capacity: Capacity)
      requires energy.attrs == Attributes(None, None, Autonomous)
      ensures Valid() && fresh(Repr() - {energy}) && ec == energy && cap == capacity
      ensures View() == Initial
    {
      ec, cap := energy, capacity;
      timers := new Manager();
      consumptionLimits := new MultiZoneValue();
      productionLimits := new MultiZoneValue();
      zoneIndexMap, indexZoneMap, nextIndex, sent := map[], map[], 0, [];
    }

    method Send(n: Note)
      requires Valid()
      modifies this`sent
      ensures Valid() && View() == Notify(old(View()), n)
      ensures Fold(sent) == Apply(old(Fold(sent)), n)
    {
      sent := sent + [n];
      assert sent[..|sent| - 1] == old(sent);
    }

    method ResolveAndApply(now: int)
      requires Valid()
      modifies ec, consumptionLimits, productionLimits
      ensures Valid() && View() == Resolve(old(View()), now)
    {
      var c, _ := consumptionLimits.ResolveLimits(now);
      var p, _ := productionLimits.ResolveLimits(now);
      ec.attrs := ec.attrs.(effConsumption := c);
      ec.attrs := ec.attrs.(effProduction := p);
      if c.Some? || p.Some? {
        ec.attrs := ec.attrs.(control := Controlled);
      } else {
        ec.attrs := ec.attrs.(control := Autonomous);
      }
    }

    method EnsureZoneIndex(z: ZoneId) returns (idx: u8)
      requires Valid()
      modifies this`zoneIndexMap, this`indexZoneMap, this`nextIndex
      ensures Valid() && View() == EnsureIndex(old(View()), z)
      ensures z in zoneIndexMap && idx == zoneIndexMap[z]
    {
      if z in zoneIndexMap {
        return zoneIndexMap[z];
      }
      idx := nextIndex;
      zoneIndexMap := zoneIndexMap[z := idx];
      indexZoneMap := indexZoneMap[idx := z];
      nextIndex := (nextIndex + 1) % 256;
    }

    /** One direction of an accepted SetLimit: the value, then its timer. The timer manager's
        refusal of an invalid duration is ignored. */
    method StoreLimit(limits: MultiZoneValue, idx: u8, slot: Slot, zoneType: u8, v: int, dur: int, now: int)
      requires Valid() && slot.zone in zoneIndexMap && idx == zoneIndexMap[slot.zone]
      requires limits == if slot.dir.Consumption? then consumptionLimits else productionLimits
      modifies timers, limits
      ensures Valid() && View() == Store(old(View()), slot, zoneType, v, dur, now)
    {
      limits.Set(slot.zone, zoneType, v, dur, now);
      if dur > 0 {
        var _ := timers.SetTimer(idx, Command(slot.dir), dur, v, now);
      } else {
        var _ := timers.CancelTimer(idx, Command(slot.dir));
      }
    }

    /** The rest of SetLimit once the request has passed every check and carries a value. */
    method ApplyLimit(z: ZoneId, zoneType: u8, req: Request, now: int)
      requires Valid()
      modifies this, ec, timers, consumptionLimits, productionLimits
      ensures Valid() && consumptionLimits == old(consumptionLimits) && productionLimits == old(productionLimits)
      ensures View() == Finish(StoreBoth(old(View()), z, zoneType, req, now),
                               Note(z, SetChange(req.consumption), SetChange(req.production)), now)
    {
      var idx := EnsureZoneIndex(z);
      var dur := 0;
      if req.seconds.Some? && req.seconds.value > 0 {
        dur := req.seconds.value * SECOND;
      }
      if req.consumption.Some? {
        StoreLimit(consumptionLimits, idx, Slot(z, Consumption), zoneType, req.consumption.value, dur, now);
      }
      if req.production.Some? {
        StoreLimit(productionLimits, idx, Slot(z, Production), zoneType, req.production.value, dur, now);
      }
      assert View() == StoreBoth(old(View()), z, zoneType, req, now);
      ResolveAndApply(now);
      Send(Note(z, SetChange(req.consumption), SetChange(req.production)));
    }

    method HandleSetLimit(z: ZoneId, zoneType: u8, req: Request, now: int)
      returns (r: Result<Response, Direction>)
      requires Valid()
      modifies this, ec, timers, consumptionLimits, productionLimits
      ensures Valid() && consumptionLimits == old(consumptionLimits) && productionLimits == old(productionLimits)
      ensures View() == SetLimit(old(View()), cap, z, zoneType, req, now)
      ensures var verdict := Judge(old(View()), cap, z, req);
              match verdict
              case OverCapacity(d) => r == Err(d)
              case Accepted =>
                && r.Ok? && r.value.applied && r.value.control == View().attrs.control && r.value.verdict == Accepted
                && (if req.consumption.Some? || req.production.Some?
                    then r.value.effConsumption == View().attrs.effConsumption &&
                         r.value.effProduction == View().attrs.effProduction
                    else r.value.effConsumption == None && r.value.effProduction == None)
              case _ => r == Ok(Response(false, old(View()).attrs.control, None, None, verdict))
      ensures r == Err(Consumption) <==>
              && z != NO_ZONE
              && (req.consumption.Some? ==> req.consumption.value >= 0)
              && (req.production.Some? ==> req.production.value >= 0)
              && req.consumption.Some? && cap.consumption > 0 && req.consumption.value > cap.consumption
      ensures r == Err(Production) <==>
              && z != NO_ZONE
              && (req.consumption.Some? ==> req.consumption.value >= 0)
              && (req.production.Some? ==> req.production.value >= 0)
              && (req.consumption.Some? && cap.consumption > 0 ==> req.consumption.value <= cap.consumption)
              && req.production.Some? && cap.production > 0 && req.production.value > cap.production
      ensures r.Ok? && r.value.verdict == Overridden <==>
              && z != NO_ZONE && old(View()).attrs.control == Override
              && (req.consumption.Some? ==>
                    req.consumption.value >= 0 &&
                    (cap.consumption > 0 ==> req.consumption.value <= cap.consumption))
              && (req.production.Some? ==>
                    req.production.value >= 0 &&
                    (cap.production > 0 ==> req.production.value <= cap.production))
      ensures r.Ok? && r.value.applied <==>
              && z != NO_ZONE && old(View()).attrs.control != Override
              && (req.consumption.Some? ==>
                    req.consumption.value >= 0 &&
                    (cap.consumption > 0 ==> req.consumption.value <= cap.consumption))
              && (req.production.Some? ==>
                    req.production.value >= 0 &&
                    (cap.production > 0 ==> req.production.value <= cap.production))
    {
      if z == NO_ZONE {
        return Ok(Response(false, ec.attrs.control, None, None, NoZone));
      }
      if req.consumption.Some? && req.consumption.value < 0 {
        return Ok(Response(false, ec.attrs.control, None, None, Negative));
      }
      if req.production.Some? && req.production.value < 0 {
        return Ok(Response(false, ec.attrs.control, None, None, Negative));
      }
      if req.consumption.Some? && cap.consumption > 0 && req.consumption.value > cap.consumption {
        return Err(Consumption);
      }
      if req.production.Some? && cap.production > 0 && req.production.value > cap.production {
        return Err(Production);
      }
      if ec.attrs.control == Override {
        return Ok(Response(false, Override, None, None, Overridden));
      }
      if req.consumption.None? && req.production.None? {
        ClearZone(z, now);
        return Ok(Response(true, ec.attrs.control, None, None, Accepted));
      }

      ApplyLimit(z, zoneType, req, now);
      return Ok(Response(true, ec.attrs.control, ec.attrs.effConsumption, ec.attrs.effProduction, Accepted));
    }

    method HandleClearLimit(z: ZoneId, target: ClearTarget, now: int)
      requires Valid()
      modifies this`sent, ec, timers, consumptionLimits, productionLimits
      ensures Valid() && View() == ClearLimit(old(View()), z, target, now)
    {
      if z == NO_ZONE {
        return;
      }
      var hasIdx := z in zoneIndexMap;
      if target.Both? {
        consumptionLimits.Clear(z);
        productionLimits.Clear(z);
        if hasIdx {
          var _ := timers.CancelTimer(zoneIndexMap[z], LimitConsumption);
          var _ := timers.CancelTimer(zoneIndexMap[z], LimitProduction);
        }
      } else if target == Only(Consumption) {
        consumptionLimits.Clear(z);
        if hasIdx {
          var _ := timers.CancelTimer(zoneIndexMap[z], LimitConsumption);
        }
      } else if target == Only(Production) {
        productionLimits.Clear(z);
        if hasIdx {
          var _ := timers.CancelTimer(zoneIndexMap[z], LimitProduction);
        }
      }
      assert View() == DropBoth(old(View()), z, target);
      ResolveAndApply(now);
      Send(Note(z, ClearChange(target.Covers(Consumption)), ClearChange(target.Covers(Production))));
    }

    method ClearZoneLocked(z: ZoneId)
      requires Valid()
      modifies timers, consumptionLimits, productionLimits
      ensures Valid() && View() == DropZone(old(View()), z)
    {
      consumptionLimits.Clear(z);
      productionLimits.Clear(z);
      if z in zoneIndexMap {
        timers.CancelZoneTimers(zoneIndexMap[z]);
      }
    }

    method ClearZone(z: ZoneId, now: int)
      requires Valid()
      modifies this`sent, ec, timers, consumptionLimits, productionLimits
      ensures Valid() && View() == LimitSpec.ClearZone(old(View()), z, now)
    {
      ClearZoneLocked(z);
      ResolveAndApply(now);
      Send(Note(z, To(None), To(None)));
    }

    method CancelAllTimers()
      requires Valid()
      modifies timers
      ensures timers.timers == old(DropTimers(View()).timers)
    {
      var todo := zoneIndexMap.Keys;
      while todo != {}
        invariant todo <= zoneIndexMap.Keys
        invariant timers.timers == map key | key in old(timers.timers) &&
                    (forall z :: z in zoneIndexMap.Keys - todo ==> zoneIndexMap[z] != key.zone)
                    :: old(timers.timers)[key]
      {
        var z :| z in todo;
        timers.CancelZoneTimers(zoneIndexMap[z]);
        todo := todo - {z};
      }
    }

    /** Tells the zones that they have no limits, in whatever order they come. */
    method NotifyAllCleared(zones: set<ZoneId>)
      requires Valid()
      modifies this`sent
      ensures Fold(sent) == Forget(old(Fold(sent)), zones)
    {
      ghost var my := Fold(sent);
      var todo := zones;
      while todo != {}
        invariant todo <= zones
        invariant Fold(sent) == Forget(my, zones - todo)
      {
        var z :| z in todo;
        ForgetNext(my, zones - todo, z);
        Send(Note(z, To(None), To(None)));
        assert zones - todo + {z} == zones - (todo - {z});
        todo := todo - {z};
      }
    }

    /** What a reset does under its lock; returns the zones that are to be told once it is released. */
    method ResetUnderLock(now: int) returns (zones: set<ZoneId>)
      requires Valid()
      modifies this, ec, timers
      ensures Valid() && fresh(Repr() - old(Repr()))
      ensures View() == ResetSilently(old(View()), now) && zones == View().zoneIndex.Keys
    {
      CancelAllTimers();
      zones := zoneIndexMap.Keys;
      consumptionLimits := new MultiZoneValue();
      productionLimits := new MultiZoneValue();
      assert View() == DropTimers(old(View()).(consumption := map[], production := map[]));
      ResolveAndApply(now);
    }

    /** Both parts with nothing between them. */
    method ResetAll(now: int)
      requires Valid()
      modifies this, ec, timers
      ensures Valid() && fresh(Repr() - old(Repr()))
      ensures View() == LimitSpec.ResetAll(old(View()), now)
    {
      var zones := ResetUnderLock(now);
      NotifyAllCleared(zones);
    }

    method HandleTimerExpiry(key: TimerKey, now: int)
      requires Valid()
      modifies this`sent, ec, consumptionLimits, productionLimits
      ensures Valid() && View() == OnExpiry(old(View()), key, now)
    {
      if key.zone !in indexZoneMap {
        return;
      }
      var z := indexZoneMap[key.zone];
      match key.cmd {
        case LimitConsumption => consumptionLimits.Clear(z);
        case LimitProduction => productionLimits.Clear(z);
        case _ =>
      }
      ResolveAndApply(now);
      Send(Note(z, ClearChange(key.cmd.LimitConsumption?), ClearChange(key.cmd.LimitProduction?)));
    }

    /** A timer going off: the table entry leaves first, then the callback runs. */
    method ExpireTimer(key: TimerKey, now: int)
      requires Valid()
      modifies this`sent, ec, timers, consumptionLimits, productionLimits
      ensures Valid() && View() == Expire(old(View()), key, now)
    {
      var value := timers.ExpireTimer(key);
      if value.Some? {
        HandleTimerExpiry(key, now);
      }
    }

    /** The read hook for a zone's own limits. */
    method ReadMyLimit(slot: Slot) returns (v: Option<int>)
      requires Valid()
      ensures v == ReadMy(View(), slot)
    {
      if slot.zone == NO_ZONE {
        return None;
      }
      var values := if slot.dir.Consumption? then consumptionLimits.values else productionLimits.values;
      if slot.zone !in values {
        return None;
      }
      return Some(values[slot.zone].value);
    }
  }
}
