/** The duration-timer table: one timer for each (zone index, command type).
    Times are nanoseconds of a logical clock that callers pass in. */
module DurationManager {
  import opened Wrappers

  const SECOND := 1_000_000_000
  const MIN_DURATION := SECOND
  const MAX_DURATION := 24 * 3600 * SECOND

  datatype CommandType =
    | LimitConsumption
    | LimitProduction
    | CurrentLimitConsumption
    | CurrentLimitProduction
    | SetpointConsumption
    | SetpointProduction
    | CurrentSetpointConsumption
    | CurrentSetpointProduction
    | Pause

  datatype TimerKey = TimerKey(zone: u8, cmd: CommandType)

  datatype Timer = Timer(start: int, duration: int, value: int) {
    function Deadline(): int { start + duration }
  }

  type Table = map<TimerKey, Timer>

  predicate ValidDuration(d: int) {
    MIN_DURATION <= d <= MAX_DURATION
  }

  /** An invalid duration leaves the table, and any timer already under the key, as it was. */
  function Arm(t: Table, key: TimerKey, d: int, value: int, now: int): Table {
    if ValidDuration(d) then t[key := Timer(now, d, value)] else t
  }

  function WithoutZone(t: Table, zone: u8): Table {
    map key | key in t && key.zone != zone :: t[key]
  }

  class Manager {
    var timers: Table

    constructor ()
      ensures timers == map[]
    {
      timers := map[];
    }

    method SetTimer(zone: u8, cmd: CommandType, d: int, value: int, now: int) returns (ok: bool)
      modifies this
      ensures ok <==> 1_000_000_000 <= d <= 86_400_000_000_000
      ensures ok ==> TimerKey(zone, cmd) in timers && timers[TimerKey(zone, cmd)] == Timer(now, d, value)
      ensures timers == Arm(old(timers), TimerKey(zone, cmd), d, value, now)
    {
      if d < MIN_DURATION {
        return false;
      }
      if d > MAX_DURATION {
        return false;
      }
      timers := timers[TimerKey(zone, cmd) := Timer(now, d, value)];
      return true;
    }

    method CancelTimer(zone: u8, cmd: CommandType) returns (found: bool)
      modifies this
      ensures found == (TimerKey(zone, cmd) in old(timers))
      ensures timers == old(timers) - {TimerKey(zone, cmd)}
    {
      var key := TimerKey(zone, cmd);
      if key !in timers {
        return false;
      }
      timers := timers - {key};
      return true;
    }

    method CancelZoneTimers(zone: u8)
      modifies this
      ensures timers == WithoutZone(old(timers), zone)
    {
      var todo := timers.Keys;
      while todo != {}
        invariant todo <= timers.Keys
        invariant timers == map key | key in old(timers) && (key.zone != zone || key in todo) :: old(timers)[key]
      {
        var key :| key in todo;
        if key.zone == zone {
          timers := timers - {key};
        }
        todo := todo - {key};
      }
    }

    /** Removes the timer and returns its value, which the caller hands to the expiry callback;
        a key without a timer triggers no callback. */
    method ExpireTimer(key: TimerKey) returns (value: Option<int>)
      modifies this
      ensures value == if key in old(timers) then Some(old(timers)[key].value) else None
      ensures timers == old(timers) - {key}
    {
      if key !in timers {
        return None;
      }
      value := Some(timers[key].value);
      timers := timers - {key};
    }
  }
}
