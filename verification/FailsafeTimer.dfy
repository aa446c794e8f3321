/** The failsafe timer as the object whose methods update its fields. */
module FailsafeTimer {
  import opened Wrappers
  import opened FailsafeSpec

  class Timer {
    var phase: Phase
    var duration: int
    var gracePeriod: int
    var limits: Limits
    var failsafeTimer: Option<nat>
    var gracePeriodTimer: Option<nat>
    var startedAt: Option<int>
    /** Go's side: the timers this object has started that are still to fire. */
    var armed: map<nat, Armed>
    var nextTimer: nat
    /** Every call of a callback, in order. */
    var calls: seq<Call>

    ghost function View(): State
      reads this
    {
      State(phase, duration, gracePeriod, limits, failsafeTimer, gracePeriodTimer, startedAt, armed, nextTimer, calls)
    }

    constructor (d: int, g: int, l: Limits)
      ensures View() == New(if d == 0 then DEFAULT_DURATION else d, if g == 0 then DEFAULT_GRACE else g, l)
    {
      phase, duration, gracePeriod, limits := Normal, d, g, l;
      failsafeTimer, gracePeriodTimer, startedAt := None, None, None;
      armed, nextTimer, calls := map[], 0, [];
      new;
      if duration == 0 {
        duration := DEFAULT_DURATION;
      }
      if gracePeriod == 0 {
        gracePeriod := DEFAULT_GRACE;
      }
    }

    method AfterFunc(kind: Kind, deadline: int) returns (handle: nat)
      modifies this`armed, this`nextTimer
      ensures handle == old(nextTimer) && View() == FailsafeSpec.AfterFunc(old(View()), kind, deadline)
    {
      handle := nextTimer;
      armed, nextTimer := armed[handle := Armed(kind, deadline)], nextTimer + 1;
    }

    method Start(now: int)
      modifies this
      ensures View() == FailsafeSpec.Start(old(View()), now)
    {
      if phase == TimerRunning || phase == Failsafe {
        return;
      }
      var oldPhase := phase;
      phase := TimerRunning;
      startedAt := Some(now);
      var handle := AfterFunc(FailsafeKind, now + duration);
      failsafeTimer := Some(handle);
      calls := calls + [Changed(oldPhase, phase)];
    }

    method Stop(now: int)
      modifies this
      ensures View() == FailsafeSpec.Stop(old(View()), now)
    {
      if phase == Normal {
        return;
      }
      var oldPhase := phase;
      var wasFailsafe := phase == Failsafe;
      if failsafeTimer.Some? {
        armed := armed - {failsafeTimer.value};
        failsafeTimer := None;
      }
      if wasFailsafe && gracePeriod > 0 {
        phase := GracePeriod;
        var handle := AfterFunc(GraceKind, now + gracePeriod);
        gracePeriodTimer := Some(handle);
      } else {
        phase := Normal;
      }
      ghost var before := calls;
      calls := calls + [Changed(oldPhase, phase)];
      if wasFailsafe {
        calls := calls + [Exited];
        assert calls == before + [Changed(oldPhase, phase), Exited];
      }
    }

    method StopBothTimers()
      modifies this`armed, this`failsafeTimer, this`gracePeriodTimer
      ensures View() == StopBoth(old(View()))
    {
      if failsafeTimer.Some? {
        armed := armed - {failsafeTimer.value};
        failsafeTimer := None;
      }
      if gracePeriodTimer.Some? {
        armed := armed - {gracePeriodTimer.value};
        gracePeriodTimer := None;
      }
    }

    method Reset()
      modifies this
      ensures View() == FailsafeSpec.Reset(old(View()))
    {
      var oldPhase := phase;
      StopBothTimers();
      phase := Normal;
      startedAt := None;
      if oldPhase != Normal {
        calls := calls + [Changed(oldPhase, Normal)];
      } else {
        assert calls + [] == calls;
      }
    }

    /** One of the armed timers goes off. */
    method Fire(id: nat)
      requires id in armed
      modifies this
      ensures View() == FailsafeSpec.Fire(old(View()), id)
    {
      var kind := armed[id].kind;
      armed := armed - {id};
      if kind.FailsafeKind? {
        EnterFailsafe();
      } else {
        ExitGracePeriod();
      }
    }

    method EnterFailsafe()
      modifies this
      ensures View() == FailsafeSpec.EnterFailsafe(old(View()))
    {
      if phase != TimerRunning {
        return;
      }
      phase := Failsafe;
      failsafeTimer := None;
      calls := calls + [Changed(TimerRunning, Failsafe), Entered(limits)];
    }

    method ExitGracePeriod()
      modifies this
      ensures View() == FailsafeSpec.ExitGracePeriod(old(View()))
    {
      if phase != GracePeriod {
        return;
      }
      phase := Normal;
      gracePeriodTimer := None;
      calls := calls + [Changed(GracePeriod, Normal)];
    }

    method SetDuration(d: int) returns (ok: bool)
      modifies this`duration
      ensures ok <==> 7_200_000_000_000 <= d <= 86_400_000_000_000
      ensures duration == if ok then d else old(duration)
      ensures View() == FailsafeSpec.SetDuration(old(View()), d)
    {
      if d < MIN_DURATION || d > MAX_DURATION {
        return false;
      }
      duration := d;
      return true;
    }

    method RemainingTime(now: int) returns (r: int)
      requires phase == TimerRunning ==> startedAt.Some?
      ensures r == FailsafeSpec.RemainingTime(View(), now)
    {
      if phase != TimerRunning {
        return 0;
      }
      var elapsed := now - startedAt.value;
      r := duration - elapsed;
      if r < 0 {
        return 0;
      }
    }

    method Snapshot(now: int) returns (snap: TimerSnapshot)
      requires phase == TimerRunning ==> startedAt.Some?
      ensures snap == TakeSnapshot(View(), now)
    {
      snap := TimerSnapshot(phase, duration, None, 0, limits);
      if phase == TimerRunning {
        var elapsed := now - startedAt.value;
        var remaining := duration - elapsed;
        if remaining < 0 {
          remaining := 0;
        }
        snap := snap.(startedAt := startedAt, remaining := remaining);
      }
    }

    method Restore(snap: TimerSnapshot, now: int)
      modifies this
      ensures limits == snap.limits
      ensures View() == FailsafeSpec.Restore(old(View()), snap, now)
    {
      StopBothTimers();
      if snap.duration > 0 {
        duration := snap.duration;
      }
      limits := snap.limits;
      match snap.phase {
        case Normal =>
          phase, startedAt := Normal, None;
        case TimerRunning =>
          var remaining := 0;
          if snap.remaining > 0 {
            remaining := snap.remaining;
          } else if snap.startedAt.Some? {
            remaining := snap.duration - (now - snap.startedAt.value);
          }
          if remaining <= 0 {
            phase, startedAt := Failsafe, None;
            calls := calls + [Entered(limits)];
          } else {
            phase, startedAt, duration := TimerRunning, Some(now), remaining;
            var handle := AfterFunc(FailsafeKind, now + remaining);
            failsafeTimer := Some(handle);
          }
        case Failsafe =>
          phase, startedAt := Failsafe, None;
        case GracePeriod =>
          phase, startedAt := Normal, None;
      }
    }
  }

  /** Refuses a duration that is neither zero nor within 2 to 24 hours. */
  method NewTimerWithConfig(d: int, g: int, l: Limits) returns (r: Option<Timer>)
    ensures r.None? <==> d != 0 && !(7_200_000_000_000 <= d <= 86_400_000_000_000)
    ensures r.Some? ==>
              && fresh(r.value)
              && r.value.phase == Normal && r.value.limits == l
              && r.value.duration == (if d == 0 then 14_400_000_000_000 else d)
              && r.value.gracePeriod == (if g == 0 then 300_000_000_000 else g)
              && r.value.View() == New(r.value.duration, r.value.gracePeriod, l)
  {
    if d != 0 && (d < MIN_DURATION || d > MAX_DURATION) {
      return None;
    }
    var timer := new Timer(d, g, l);
    return Some(timer);
  }
}
