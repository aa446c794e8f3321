/** The failsafe timer on values: the four phases, the Go timers it has started, and the calls it
    makes back. Times are nanoseconds of a logical clock. */
module FailsafeSpec {
  import opened Wrappers

  const HOUR := 3600 * 1_000_000_000
  const MIN_DURATION := 2 * HOUR
  const MAX_DURATION := 24 * HOUR
  const DEFAULT_DURATION := 4 * HOUR
  const DEFAULT_GRACE := 300 * 1_000_000_000

  datatype Phase = Normal | TimerRunning | Failsafe | GracePeriod

  datatype Limits = Limits(consumption: Option<int>, production: Option<int>)

  datatype Kind = FailsafeKind | GraceKind

  /** A Go timer that has been started and has neither fired nor been stopped. */
  datatype Armed = Armed(kind: Kind, deadline: int)

  datatype Call = Changed(from: Phase, to: Phase) | Entered(limits: Limits) | Exited

  datatype State = State(
    phase: Phase,
    duration: int,
    grace: int,
    limits: Limits,
    failsafeTimer: Option<nat>,
    graceTimer: Option<nat>,
    startedAt: Option<int>,
    armed: map<nat, Armed>,
    nextTimer: nat,
    calls: seq<Call>)

  datatype TimerSnapshot = TimerSnapshot(phase: Phase, duration: int, startedAt: Option<int>, remaining: int,
                                         limits: Limits)

  function New(duration: int, grace: int, limits: Limits): State {
    State(Normal, duration, grace, limits, None, None, None, map[], 0, [])
  }

  /** time.AfterFunc; the caller keeps the handle "s.nextTimer". */
  function AfterFunc(s: State, kind: Kind, deadline: int): State {
    s.(armed := s.armed[s.nextTimer := Armed(kind, deadline)], nextTimer := s.nextTimer + 1)
  }

  function StopTimer(s: State, handle: Option<nat>): State {
    if handle.Some? then s.(armed := s.armed - {handle.value}) else s
  }

  function Notify(s: State, calls: seq<Call>): State {
    s.(calls := s.calls + calls)
  }

  function Start(s: State, now: int): State {
    if s.phase == TimerRunning || s.phase == Failsafe then s
    else
      Notify(AfterFunc(s, FailsafeKind, now + s.duration)
             .(phase := TimerRunning, startedAt := Some(now), failsafeTimer := Some(s.nextTimer)),
             [Changed(s.phase, TimerRunning)])
  }

  /** The grace timer, if one is armed, is left alone. */
  function Stop(s: State, now: int): State {
    if s.phase == Normal then s
    else
      var s1 := StopTimer(s, s.failsafeTimer).(failsafeTimer := None);
      if s.phase == Failsafe then
        if s.grace > 0 then
          Notify(AfterFunc(s1, GraceKind, now + s.grace).(phase := GracePeriod, graceTimer := Some(s1.nextTimer)),
                 [Changed(Failsafe, GracePeriod), Exited])
        else
          Notify(s1.(phase := Normal), [Changed(Failsafe, Normal), Exited])
      else
        Notify(s1.(phase := Normal), [Changed(s.phase, Normal)])
  }

  function StopBoth(s: State): State {
    StopTimer(StopTimer(s, s.failsafeTimer), s.graceTimer).(failsafeTimer := None, graceTimer := None)
  }

  function Reset(s: State): State {
    Notify(StopBoth(s).(phase := Normal, startedAt := None),
           if s.phase == Normal then [] else [Changed(s.phase, Normal)])
  }

  function EnterFailsafe(s: State): State {
    if s.phase != TimerRunning then s
    else Notify(s.(phase := Failsafe, failsafeTimer := None), [Changed(TimerRunning, Failsafe), Entered(s.limits)])
  }

  function ExitGracePeriod(s: State): State {
    if s.phase != GracePeriod then s
    else Notify(s.(phase := Normal, graceTimer := None), [Changed(GracePeriod, Normal)])
  }

  /** Go starts a timer's function at its deadline or later. */
  predicate Due(s: State, id: nat, now: int) {
    id in s.armed && now >= s.armed[id].deadline
  }

  function Fire(s: State, id: nat): State
    requires id in s.armed
  {
    var s1 := s.(armed := s.armed - {id});
    if s.armed[id].kind.FailsafeKind? then EnterFailsafe(s1) else ExitGracePeriod(s1)
  }

  predicate ValidDuration(d: int) {
    MIN_DURATION <= d <= MAX_DURATION
  }

  function SetDuration(s: State, d: int): State {
    if ValidDuration(d) then s.(duration := d) else s
  }

  function Clamp(t: int): int {
    if t < 0 then 0 else t
  }

  function RemainingTime(s: State, now: int): int {
    if s.phase == TimerRunning && s.startedAt.Some? then Clamp(s.duration - (now - s.startedAt.value)) else 0
  }

  function TakeSnapshot(s: State, now: int): TimerSnapshot {
    if s.phase == TimerRunning then
      TimerSnapshot(s.phase, s.duration, s.startedAt, RemainingTime(s, now), s.limits)
    else
      TimerSnapshot(s.phase, s.duration, None, 0, s.limits)
  }

  /** How much time a snapshot of a running timer leaves when it is restored. */
  function Left(snap: TimerSnapshot, now: int): int {
    if snap.remaining > 0 then snap.remaining
    else if snap.startedAt.Some? then snap.duration - (now - snap.startedAt.value)
    else 0
  }

  function Restore(s: State, snap: TimerSnapshot, now: int): State {
    var s1 := StopBoth(s).(duration := if snap.duration > 0 then snap.duration else s.duration, limits := snap.limits);
    match snap.phase
    case Normal => s1.(phase := Normal, startedAt := None)
    case GracePeriod => s1.(phase := Normal, startedAt := None)
    case Failsafe => s1.(phase := Failsafe, startedAt := None)
    case TimerRunning =>
      var r := Left(snap, now);
      if r <= 0 then
        Notify(s1.(phase := Failsafe, startedAt := None), [Entered(snap.limits)])
      else
        AfterFunc(s1, FailsafeKind, now + r)
        .(phase := TimerRunning, startedAt := Some(now), duration := r, failsafeTimer := Some(s1.nextTimer))
  }
}
