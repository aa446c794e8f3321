/** Whole runs of the failsafe timer against a clock. */
module FailsafeRuns {
  import opened Wrappers
  import opened FailsafeSpec

  datatype Event =
    | Starts
    | Stops
    | Resets
    | Fires(id: nat)
    | Wait(d: nat)
    | SetsDuration(duration: int)
    | SetsLimits(limits: Limits)
    | Restores(snap: TimerSnapshot)

  datatype System = System(s: State, now: int)

  /** An event that is not enabled leaves the system as it is. */
  function Step(x: System, e: Event): System {
    match e
    case Starts => x.(s := Start(x.s, x.now))
    case Stops => x.(s := Stop(x.s, x.now))
    case Resets => x.(s := Reset(x.s))
    case Fires(id) => if Due(x.s, id, x.now) then x.(s := Fire(x.s, id)) else x
    case Wait(d) => x.(now := x.now + d)
    case SetsDuration(d) => x.(s := SetDuration(x.s, d))
    case SetsLimits(l) => x.(s := x.s.(limits := l))
    case Restores(snap) => x.(s := Restore(x.s, snap, x.now))
  }

  function Run(x: System, es: seq<Event>): System {
    if es == [] then x else Step(Run(x, es[..|es| - 1]), es[|es| - 1])
  }

  // ---- The failsafe timer is armed exactly while the phase says so ----

  predicate HandleOk(s: State, h: Option<nat>) {
    h.Some? ==> h.value < s.nextTimer
  }

  /** There is at most one armed failsafe timer, the one whose handle is held, and there is one exactly
      in phase TIMER_RUNNING. */
  ghost predicate LiveIffRunning(s: State) {
    && (forall id :: id in s.armed ==> id < s.nextTimer)
    && (forall id :: id in s.armed && s.armed[id].kind.FailsafeKind? ==> s.failsafeTimer == Some(id))
    && HandleOk(s, s.graceTimer)
    && (s.graceTimer.Some? && s.graceTimer.value in s.armed ==> s.armed[s.graceTimer.value].kind.GraceKind?)
    && (s.phase == TimerRunning <==> s.failsafeTimer.Some?)
    && (s.failsafeTimer.Some? ==> s.failsafeTimer.value in s.armed && s.armed[s.failsafeTimer.value].kind.FailsafeKind?)
    && (s.phase == TimerRunning ==> s.startedAt.Some?)
  }

  /** The instant at which the armed failsafe timer is due. */
  function Deadline(s: State): Option<int> {
    if s.failsafeTimer.Some? && s.failsafeTimer.value in s.armed
    then Some(s.armed[s.failsafeTimer.value].deadline)
    else None
  }

  ghost predicate OnSchedule(s: State) {
    LiveIffRunning(s) && (s.phase == TimerRunning ==> Deadline(s) == Some(s.startedAt.value + s.duration))
  }

  /** The configured duration is left alone while the timer runs. */
  predicate Steady(x: System, e: Event) {
    e.SetsDuration? ==> x.s.phase != TimerRunning
  }

  lemma StartLive(s: State, now: int)
    requires LiveIffRunning(s)
    ensures LiveIffRunning(Start(s, now))
    ensures OnSchedule(s) ==> OnSchedule(Start(s, now))
  {
  }

  lemma StopLive(s: State, now: int)
    requires LiveIffRunning(s)
    ensures LiveIffRunning(Stop(s, now)) && Stop(s, now).phase != TimerRunning
  {
  }

  lemma StopBothLive(s: State)
    requires LiveIffRunning(s)
    ensures StopBoth(s).failsafeTimer == None && StopBoth(s).graceTimer == None
    ensures forall id :: id in StopBoth(s).armed ==> id < s.nextTimer && StopBoth(s).armed[id].kind.GraceKind?
  {
  }

  lemma RestoreLive(s: State, snap: TimerSnapshot, now: int)
    requires LiveIffRunning(s)
    ensures OnSchedule(Restore(s, snap, now))
  {
    StopBothLive(s);
  }

  lemma FireLive(s: State, id: nat)
    requires LiveIffRunning(s) && id in s.armed
    ensures LiveIffRunning(Fire(s, id))
    ensures OnSchedule(s) ==> OnSchedule(Fire(s, id))
  {
  }

  lemma StepLive(x: System, e: Event)
    requires LiveIffRunning(x.s)
    ensures LiveIffRunning(Step(x, e).s)
    ensures OnSchedule(x.s) && Steady(x, e) ==> OnSchedule(Step(x, e).s)
  {
    match e {
      case Starts => StartLive(x.s, x.now);
      case Stops => StopLive(x.s, x.now);
      case Resets => StopBothLive(x.s);
      case Fires(id) =>
        if Due(x.s, id, x.now) {
          FireLive(x.s, id);
        }
      case Restores(snap) => RestoreLive(x.s, snap, x.now);
      case _ =>
    }
  }

  ghost predicate SteadyRun(x: System, es: seq<Event>) {
    forall i :: 0 <= i < |es| ==> Steady(Run(x, es[..i]), es[i])
  }

  lemma {:induction false} LiveAlways(x: System, es: seq<Event>)
    requires OnSchedule(x.s)
    ensures LiveIffRunning(Run(x, es).s)
    ensures SteadyRun(x, es) ==> OnSchedule(Run(x, es).s)
  {
    if es != [] {
      var init := es[..|es| - 1];
      LiveAlways(x, init);
      if SteadyRun(x, es) {
        forall i | 0 <= i < |init|
          ensures Steady(Run(x, init[..i]), init[i])
        {
          assert init[..i] == es[..i];
        }
        assert Steady(Run(x, es[..|es| - 1]), es[|es| - 1]);
      }
      StepLive(Run(x, init), es[|es| - 1]);
    }
  }

  /** In runs that leave the duration alone while the timer runs, RemainingTime is the distance to the
      armed deadline, and nothing is armed or remaining in any other phase. */
  lemma RemainingIsDistance(x: System, es: seq<Event>)
    requires OnSchedule(x.s) && SteadyRun(x, es)
    ensures var y := Run(x, es);
            if y.s.phase == TimerRunning
            then Deadline(y.s).Some? && RemainingTime(y.s, y.now) == Clamp(Deadline(y.s).value - y.now)
            else RemainingTime(y.s, y.now) == 0 && forall id :: id in y.s.armed ==> y.s.armed[id].kind.GraceKind?
  {
    hide Step, Run;
    LiveAlways(x, es);
    var y := Run(x, es);
    ScheduleDistance(y.s, y.now);
  }

  lemma ScheduleDistance(s: State, now: int)
    requires OnSchedule(s)
    ensures if s.phase == TimerRunning
            then Deadline(s).Some? && RemainingTime(s, now) == Clamp(Deadline(s).value - now)
            else RemainingTime(s, now) == 0 && forall id :: id in s.armed ==> s.armed[id].kind.GraceKind?
  {
  }

  /** Changing the duration of a running timer moves the reported remaining time but not the deadline:
      the report stays right exactly when nothing changed or both readings are already zero. */
  lemma SetDurationWhileRunning(s: State, d: int, now: int)
    requires OnSchedule(s) && s.phase == TimerRunning && ValidDuration(d)
    ensures Deadline(SetDuration(s, d)) == Deadline(s) && Deadline(s).Some?
    ensures RemainingTime(SetDuration(s, d), now) == Clamp(Deadline(s).value - now) <==>
            d == s.duration || (now - s.startedAt.value >= d && now - s.startedAt.value >= s.duration)
  {
  }

  // ---- FAILSAFE is never entered early ----

  /** At position "k" the timer was started, and up to the end of the run nothing stopped it. */
  ghost predicate StartedAt(x: System, es: seq<Event>, k: nat)
    requires k < |es|
  {
    && es[k] == Starts
    && Run(x, es[..k]).s.phase != TimerRunning && Run(x, es[..k]).s.phase != Failsafe
    && (forall j :: k < j < |es| ==> !es[j].Stops? && !es[j].Resets?)
  }

  predicate NoRestore(es: seq<Event>) {
    forall e :: e in es ==> !e.Restores?
  }

  /** A step without Restore that leaves the timer running either started it or kept its deadline. */
  lemma StepKeepsDeadline(x: System, e: Event)
    requires LiveIffRunning(x.s) && !e.Restores? && Step(x, e).s.phase == TimerRunning
    ensures LiveIffRunning(Step(x, e).s)
    ensures if x.s.phase == TimerRunning then
              Deadline(Step(x, e).s) == Deadline(x.s) && !e.Stops? && !e.Resets?
            else
              e == Starts && x.s.phase != Failsafe && Deadline(Step(x, e).s) == Some(x.now + x.s.duration)
  {
    StepLive(x, e);
  }

  lemma StartedEarlier(x: System, es: seq<Event>, k: nat)
    requires es != [] && k < |es| - 1 && StartedAt(x, es[..|es| - 1], k)
    requires !es[|es| - 1].Stops? && !es[|es| - 1].Resets?
    ensures StartedAt(x, es, k) && es[..|es| - 1][..k] == es[..k]
  {
    hide Run;
    assert es[..|es| - 1][..k] == es[..k];
  }

  lemma RunLast(x: System, es: seq<Event>)
    requires Run(x, es).s.phase != x.s.phase
    ensures es != [] && Run(x, es) == Step(Run(x, es[..|es| - 1]), es[|es| - 1])
  {
  }

  /** A running timer goes back to a Start that nothing has undone since, and its deadline is a whole
      duration after that Start. */
  lemma {:induction false} RunningSince(x: System, es: seq<Event>) returns (k: nat)
    requires OnSchedule(x.s) && x.s.phase != TimerRunning && NoRestore(es)
    requires Run(x, es).s.phase == TimerRunning
    ensures k < |es| && StartedAt(x, es, k)
    ensures LiveIffRunning(Run(x, es).s)
    ensures Deadline(Run(x, es).s) == Some(Run(x, es[..k]).now + Run(x, es[..k]).s.duration)
  {
    hide Run, Step, LiveIffRunning, OnSchedule, Deadline;
    RunLast(x, es);
    var init, e := es[..|es| - 1], es[|es| - 1];
    assert e in es && forall d :: d in init ==> d in es;
    LiveAlways(x, init);
    StepKeepsDeadline(Run(x, init), e);
    if Run(x, init).s.phase == TimerRunning {
      k := RunningSince(x, init);
      StartedEarlier(x, es, k);
    } else {
      k := |es| - 1;
    }
  }

  /** Whenever the timer's expiry puts the device into FAILSAFE, a whole duration (as configured then)
      has passed since a Start after which nothing stopped or reset the timer. */
  lemma NeverEarly(x: System, es: seq<Event>, id: nat) returns (k: nat)
    requires OnSchedule(x.s) && x.s.phase != TimerRunning && NoRestore(es)
    requires Run(x, es).s.phase != Failsafe && Step(Run(x, es), Fires(id)).s.phase == Failsafe
    ensures k < |es| && StartedAt(x, es, k)
    ensures Run(x, es).now >= Run(x, es[..k]).now + Run(x, es[..k]).s.duration
  {
    LiveAlways(x, es);
    k := RunningSince(x, es);
  }

  // ---- The callbacks ----

  predicate Legal(from: Phase, to: Phase) {
    match from
    case Normal => to == TimerRunning
    case TimerRunning => to == Failsafe || to == Normal
    case Failsafe => to == GracePeriod || to == Normal
    case GracePeriod => to == Normal || to == TimerRunning
  }

  /** The phase that the reported changes lead to from "p", when each is a legal transition out of the
      phase before it. */
  function Follow(p: Phase, calls: seq<Call>): Option<Phase> {
    if calls == [] then Some(p)
    else
      var before := Follow(p, calls[..|calls| - 1]);
      match calls[|calls| - 1]
      case Changed(from, to) => if before == Some(from) && Legal(from, to) then Some(to) else None
      case _ => before
  }

  /** Enters minus exits. */
  function Balance(calls: seq<Call>): int {
    if calls == [] then 0
    else Balance(calls[..|calls| - 1]) +
         match calls[|calls| - 1]
         case Entered(_) => 1
         case Exited => -1
         case _ => 0
  }

  /** Each enter is followed by an exit before the next enter. */
  ghost predicate Alternate(calls: seq<Call>) {
    forall i :: 0 <= i <= |calls| ==> 0 <= Balance(calls[..i]) <= 1
  }

  lemma FollowAppend(p: Phase, calls: seq<Call>, c: Call)
    ensures Follow(p, calls + [c]) ==
            match c
            case Changed(from, to) => if Follow(p, calls) == Some(from) && Legal(from, to) then Some(to) else None
            case _ => Follow(p, calls)
    ensures Balance(calls + [c]) == Balance(calls) + match c case Entered(_) => 1 case Exited => -1 case _ => 0
    ensures Alternate(calls) && 0 <= Balance(calls + [c]) <= 1 ==> Alternate(calls + [c])
  {
    assert (calls + [c])[..|calls|] == calls;
    if Alternate(calls) && 0 <= Balance(calls + [c]) <= 1 {
      forall i | 0 <= i <= |calls| + 1
        ensures 0 <= Balance((calls + [c])[..i]) <= 1
      {
        if i <= |calls| {
          assert (calls + [c])[..i] == calls[..i];
        } else {
          assert (calls + [c])[..i] == calls + [c];
        }
      }
    }
  }

  ghost predicate Reported(s: State) {
    Follow(Normal, s.calls) == Some(s.phase)
  }

  ghost predicate Paired(s: State) {
    Alternate(s.calls) && Balance(s.calls) == if s.phase == Failsafe then 1 else 0
  }

  /** What a step appends to the calls. */
  function NewCalls(x: System, e: Event): seq<Call> {
    var p := x.s.phase;
    match e
    case Starts => if p == Normal || p == GracePeriod then [Changed(p, TimerRunning)] else []
    case Stops =>
      if p == Normal then []
      else if p == Failsafe then [Changed(p, if x.s.grace > 0 then GracePeriod else Normal), Exited]
      else [Changed(p, Normal)]
    case Resets => if p == Normal then [] else [Changed(p, Normal)]
    case Fires(id) =>
      if !Due(x.s, id, x.now) then []
      else if x.s.armed[id].kind.FailsafeKind? then
        if p == TimerRunning then [Changed(p, Failsafe), Entered(x.s.limits)] else []
      else if p == GracePeriod then [Changed(p, Normal)] else []
    case _ => []
  }

  lemma StepCalls(x: System, e: Event)
    requires !e.Restores?
    ensures Step(x, e).s.calls == x.s.calls + NewCalls(x, e)
  {
    assert x.s.calls + [] == x.s.calls;
  }

  /** A step reports nothing and stays in its phase, or reports one legal change of phase; entering
      FAILSAFE is followed by "entered", leaving it other than by Reset by "exited". */
  lemma StepPhase(x: System, e: Event)
    requires !e.Restores?
    ensures var c, p, p' := NewCalls(x, e), x.s.phase, Step(x, e).s.phase;
            || (c == [] && p' == p)
            || (c == [Changed(p, p')] && Legal(p, p') && p' != Failsafe && (p == Failsafe ==> e.Resets?))
            || (c == [Changed(p, p'), Entered(x.s.limits)] && p == TimerRunning && p' == Failsafe)
            || (c == [Changed(p, p'), Exited] && p == Failsafe && Legal(p, p'))
  {
  }

  lemma StepReports(x: System, e: Event)
    requires !e.Restores? && Reported(x.s)
    ensures Reported(Step(x, e).s)
    ensures !e.Resets? && Paired(x.s) ==> Paired(Step(x, e).s)
  {
    hide Step, NewCalls, Follow, Balance, Alternate;
    StepCalls(x, e);
    StepPhase(x, e);
    var c := NewCalls(x, e);
    if c == [] {
      assert x.s.calls + c == x.s.calls;
    } else {
      FollowAppend(Normal, x.s.calls, c[0]);
      if |c| == 2 {
        FollowAppend(Normal, x.s.calls + [c[0]], c[1]);
        assert x.s.calls + c == x.s.calls + [c[0]] + [c[1]];
      }
    }
  }

  /** Without Restore, the reported changes form one connected path of legal transitions that ends in
      the current phase. Without Reset as well, failsafe-enter and failsafe-exit strictly alternate, and
      the phase is FAILSAFE exactly when the last enter has no exit yet. */
  lemma {:induction false} CallbackTrace(duration: int, grace: int, limits: Limits, es: seq<Event>)
    requires NoRestore(es)
    ensures var s := Run(System(New(duration, grace, limits), 0), es).s;
            && Follow(Normal, s.calls) == Some(s.phase)
            && ((forall e :: e in es ==> !e.Resets?) ==>
                  Alternate(s.calls) && (s.phase == Failsafe <==> Balance(s.calls) == 1) && Paired(s))
  {
    if es != [] {
      var init, e := es[..|es| - 1], es[|es| - 1];
      assert e in es && forall d :: d in init ==> d in es;
      CallbackTrace(duration, grace, limits, init);
      StepReports(Run(System(New(duration, grace, limits), 0), init), e);
    }
  }

  // ---- Snapshots ----

  /** A restored running timer fires exactly the remaining time later; one with nothing left is in
      FAILSAFE at once, with no timer armed; the other phases come back as themselves, except that a
      grace period is forgotten. */
  lemma RestoreResumes(into: State, snap: TimerSnapshot, now: int)
    requires LiveIffRunning(into)
    ensures var s := Restore(into, snap, now);
            && OnSchedule(s)
            && (snap.phase == TimerRunning && Left(snap, now) > 0 ==>
                  && s.phase == TimerRunning && s.startedAt == Some(now) && s.duration == Left(snap, now)
                  && (forall t :: Due(s, s.failsafeTimer.value, t) <==> t >= now + Left(snap, now))
                  && (forall t :: t >= now ==> RemainingTime(s, t) == Clamp(now + Left(snap, now) - t)))
            && (snap.phase == TimerRunning && Left(snap, now) <= 0 ==>
                  s.phase == Failsafe && s.calls == into.calls + [Entered(snap.limits)] && s.failsafeTimer == None)
            && (snap.phase == Failsafe ==> s.phase == Failsafe)
            && (snap.phase == Normal || snap.phase == GracePeriod ==> s.phase == Normal)
  {
  }

  /** Events that a running timer may see without being stopped, restarted or reconfigured. */
  predicate Harmless(e: Event) {
    e.Starts? || e.Fires? || e.Wait? || e.SetsLimits?
  }

  predicate AllHarmless(es: seq<Event>) {
    forall e :: e in es ==> Harmless(e)
  }

  function Elapsed(es: seq<Event>): nat {
    if es == [] then 0
    else Elapsed(es[..|es| - 1]) + if es[|es| - 1].Wait? then es[|es| - 1].d else 0
  }

  /** One run of the timer that ends in a snapshot, and the restart that picks it up. */
  datatype Leg = Leg(run: seq<Event>, down: nat, into: State)

  predicate AllLegsHarmless(legs: seq<Leg>) {
    forall leg :: leg in legs ==> AllHarmless(leg.run)
  }

  function Ran(legs: seq<Leg>): nat {
    if legs == [] then 0 else Ran(legs[..|legs| - 1]) + Elapsed(legs[|legs| - 1].run)
  }

  function Resume(x: System, leg: Leg): System {
    var y := Run(x, leg.run);
    var restoredAt := y.now + leg.down;
    System(Restore(leg.into, TakeSnapshot(y.s, y.now), restoredAt), restoredAt)
  }

  function Chain(x: System, legs: seq<Leg>): System {
    if legs == [] then x else Resume(Chain(x, legs[..|legs| - 1]), legs[|legs| - 1])
  }

  /** The timer was started, or resumed, at this very instant. */
  ghost predicate JustStarted(x: System) {
    OnSchedule(x.s) && x.s.phase == TimerRunning && x.s.startedAt == Some(x.now)
  }

  /** A harmless step of a running timer leaves its schedule, or it expires at or after its deadline. */
  lemma HarmlessStep(x: System, e: Event)
    requires OnSchedule(x.s) && Harmless(e) && (x.s.phase == TimerRunning || x.s.phase == Failsafe)
    ensures var y := Step(x, e);
            && OnSchedule(y.s) && y.now == x.now + (if e.Wait? then e.d else 0)
            && (y.s.phase == TimerRunning ==>
                  x.s.phase == TimerRunning && y.s.startedAt == x.s.startedAt && y.s.duration == x.s.duration)
            && (y.s.phase == TimerRunning || y.s.phase == Failsafe)
            && (x.s.phase == TimerRunning && y.s.phase == Failsafe ==> x.now >= x.s.startedAt.value + x.s.duration)
  {
    StepLive(x, e);
  }

  lemma {:induction false} HarmlessRun(x: System, es: seq<Event>)
    requires OnSchedule(x.s) && x.s.phase == TimerRunning && AllHarmless(es)
    ensures var y := Run(x, es);
            && OnSchedule(y.s) && y.now == x.now + Elapsed(es)
            && (if y.s.phase == TimerRunning then y.s.startedAt == x.s.startedAt && y.s.duration == x.s.duration
                else y.s.phase == Failsafe && y.now >= x.s.startedAt.value + x.s.duration)
  {
    hide Step, OnSchedule;
    if es != [] {
      var init, e := es[..|es| - 1], es[|es| - 1];
      assert e in es && forall d :: d in init ==> d in es;
      HarmlessRun(x, init);
      HarmlessStep(Run(x, init), e);
    }
  }

  lemma ResumeConserves(x: System, leg: Leg)
    requires JustStarted(x) && AllHarmless(leg.run) && LiveIffRunning(leg.into)
    ensures Elapsed(leg.run) < x.s.duration ==>
              JustStarted(Resume(x, leg)) && Resume(x, leg).s.duration == x.s.duration - Elapsed(leg.run)
    ensures Elapsed(leg.run) >= x.s.duration ==> Resume(x, leg).s.phase == Failsafe
  {
    hide Run, Step, LiveIffRunning;
    HarmlessRun(x, leg.run);
    var y := Run(x, leg.run);
    RestoreResumes(leg.into, TakeSnapshot(y.s, y.now), y.now + leg.down);
  }

  /** Over any chain of snapshots and restores taken while the timer runs (through whatever leaves it
      running and its duration alone), whatever the down times, the time spent running plus the time
      remaining is the duration the timer was started with. */
  lemma {:induction false} TimeConserved(s: State, now: int, legs: seq<Leg>)
    requires LiveIffRunning(s) && s.phase != TimerRunning && s.phase != Failsafe
    requires (forall leg :: leg in legs ==> LiveIffRunning(leg.into)) && AllLegsHarmless(legs)
    requires Ran(legs) < s.duration
    ensures var x := Chain(System(Start(s, now), now), legs);
            && JustStarted(x) && x.s.duration == s.duration - Ran(legs)
            && Ran(legs) + RemainingTime(x.s, x.now) == s.duration
            && Deadline(x.s) == Some(x.now + s.duration - Ran(legs))
  {
    hide Resume;
    if legs != [] {
      var init := legs[..|legs| - 1];
      assert legs[|legs| - 1] in legs && forall l :: l in init ==> l in legs;
      TimeConserved(s, now, init);
      ResumeConserves(Chain(System(Start(s, now), now), init), legs[|legs| - 1]);
    }
  }

  /** Once the running times of a chain add up to the whole duration, the next restore finds the
      device in FAILSAFE. */
  lemma ChainExpires(s: State, now: int, legs: seq<Leg>, last: Leg)
    requires LiveIffRunning(s) && s.phase != TimerRunning && s.phase != Failsafe
    requires (forall leg :: leg in legs + [last] ==> LiveIffRunning(leg.into)) && AllLegsHarmless(legs + [last])
    requires Ran(legs) < s.duration <= Ran(legs) + Elapsed(last.run)
    ensures Resume(Chain(System(Start(s, now), now), legs), last).s.phase == Failsafe
  {
    hide Resume, Chain;
    assert forall leg :: leg in legs ==> leg in legs + [last];
    assert (legs + [last])[|legs|] == last;
    TimeConserved(s, now, legs);
    ResumeConserves(Chain(System(Start(s, now), now), legs), last);
  }

  /** After a restore the configured duration is what remained, so later cycles keep the shorter
      duration: it survives exactly when nothing had elapsed. */
  lemma RestoreShortensDuration(s: State, into: State, at: int, now: int)
    requires OnSchedule(s) && s.phase == TimerRunning && s.startedAt.value <= at <= now
    requires at < s.startedAt.value + s.duration
    ensures Restore(into, TakeSnapshot(s, at), now).duration == s.duration - (at - s.startedAt.value)
    ensures Restore(into, TakeSnapshot(s, at), now).duration == s.duration <==> at == s.startedAt.value
  {
  }
}
