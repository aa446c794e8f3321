/** The grace period after FAILSAFE: when it is tidy, and when it lasts its time. */
module FailsafeGrace {
  import opened Wrappers
  import opened FailsafeSpec
  import opened FailsafeRuns

  /** No grace timer is armed except the one of the current grace period. */
  ghost predicate GraceTidy(s: State) {
    forall id :: id in s.armed && s.armed[id].kind.GraceKind? ==> s.phase == GracePeriod && s.graceTimer == Some(id)
  }

  ghost predicate GraceArmed(s: State) {
    s.phase == GracePeriod ==>
      s.graceTimer.Some? && s.graceTimer.value in s.armed && s.armed[s.graceTimer.value].kind.GraceKind?
  }

  /** A grace period entered in a tidy state ends by its own timer exactly the grace time later, and
      Normal is then reported. */
  lemma GraceEndsExactly(s: State, now: int)
    requires LiveIffRunning(s) && GraceTidy(s) && s.phase == Failsafe && s.grace > 0
    ensures var s' := Stop(s, now);
            && s'.phase == GracePeriod && GraceTidy(s') && s'.graceTimer.Some?
            && (forall id: nat, t :: Due(s', id, t) <==> id == s'.graceTimer.value && t >= now + s.grace)
            && (var s2 := Fire(s', s'.graceTimer.value);
                s2.phase == Normal && s2.armed == map[] && s2.calls == s'.calls + [Changed(GracePeriod, Normal)])
  {
  }

  /** A grace timer outlives its grace period exactly when the period is left by Start or Stop, which
      do not stop it. */
  lemma GraceTidyExactly(x: System, e: Event)
    requires LiveIffRunning(x.s) && GraceTidy(x.s) && GraceArmed(x.s)
    ensures GraceTidy(Step(x, e).s) <==> !(x.s.phase == GracePeriod && (e == Starts || e == Stops))
    ensures GraceTidy(Step(x, e).s) ==> GraceArmed(Step(x, e).s)
  {
    var s, s' := x.s, Step(x, e).s;
    if s.phase == GracePeriod && (e == Starts || e == Stops) {
      assert s.graceTimer.value in s'.armed;
    }
  }

  // ---- When a grace period lasts its time ----

  /** The grace period that a Stop at "now" enters is ended by some timer before its time. */
  ghost predicate EndsEarly(s: State, now: int) {
    exists id: nat, t: int ::
      now <= t < now + s.grace && Due(Stop(s, now), id, t) && Fire(Stop(s, now), id).phase == Normal
  }

  /** That is so exactly when an armed timer is due before the new period is. */
  lemma EndsEarlyExactly(s: State, now: int)
    requires LiveIffRunning(s) && s.phase == Failsafe && s.grace > 0
    ensures EndsEarly(s, now) <==> exists id :: id in s.armed && s.armed[id].deadline < now + s.grace
  {
    var s' := Stop(s, now);
    if id :| id in s.armed && s.armed[id].deadline < now + s.grace {
      var t := if s.armed[id].deadline < now then now else s.armed[id].deadline;
      assert Due(s', id, t) && Fire(s', id).phase == Normal;
    }
    if id: nat, t: int :| now <= t < now + s.grace && Due(s', id, t) && Fire(s', id).phase == Normal {
      assert id in s.armed && s.armed[id].deadline < now + s.grace;
    }
  }

  /** Time passes only up to the next deadline. */
  ghost predicate PromptWait(x: System, e: Event) {
    e.Wait? ==> forall id :: id in x.s.armed ==> x.now + e.d <= x.s.armed[id].deadline
  }

  ghost predicate Prompt(x: System, es: seq<Event>) {
    forall i :: 0 <= i < |es| ==> PromptWait(Run(x, es[..i]), es[i])
  }

  /** No restores, and any duration that is accepted is longer than the grace period. */
  predicate LongDurations(grace: int, es: seq<Event>) {
    forall e :: e in es ==> KeepsLong(grace, e)
  }

  predicate KeepsLong(grace: int, e: Event) {
    !e.Restores? && (e.SetsDuration? && ValidDuration(e.duration) ==> grace < e.duration)
  }

  /** No timer is late, and every grace timer is due before the failsafe timer is. */
  ghost predicate GraceFirst(x: System, grace: int) {
    var s := x.s;
    && LiveIffRunning(s) && s.grace == grace && s.duration > grace
    && (forall id :: id in s.armed ==> x.now <= s.armed[id].deadline)
    && (forall id :: id in s.armed && s.armed[id].kind.GraceKind? ==> s.armed[id].deadline <= x.now + grace)
    && (s.phase == TimerRunning ==>
          forall id :: id in s.armed && s.armed[id].kind.GraceKind? ==> s.armed[id].deadline < Deadline(s).value)
    && (s.phase == Failsafe ==> s.armed == map[])
  }

  lemma FireGraceFirst(x: System, grace: int, id: nat)
    requires GraceFirst(x, grace) && Due(x.s, id, x.now)
    ensures GraceFirst(Step(x, Fires(id)), grace)
  {
    StepLive(x, Fires(id));
    if x.s.armed[id].kind.FailsafeKind? {
      assert x.s.armed - {id} == map[];
    }
  }

  lemma StepGraceFirst(x: System, e: Event, grace: int)
    requires GraceFirst(x, grace) && PromptWait(x, e) && grace >= 0
    requires KeepsLong(grace, e)
    ensures GraceFirst(Step(x, e), grace)
  {
    StepLive(x, e);
    match e {
      case Fires(id) =>
        if Due(x.s, id, x.now) {
          FireGraceFirst(x, grace, id);
        }
      case Resets => StopBothLive(x.s);
      case _ =>
    }
  }

  function Fresh(duration: int, grace: int, limits: Limits): System {
    System(New(duration, grace, limits), 0)
  }

  lemma {:induction false} GraceFirstAlways(duration: int, grace: int, limits: Limits, es: seq<Event>)
    requires 0 <= grace < duration && LongDurations(grace, es) && Prompt(Fresh(duration, grace, limits), es)
    ensures GraceFirst(Run(Fresh(duration, grace, limits), es), grace)
  {
    hide Step, GraceFirst, PromptWait;
    var x := Fresh(duration, grace, limits);
    if es != [] {
      var init, e := es[..|es| - 1], es[|es| - 1];
      assert e in es && forall d :: d in init ==> d in es;
      forall i | 0 <= i < |init|
        ensures PromptWait(Run(x, init[..i]), init[i])
      {
        assert init[..i] == es[..i];
      }
      assert PromptWait(Run(x, es[..|es| - 1]), es[|es| - 1]);
      GraceFirstAlways(duration, grace, limits, init);
      StepGraceFirst(Run(x, init), e, grace);
    } else {
      FreshGraceFirst(duration, grace, limits);
    }
  }

  lemma FreshGraceFirst(duration: int, grace: int, limits: Limits)
    requires 0 <= grace < duration
    ensures GraceFirst(Fresh(duration, grace, limits), grace)
  {
  }

  /** In no such run is a grace period entered that ends early. */
  ghost predicate NeverCutShort(duration: int, grace: int, limits: Limits) {
    var x := Fresh(duration, grace, limits);
    forall es :: LongDurations(grace, es) && Prompt(x, es) && Run(x, es).s.phase == Failsafe ==>
      !EndsEarly(Run(x, es).s, Run(x, es).now)
  }

  lemma RunSnoc(x: System, es: seq<Event>, e: Event)
    ensures Run(x, es + [e]) == Step(Run(x, es), e)
    ensures Prompt(x, es) && PromptWait(Run(x, es), e) ==> Prompt(x, es + [e])
  {
    var fs := es + [e];
    assert fs[..|es|] == es;
    if Prompt(x, es) && PromptWait(Run(x, es), e) {
      forall i | 0 <= i < |fs|
        ensures PromptWait(Run(x, fs[..i]), fs[i])
      {
        if i < |es| {
          assert fs[..i] == es[..i];
        }
      }
    }
  }

  /** Two failsafe cycles: the grace timer of the first is still armed when the second enters FAILSAFE. */
  function TwoCycles(duration: nat): seq<Event> {
    FirstCycle(duration) + [Starts] + [Wait(duration)] + [Fires(2)]
  }

  function FirstCycle(duration: nat): seq<Event> {
    [] + [Starts] + [Wait(duration)] + [Fires(0)] + [Stops]
  }

  lemma AfterFirstCycle(duration: nat, grace: int, limits: Limits)
    requires 0 < duration && grace > 0
    ensures var x, y := Fresh(duration, grace, limits), Run(Fresh(duration, grace, limits), FirstCycle(duration));
            && Prompt(x, FirstCycle(duration)) && y.now == duration
            && y.s.phase == GracePeriod && y.s.armed == map[1 := Armed(GraceKind, duration + grace)]
            && y.s.nextTimer == 2 && y.s.duration == duration && y.s.grace == grace && y.s.failsafeTimer == None
  {
    hide Prompt;
    var x := Fresh(duration, grace, limits);
    assert Prompt(x, []) by {
      NothingPrompt(x);
    }
    RunSnoc(x, [], Starts);
    RunSnoc(x, [] + [Starts], Wait(duration));
    RunSnoc(x, [] + [Starts] + [Wait(duration)], Fires(0));
    RunSnoc(x, [] + [Starts] + [Wait(duration)] + [Fires(0)], Stops);
    assert Run(x, []) == x;
  }

  lemma NothingPrompt(x: System)
    ensures Prompt(x, []) && Run(x, []) == x
  {
  }

  /** With a grace period at least as long as the duration, the leftover of the first cycle ends the
      grace period of the second a whole duration early. */
  lemma LeftoverGraceTimer(duration: nat, grace: int, limits: Limits)
    requires 0 < duration <= grace
    ensures var x, y := Fresh(duration, grace, limits), Run(Fresh(duration, grace, limits), TwoCycles(duration));
            && Prompt(x, TwoCycles(duration)) && LongDurations(grace, TwoCycles(duration))
            && y.s.phase == Failsafe && y.now == 2 * duration && EndsEarly(y.s, y.now)
  {
    hide Prompt, Run, EndsEarly;
    AfterFirstCycle(duration, grace, limits);
    var x, es := Fresh(duration, grace, limits), FirstCycle(duration);
    var y := Run(x, es);
    RunSnoc(x, es, Starts);
    assert Step(y, Starts).s.armed == map[1 := Armed(GraceKind, duration + grace),
                                          2 := Armed(FailsafeKind, 2 * duration)];
    RunSnoc(x, es + [Starts], Wait(duration));
    RunSnoc(x, es + [Starts] + [Wait(duration)], Fires(2));
    var z := Run(x, TwoCycles(duration));
    assert z.s.armed == map[1 := Armed(GraceKind, duration + grace)];
    assert OnSchedule(x.s);
    LiveAlways(x, TwoCycles(duration));
    EndsEarlyExactly(z.s, z.now);
    assert 1 in z.s.armed && z.s.armed[1].deadline < z.now + z.s.grace;
  }

  /** While no timer is late and nothing is restored, every grace period lasts its time if and only if it
      is configured shorter than the failsafe duration. */
  lemma NeverCutShortIff(duration: nat, grace: int, limits: Limits)
    requires duration > 0 && grace > 0
    ensures NeverCutShort(duration, grace, limits) <==> grace < duration
  {
    hide Run, Prompt, EndsEarly, TwoCycles;
    var x := Fresh(duration, grace, limits);
    if grace < duration {
      forall es | LongDurations(grace, es) && Prompt(x, es) && Run(x, es).s.phase == Failsafe
        ensures !EndsEarly(Run(x, es).s, Run(x, es).now)
      {
        GraceFirstAlways(duration, grace, limits, es);
        EndsEarlyExactly(Run(x, es).s, Run(x, es).now);
      }
    } else {
      LeftoverGraceTimer(duration, grace, limits);
    }
  }

  /** The same over runs in which the duration may be changed to anything SetDuration accepts. */
  ghost predicate NeverCutShortAtAll(duration: int, grace: int, limits: Limits) {
    var x := Fresh(duration, grace, limits);
    forall es :: NoRestore(es) && Prompt(x, es) && Run(x, es).s.phase == Failsafe ==>
      !EndsEarly(Run(x, es).s, Run(x, es).now)
  }

  /** Prefixing an event that takes no time: the run goes on from the state it leads to. */
  lemma {:induction false} RunFrom(x: System, e: Event, es: seq<Event>)
    requires !e.Wait?
    ensures Run(x, [e] + es) == Run(Step(x, e), es)
    ensures Prompt(Step(x, e), es) ==> Prompt(x, [e] + es)
    decreases |es|
  {
    hide Step, PromptWait;
    if es == [] {
      assert [e] + es == [] + [e];
      NothingPrompt(x);
      RunSnoc(x, [], e);
      assert PromptWait(x, e) by {
        NoWait(x, e);
      }
    } else {
      var init, last := es[..|es| - 1], es[|es| - 1];
      assert ([e] + init) + [last] == [e] + es && init + [last] == es;
      RunFrom(x, e, init);
      RunSnoc(x, [e] + init, last);
      RunSnoc(Step(x, e), init, last);
      if Prompt(Step(x, e), es) {
        PromptInit(Step(x, e), es);
      }
    }
  }

  lemma NoWait(x: System, e: Event)
    requires !e.Wait?
    ensures PromptWait(x, e)
  {
  }

  lemma PromptInit(x: System, es: seq<Event>)
    requires Prompt(x, es) && es != []
    ensures Prompt(x, es[..|es| - 1]) && PromptWait(Run(x, es[..|es| - 1]), es[|es| - 1])
  {
    hide PromptWait;
    var init := es[..|es| - 1];
    forall i | 0 <= i < |init|
      ensures PromptWait(Run(x, init[..i]), init[i])
    {
      assert init[..i] == es[..i];
    }
  }

  /** While no timer is late and nothing is restored, and whatever durations are set on the way, every grace
      period lasts its time if and only if it is configured shorter than the initial duration and than the
      shortest duration that SetDuration accepts. */
  lemma NeverCutShortAtAllIff(duration: nat, grace: int, limits: Limits)
    requires duration > 0 && grace > 0
    ensures NeverCutShortAtAll(duration, grace, limits) <==> grace < duration && grace < MIN_DURATION
  {
    hide Run, Prompt, EndsEarly, TwoCycles;
    var x := Fresh(duration, grace, limits);
    if grace < duration && grace < MIN_DURATION {
      forall es | NoRestore(es) && Prompt(x, es) && Run(x, es).s.phase == Failsafe
        ensures !EndsEarly(Run(x, es).s, Run(x, es).now)
      {
        assert LongDurations(grace, es);
        GraceFirstAlways(duration, grace, limits, es);
        EndsEarlyExactly(Run(x, es).s, Run(x, es).now);
      }
    } else if grace >= duration {
      LeftoverGraceTimer(duration, grace, limits);
    } else {
      LeftoverGraceTimer(MIN_DURATION, grace, limits);
      var es := TwoCycles(MIN_DURATION);
      var shortest := SetsDuration(MIN_DURATION);
      assert Step(x, shortest) == Fresh(MIN_DURATION, grace, limits);
      RunFrom(x, shortest, es);
      assert forall e :: e in [shortest] + es ==> e == shortest || e in es;
    }
  }
}
