/** The limits a failsafe timer carries: which ones are in force, and which ones FAILSAFE is entered with. */
module FailsafeLimits {
  import opened Wrappers
  import opened FailsafeSpec
  import opened FailsafeRuns

  /** The limits that a run leaves in force: the last ones set or restored, or else those at its start. */
  function InForce(first: Limits, es: seq<Event>): Limits {
    if es == [] then first
    else
      match es[|es| - 1]
      case SetsLimits(l) => l
      case Restores(snap) => snap.limits
      case _ => InForce(first, es[..|es| - 1])
  }

  /** Enters FAILSAFE by an expiry, or by the restore of a running timer with nothing left. */
  predicate Enters(x: System, e: Event) {
    || (e.Fires? && x.s.phase != Failsafe && Step(x, e).s.phase == Failsafe)
    || (e.Restores? && e.snap.phase == TimerRunning && Left(e.snap, x.now) <= 0)
  }

  lemma StepLimits(x: System, e: Event)
    ensures Step(x, e).s.limits ==
            match e
            case SetsLimits(l) => l
            case Restores(snap) => snap.limits
            case _ => x.s.limits
  {
    if e.Restores? {
      RestoreLimits(x.s, e.snap, x.now);
    }
  }

  /** After a restore the limits in force are the snapshot's. */
  lemma RestoreLimits(into: State, snap: TimerSnapshot, now: int)
    ensures Restore(into, snap, now).limits == snap.limits
  {
  }

  /** What is added to the calls: "entered" only as the last of them and with these limits. */
  predicate Reports(calls: seq<Call>, calls': seq<Call>, limits: Limits, entered: bool) {
    && |calls| <= |calls'| && calls'[..|calls|] == calls
    && (forall i :: |calls| <= i < |calls'| && calls'[i].Entered? ==> i == |calls'| - 1 && calls'[i] == Entered(limits))
    && (entered <==> |calls| < |calls'| && calls'[|calls'| - 1].Entered?)
  }

  /** A restore also takes over the snapshot's duration, if it has one, or the time left of a running timer;
      the grace period stays, and no change of state is reported. */
  lemma RestoreConfigures(into: State, snap: TimerSnapshot, now: int)
    ensures var s := Restore(into, snap, now);
            && s.duration == (if snap.phase == TimerRunning && Left(snap, now) > 0 then Left(snap, now)
                              else if snap.duration > 0 then snap.duration
                              else into.duration)
            && s.grace == into.grace
            && (forall i :: |into.calls| <= i < |s.calls| ==> !s.calls[i].Changed?)
  {
  }

  /** A step adds calls at the end; it reports "entered" exactly when it enters FAILSAFE, as the last of
      them and with the limits in force. */
  lemma StepEntered(x: System, e: Event)
    ensures Reports(x.s.calls, Step(x, e).s.calls, Step(x, e).s.limits, Enters(x, e))
  {
    hide Step, NewCalls;
    StepLimits(x, e);
    if e.Restores? {
      RestoreReports(x, e.snap);
    } else {
      StepCalls(x, e);
      StepPhase(x, e);
      EntersReported(x, e);
    }
  }

  lemma RestoreReports(x: System, snap: TimerSnapshot)
    ensures Reports(x.s.calls, Step(x, Restores(snap)).s.calls, snap.limits, Enters(x, Restores(snap)))
  {
  }

  lemma EntersReported(x: System, e: Event)
    requires !e.Restores?
    ensures Enters(x, e) <==> |NewCalls(x, e)| == 2 && NewCalls(x, e)[1].Entered?
  {
  }

  lemma {:induction false} LimitsInForce(x: System, es: seq<Event>)
    ensures Run(x, es).s.limits == InForce(x.s.limits, es)
  {
    hide Step;
    if es != [] {
      LimitsInForce(x, es[..|es| - 1]);
      StepLimits(Run(x, es[..|es| - 1]), es[|es| - 1]);
    }
  }

  /** In every run, whatever happened before: an expiry or a restore that enters FAILSAFE hands the device
      the limits in force, that is, those of the last SetLimits or Restore. */
  lemma EnteredWithInForce(x: System, es: seq<Event>, e: Event)
    requires Enters(Run(x, es), e)
    ensures var calls := Run(x, es + [e]).s.calls;
            calls != [] && calls[|calls| - 1] == Entered(InForce(x.s.limits, es + [e]))
  {
    hide Step;
    assert (es + [e])[..|es|] == es;
    LimitsInForce(x, es + [e]);
    StepEntered(Run(x, es), e);
  }

  predicate LeavesLimits(es: seq<Event>) {
    forall e :: e in es ==> !e.SetsLimits? && !e.Restores?
  }

  lemma {:induction false} NothingSet(first: Limits, es: seq<Event>)
    requires LeavesLimits(es)
    ensures InForce(first, es) == first
  {
    if es != [] {
      var init := es[..|es| - 1];
      assert es[|es| - 1] in es && forall d :: d in init ==> d in es;
      NothingSet(first, init);
    }
  }

  /** Over any chain of snapshots and restores, into whatever timers, the limits are those of the first
      state as long as nothing sets others; whatever else happens in between. */
  lemma {:induction false} ChainCarriesLimits(x: System, legs: seq<Leg>)
    requires forall leg :: leg in legs ==> LeavesLimits(leg.run)
    ensures Chain(x, legs).s.limits == x.s.limits
  {
    hide Run, Step;
    if legs != [] {
      var init, leg := legs[..|legs| - 1], legs[|legs| - 1];
      assert leg in legs && forall l :: l in init ==> l in legs;
      ChainCarriesLimits(x, init);
      ResumeCarriesLimits(Chain(x, init), leg);
    }
  }

  lemma ResumeCarriesLimits(x: System, leg: Leg)
    requires LeavesLimits(leg.run)
    ensures Resume(x, leg).s.limits == x.s.limits
  {
    hide Run, Step;
    LimitsInForce(x, leg.run);
    NothingSet(x.s.limits, leg.run);
    var y := Run(x, leg.run);
    RestoreLimits(leg.into, TakeSnapshot(y.s, y.now), y.now + leg.down);
  }

  /** The expiry that follows such a chain hands the device the limits of the first state. */
  lemma ExpiryAfterChain(x: System, legs: seq<Leg>, es: seq<Event>, id: nat)
    requires (forall leg :: leg in legs ==> LeavesLimits(leg.run)) && LeavesLimits(es)
    requires Enters(Run(Chain(x, legs), es), Fires(id))
    ensures var calls := Step(Run(Chain(x, legs), es), Fires(id)).s.calls;
            calls != [] && calls[|calls| - 1] == Entered(x.s.limits)
  {
    hide Run, Step, Chain, Enters;
    ChainCarriesLimits(x, legs);
    LimitsInForce(Chain(x, legs), es);
    NothingSet(x.s.limits, es);
    StepEntered(Run(Chain(x, legs), es), Fires(id));
    StepLimits(Run(Chain(x, legs), es), Fires(id));
  }

  /** So does a restore that finds nothing left. */
  lemma RestoreAfterChain(x: System, legs: seq<Leg>, leg: Leg)
    requires (forall l :: l in legs ==> LeavesLimits(l.run)) && LeavesLimits(leg.run)
    requires var y := Run(Chain(x, legs), leg.run);
             y.s.phase == TimerRunning && RemainingTime(y.s, y.now) == 0 && y.s.startedAt.Some?
    ensures var calls := Resume(Chain(x, legs), leg).s.calls;
            calls != [] && calls[|calls| - 1] == Entered(x.s.limits)
  {
    hide Run, Step, Chain;
    ChainCarriesLimits(x, legs);
    LimitsInForce(Chain(x, legs), leg.run);
    NothingSet(x.s.limits, leg.run);
  }

  /** Reset ends every phase: the timer is in NORMAL with no failsafe timer armed, and it stays so until it
      is started or restored. */
  lemma ResetEnds(x: System)
    requires LiveIffRunning(x.s)
    ensures var s := Step(x, Resets).s;
            && s.phase == Normal && s.failsafeTimer == None && s.startedAt == None
            && (forall id :: id in s.armed ==> s.armed[id].kind.GraceKind?)
            && s.duration == x.s.duration && s.limits == x.s.limits
            && (x.s.phase != Normal ==> s.calls == x.s.calls + [Changed(x.s.phase, Normal)])
  {
    StopBothLive(x.s);
  }

  /** Start begins a whole configured duration, from NORMAL and from a grace period; a running timer and
      FAILSAFE are left as they are. */
  lemma StartBegins(x: System)
    requires LiveIffRunning(x.s)
    ensures var s := Step(x, Starts).s;
            if x.s.phase == Normal || x.s.phase == GracePeriod
            then s.phase == TimerRunning && Deadline(s) == Some(x.now + x.s.duration)
                 && s.calls == x.s.calls + [Changed(x.s.phase, TimerRunning)]
            else s == x.s
  {
  }

  /** Stop ends every phase but NORMAL: FAILSAFE in a grace period if there is one, everything else in
      NORMAL; leaving FAILSAFE is reported. */
  lemma StopEnds(x: System)
    requires LiveIffRunning(x.s)
    ensures var s := Step(x, Stops).s;
            && (s.phase == GracePeriod <==> x.s.phase == Failsafe && x.s.grace > 0)
            && (s.phase == Normal <==> !(x.s.phase == Failsafe && x.s.grace > 0))
            && s.failsafeTimer == None
            && (x.s.phase == Failsafe <==> s.calls == x.s.calls + [Changed(Failsafe, s.phase), Exited])
  {
  }
}
