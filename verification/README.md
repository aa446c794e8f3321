# Verified model of the MASH protocol engines

A Dafny model of the stateful engines of the Go implementation of MASH, a smart-home energy protocol,
with proofs of what they keep over whole runs. `dafny verify dfyconfig.toml` checks everything.

- **Limits** (`MultiZone`, `DurationManager`, `LimitSpec`, `LimitResolver`, `LimitInvariants`,
  `LimitRuns`, `LimitOutcomes`, `LimitEffects`, `LateReset`, `LimitBoundaries`): zones set consumption and
  production limits, with or without a duration; the most restrictive one is in force; each zone is told
  its own. The classes are proved against functions on values, and the functions' runs are proved to keep
  limits, timers, indices, effective values and notifications coupled.
- **Requirement search** (`RequirementSearch`): the breadth-first search behind "required via".
- **Failsafe** (`FailsafeSpec`, `FailsafeTimer`, `FailsafeRuns`, `FailsafeGrace`, `FailsafeLimits`): the
  four-state timer with snapshots.
- **Pairing** (`Spake2Plus`, `KeyAgreement`, `SmallGroup`, `PaseRuns`, `PaseSession`, `SessionKeys`):
  SPAKE2+ (sections 3.3 and 3.4 of RFC 9383) over an abstract group, and the handshake around it as two
  parties that take steps. A small group shows that the assumptions hold together.
- **Discovery** (`DiscoveryTypes`, `DiscoverySpec`, `DiscoveryManager`, `DiscoveryRuns`,
  `DiscoveryEffects`): the discovery state machine and the advertiser it drives, whose registrations may
  fail at any time.
- **Text forms** (`GoStrings`, `TxtRecords`, `InspectPath`, `PathMeaning`): TXT records and inspection paths.
- **Stores** (`Tombstones`, `CertStore`, `ControllerStore`): certificates and devices kept in directories,
  with tombstones.
- **Backoff** (`Backoff`): reconnection delays.

## Assumptions

- Time is a logical clock in nanoseconds. A handler runs at one instant, and a Go timer's function runs
  at its deadline or later. A timer that was stopped does not fire. The one place where a callback that
  has left its timer runs later, between other events, is the split expiry of the limit resolver.
- The notification and state-change callbacks are set; their calls are recorded as sequences.
- Random draws, clock readings, outcomes of file operations, connection writes and mDNS registrations
  are parameters.
- The group of SPAKE2+ is any abelian group of prime order with an encoding for all points but the
  identity. Hash, key derivation and MAC are injective; where session keys are compared, the first output
  of the derivation too, and it is never a second output.
- Strings are sequences of Unicode characters, that is, valid UTF-8; the length of an identifier counts bytes.

## What the proofs found

- `SetTimer` refuses durations above 24 hours and `HandleSetLimit` ignores the refusal
  (`CoupledIffTimeable`). An older timer then cuts the new limit short (`OverlongCutShort`); without
  one, the limit lapses untold (`LapsesUntold`), and its zone stays wrong until something tells it
  (`AgreementStep`).
- The zone index is a byte: a 257th zone shares an index (`IndexCollides`).
- A limit set while an expiry is between its two halves is cleared by it (`StaleCallback`). With accepted
  durations this is the only way to lose a limit early (`NeverEarly`); with refused ones an older timer is
  the other (`LastsIffUnthreatened`).
- A reset notifies after unlocking: a zone that sets a limit in between, and keeps it, is told it has none
  (`LateNoticeExactly`, `LateNoticeWrong`).
- Any clearing ends OVERRIDE (`OverrideEnds`); the resolver never leaves LIMITED in place either.
- `Stop` and `Start` do not stop the grace timer (`GraceTidyExactly`). A leftover one ends a later grace
  period early only if grace periods are at least as long as a failsafe duration (`NeverCutShortAtAllIff`).
- Changing the duration of a running failsafe timer changes the reported remaining time but not the
  deadline (`SetDurationWhileRunning`); a restore replaces the configured duration
  (`RestoreShortensDuration`).
- Re-adding a known zone when the library refuses the registration leaves a zone that can be neither
  updated nor removed (`AgreementLostExactly`, `StrandedCannotLeave`); so for commissioner zones.
- The comment on `SetCommissioningWindowDuration` promises that zero means the default of 3 hours. The
  constant is 15 minutes, and an open window restarted with zero closes at once (`WindowDeadline`).
- The SPAKE2+ transcript has no length fields. Keys of setups that do not match could coincide only where
  the exchanged public values repeat with the difference in length of the identities (`KeysEqualIff`). The
  abstract assumptions admit such a case (`UnalignedCollision`, in a group with constant encodings); nothing
  is claimed about P-256.
- Information given to the discovery manager during an open commissioning window is not published, not even
  when the window is opened again (`NewInfoPublishedIff`).
- A controller that saved a certificate of its own but no zone CA panics when it is loaded
  (`PanicsExactly`, `OwnAfterSave`).
- Loading again between a removal and the save brings the removed entry back in memory, and the next save
  deletes its directory (`ReloadExactly`, `ReloadedVanishes`).
- A save interrupted between a zone's certificate and its key leaves a new certificate with an old key, and
  loads without an error (`InterruptedWrite`).
- A zone saved without a CA certificate keeps an older one on disk (`LoadAfterSave`).
- Comments in `zone/doc.go` and `cert/store.go` speak of five zones; the constant, which the model follows,
  is three.
- With a multiplier close to 1 and a small initial delay, truncation keeps the backoff from ever growing
  (`ReachesMaxIff`).

## Model

| member | source | states |
|---|---|---|
| LimitRuns.EffectiveAlways | mash-go/pkg/features/limit_resolver.go:101-402 | in every run of commands, disconnects, resets, late and split expiries, the published limit of each direction is the minimum over the stored limits of non-TEST zones, absent when there is none, and no stored or published limit exceeds a positive device maximum |
| LimitEffects.TakenExactly | mash-go/pkg/features/limit_resolver.go:101-159 | a request is taken iff its caller has a zone, its values are neither negative nor above the maxima, and the device is not in OVERRIDE; otherwise nothing changes |
| LimitEffects.SetLimitTakesEffect | mash-go/pkg/features/limit_resolver.go:176-214 | a taken value is read back, told, timed for the given number of seconds, and bounds the published limit unless its zone is a TEST zone |
| LimitEffects.DeactivationTakesEffect | mash-go/pkg/features/limit_resolver.go:160-174 | a taken request without values withdraws both limits, their timers and what the zone was told |
| LimitEffects.ClearLimitTakesEffect | mash-go/pkg/features/limit_resolver.go:236-281 | clears both limits, the given one, or for an unknown direction none |
| LimitEffects.LapsesExactly | mash-go/pkg/zone/zone.go:69-74 | a limit leaves by itself iff it has a duration and the clock is past its last instant |
| MultiZone.TestZonesIgnored | mash-go/pkg/zone/zone.go:151-155 | what a TEST zone sets makes no difference to the effective value |
| MultiZone.EffectiveBySign | mash-go/pkg/zone/zone.go:163-193 | the least non-negative value counts, and the greatest if all are negative |
| LimitRuns.ControlAlways | mash-go/pkg/features/limit_resolver.go:388-402 | in every run in which only the resolver writes the control state, it is CONTROLLED iff some effective limit is set and AUTONOMOUS iff none is |
| LimitRuns.SoundAlways | mash-go/pkg/features/limit_resolver.go:337-363 | in every run with at most 256 zones the two index maps are mutually inverse, and every timer and every stored limit belongs to an indexed zone |
| LimitRuns.CouplingAlways | mash-go/pkg/features/limit_resolver.go:176-201 | in every run with atomic expiries, durations of at most 24 hours and at most 256 zones, stored limits, timers, indices, effective values and what each zone was told stay coupled |
| LimitRuns.TimerIffTimedLimit | mash-go/pkg/features/limit_resolver.go:186-201 | in such runs a timed limit has exactly its own timer (same start, duration and value) and an indefinite one has none; a timer without a limit is overdue; if no timer is late, a timer exists iff a timed limit is stored |
| LimitOutcomes.ReplicaExactly | mash-go/pkg/features/limit_resolver.go:69-97 | in every run with at most 256 zones, whatever the durations and however expiries are split, folding the notifications sent to a zone gives what the read hook returns iff no drop that the zone was not told about is still to be made good |
| LimitOutcomes.AgreementStep | mash-go/pkg/features/limit_resolver.go:205-214 | one event of such a run: a subscriber that is right becomes wrong iff its limit is past its time and the event recomputes without telling it; one that is wrong becomes right iff the event tells it |
| LimitOutcomes.ToldIsIndexed | mash-go/pkg/features/limit_resolver.go:294-317 | whoever was last told a limit has an index, so a reset reaches it |
| LimitRuns.ReplicaFollows | mash-go/pkg/features/limit_resolver.go:69-97 | with atomic expiries and accepted durations the replica is right except exactly while a limit has lapsed and its late timer has not fired; always, if no timer is late |
| LimitRuns.ToldWhileStored | mash-go/pkg/features/limit_resolver.go:205-214 | in every run with at most 256 zones (split expiries and refused durations included) a zone whose limit is stored was last told exactly this limit |
| LimitRuns.NonInterference | mash-go/pkg/features/limit_resolver.go:337-363 | in every run with at most 256 zones no event about one zone changes what is stored, armed or told for another, except that a limit whose own time is up may leave the store |
| LimitOutcomes.LostExactly | mash-go/pkg/features/limit_resolver.go:347-377 | in every run with at most 256 zones, any durations, split expiries: apart from its own zone and resets, a stored limit is lost iff its slot is taken by a due expiry or a pending callback, or it is past its time and the event recomputes |
| LimitOutcomes.NeverEarly | mash-go/pkg/features/limit_resolver.go:347-377 | with accepted durations, a stored limit is lost before its time, other than by its own zone and resets, iff a pending callback for its slot runs |
| LimitOutcomes.LastsIffUnthreatened | mash-go/pkg/features/limit_resolver.go:347-377 | in every run with at most 256 zones, whatever the durations: a stored limit is sure to last its whole time through every continuation without its own zone and resets iff no callback for its slot is pending and no armed timer of its slot is due sooner |
| LimitOutcomes.AcceptedUnthreatened | mash-go/pkg/features/limit_resolver.go:186-201 | with accepted durations no armed timer is due sooner, so only pending callbacks threaten |
| LimitOutcomes.IndefiniteUntimed | mash-go/pkg/features/limit_resolver.go:186-201 | an indefinite limit never has a timer, whatever durations were refused before |
| LimitOutcomes.OwnTimerAlways | mash-go/pkg/duration/timer.go:173-186 | with accepted durations, an armed timer of a stored limit is its own, and a timed limit without one is past its time |
| LimitOutcomes.StepKeepsIndex | mash-go/pkg/features/limit_resolver.go:406-415 | the index of a zone never changes |
| LimitRuns.PromptAlways | mash-go/pkg/duration/timer.go:173-179 | if the clock never passes an armed deadline, no timer is ever late |
| LimitBoundaries.CoupledIffTimeable | mash-go/pkg/features/limit_resolver.go:186-201 | an accepted SetLimit keeps limits and timers coupled iff its duration is at most 86400 seconds |
| LimitBoundaries.OverlongCutShort | mash-go/pkg/features/limit_resolver.go:186-201 | a longer duration is refused: an older timer, also a late one, stays armed, is due before the new limit is, and removes it whenever it fires |
| LimitBoundaries.LapsesUntold | mash-go/pkg/zone/zone.go:126-141 | a limit beyond 24 hours that finds no older timer is dropped, after its time, by the first event that recomputes without telling its zone, which is left with the value it was told |
| LimitBoundaries.StaleCallback | mash-go/pkg/duration/timer.go:277-297 | a limit set between the two halves of an expiry is removed by the pending callback, whatever its duration |
| LateReset.LateNoticeExactly | mash-go/pkg/features/limit_resolver.go:305-317 | for every run before a reset and every continuation before its notice: the notice leaves its zone right about a direction iff the zone has not set that limit since the reset and kept it; it is wrong only after an accepted SetLimit in between |
| LateReset.LateNoticeWrong | mash-go/pkg/features/limit_resolver.go:305-317 | one acceptable SetLimit in between always makes it wrong: the zone reads its limit and was told it has none |
| LateReset.WrongUntil | mash-go/pkg/features/limit_resolver.go:305-317 | a zone left wrong so becomes right iff it is told something, or its limit is past its time and something recomputes |
| LateReset.HeldExactly | mash-go/pkg/features/limit_resolver.go:286-307 | after a reset a limit is stored iff it was set since and nothing has removed it after that |
| LateReset.SilentThenTold | mash-go/pkg/features/limit_resolver.go:286-317 | a reset whose notices follow at once is the reset of the runs |
| LimitInvariants.IndexExact | mash-go/pkg/features/limit_resolver.go:406-415 | handing out an index keeps the two maps mutually inverse iff the zone is known or fewer than 256 indices are taken |
| LimitBoundaries.IndexCollides | mash-go/pkg/features/limit_resolver.go:406-415 | the 257th zone shares an index with another zone and takes over its reverse entry |
| LimitBoundaries.OverrideEnds | mash-go/pkg/features/limit_resolver.go:388-402 | for every event, OVERRIDE survives iff the event does not recompute: refused limits keep it, clearing, resets and expiries end it |
| LimitInvariants.SetLimitView | mash-go/pkg/features/limit_resolver.go:176-214 | an accepted SetLimit changes the stored value, timer and notified value of its own zone as asked, and other zones' slots only by lapsing |
| LimitInvariants.ClearLimitView | mash-go/pkg/features/limit_resolver.go:236-281 | ClearLimit empties exactly the covered slots of its zone |
| LimitInvariants.ClearZoneView | mash-go/pkg/features/limit_resolver.go:321-344 | ClearZone empties exactly the slots of its zone |
| LimitInvariants.ResetAllView | mash-go/pkg/features/limit_resolver.go:286-318 | ResetAll empties the slots of every indexed zone |
| LimitInvariants.ResetAllSound | mash-go/pkg/features/limit_resolver.go:286-318 | ResetAll leaves no timer, no effective limit and AUTONOMOUS |
| LimitInvariants.ExpireView | mash-go/pkg/features/limit_resolver.go:347-377 | an expiry empties exactly the slot its timer belongs to |
| LimitInvariants.OnExpiryView | mash-go/pkg/features/limit_resolver.go:347-377 | a callback that runs late clears exactly the slot its key stands for at that time |
| LimitResolver.LimitResolver.constructor | mash-go/pkg/features/limit_resolver.go:49-62 | a new resolver is in the initial state of the runs |
| LimitResolver.LimitResolver.HandleSetLimit | mash-go/pkg/features/limit_resolver.go:101-233 | the new state is the specified one; in terms of the request and the maxima: when it answers which constraint error, an override refusal or success; refusals carry the unchanged control state, successes the resulting one and the effective limits |
| LimitResolver.LimitResolver.HandleClearLimit | mash-go/pkg/features/limit_resolver.go:236-281 | the new state is the specified one, for both, either or an unrecognised direction |
| LimitResolver.LimitResolver.ClearZone | mash-go/pkg/features/limit_resolver.go:321-334 | the new state is the specified one |
| LimitResolver.LimitResolver.ClearZoneLocked | mash-go/pkg/features/limit_resolver.go:337-344 | removes both limits and all timers of the zone |
| LimitResolver.LimitResolver.ResetUnderLock | mash-go/pkg/features/limit_resolver.go:286-307 | the new state is a reset of which nobody has been told, and the result names the zones to be told |
| LimitResolver.LimitResolver.ResetAll | mash-go/pkg/features/limit_resolver.go:286-318 | both parts with nothing between them: the new state is the specified one, whatever order the index map is visited in |
| LimitResolver.LimitResolver.CancelAllTimers | mash-go/pkg/features/limit_resolver.go:289-292 | no timer of an indexed zone is left, every other one is |
| LimitResolver.LimitResolver.NotifyAllCleared | mash-go/pkg/features/limit_resolver.go:309-317 | afterwards none of the zones holds a limit, and other zones hold what they held |
| LimitResolver.LimitResolver.HandleTimerExpiry | mash-go/pkg/features/limit_resolver.go:347-377 | the new state is the specified one |
| LimitResolver.LimitResolver.ExpireTimer | mash-go/pkg/duration/timer.go:277-297 | table entry and callback as one step |
| LimitResolver.LimitResolver.ResolveAndApply | mash-go/pkg/features/limit_resolver.go:388-402 | lapsed limits leave, the most restrictive remaining ones are published |
| LimitResolver.LimitResolver.EnsureZoneIndex | mash-go/pkg/features/limit_resolver.go:406-415 | returns the zone's index, a new one modulo 256 if needed |
| LimitResolver.LimitResolver.ApplyLimit | mash-go/pkg/features/limit_resolver.go:176-214 | stores, times, recomputes and notifies |
| LimitResolver.LimitResolver.StoreLimit | mash-go/pkg/features/limit_resolver.go:186-201 | one direction: value, then timer armed, refused or cancelled |
| LimitResolver.LimitResolver.ReadMyLimit | mash-go/pkg/features/limit_resolver.go:69-97 | the caller's own stored value, nothing for a caller without a zone |
| DurationManager.Manager.SetTimer | mash-go/pkg/duration/timer.go:152-187 | replaces the timer, or refuses the duration and leaves the table alone |
| DurationManager.Manager.CancelTimer | mash-go/pkg/duration/timer.go:190-206 | removes the one timer and reports whether it existed |
| DurationManager.Manager.CancelZoneTimers | mash-go/pkg/duration/timer.go:209-221 | removes exactly the timers of the zone index |
| DurationManager.Manager.ExpireTimer | mash-go/pkg/duration/timer.go:277-297 | removes the timer and yields its value, or nothing if it is gone |
| MultiZone.EffectiveIsMinimum | mash-go/pkg/zone/zone.go:139-198 | for the non-negative values the resolver admits, the most restrictive value is the minimum over non-TEST zones |
| MultiZone.EffectiveUnique | mash-go/pkg/zone/zone.go:151-193 | at most one value is most restrictive, so the map's iteration order does not matter |
| MultiZone.EffectiveExists | mash-go/pkg/zone/zone.go:151-193 | every set of values has a most restrictive one or no eligible zone |
| MultiZone.MultiZoneValue.ResolveLimits | mash-go/pkg/zone/zone.go:139-198 | in any visiting order: expired values leave, the result is the most restrictive eligible value, and the winner is a zone that set it |
| MultiZone.MultiZoneValue.RemoveExpired | mash-go/pkg/zone/zone.go:127-133 | removes exactly the values whose time has passed |
| MultiZone.MultiZoneValue.Set | mash-go/pkg/zone/zone.go:101-114 | replaces the zone's value |
| MultiZone.MultiZoneValue.Clear | mash-go/pkg/zone/zone.go:117-119 | removes the zone's value |
| RequirementSearch.EffectiveFeatureLabel | mash-go/cmd/mash-docgen/generate.go:372-408 | terminates on every list of scenarios; "required" iff directly required; "optional" iff not and no path over last-named scenarios leads to a marking one; otherwise names a marking scenario at least distance |
| RequirementSearch.SameAnswers | mash-go/cmd/mash-docgen/generate.go:378-405 | nearest and unreachable mean the same through the lookup and over the list |
| RequirementSearch.NearestIffReachable | mash-go/cmd/mash-docgen/generate.go:372-408 | a nearest marking scenario exists iff one is reachable, so the three answers are exact |
| RequirementSearch.Frontier | mash-go/cmd/mash-docgen/generate.go:386-405 | every chain of requirements ends in a visited name or is at least as long as the head of the queue is deep |
| RequirementSearch.WalkVisits | mash-go/cmd/mash-docgen/generate.go:389-404 | visiting a name keeps the walk's invariant |
| RequirementSearch.WalkSkips | mash-go/cmd/mash-docgen/generate.go:391-393 | skipping a visited name keeps it |
| RequirementSearch.BuildLookup | mash-go/cmd/mash-docgen/generate.go:378-381 | knows a name iff some scenario has it, and maps it to the last one that does |
| RequirementSearch.HasRequired | mash-go/cmd/mash-docgen/generate.go:399-403 | finds exactly whether the scenario marks the feature |
| FailsafeRuns.LiveAlways | mash-go/pkg/failsafe/timer.go:231-385 | in every run (restores included) at most one failsafe timer is armed, exactly in TIMER_RUNNING; its deadline is startedAt + duration if the duration is left alone while it runs |
| FailsafeRuns.RemainingIsDistance | mash-go/pkg/failsafe/timer.go:322-336 | then RemainingTime is the distance to the armed deadline, and zero in every other state |
| FailsafeRuns.SetDurationWhileRunning | mash-go/pkg/failsafe/timer.go:204-213 | changing the duration of a running timer never moves its deadline; the report stays right iff the value is unchanged or both readings are zero |
| FailsafeRuns.RunningSince | mash-go/pkg/failsafe/timer.go:231-251 | a running timer goes back to a Start with no Stop or Reset since, and its deadline is a whole duration after it |
| FailsafeRuns.NeverEarly | mash-go/pkg/failsafe/timer.go:339-363 | whenever expiry enters FAILSAFE, a whole duration has passed since such a Start |
| FailsafeRuns.CallbackTrace | mash-go/pkg/failsafe/timer.go:255-385 | without Restore the reported changes form one path of legal transitions ending in the current state; without Reset too, enters and exits strictly alternate and the state is FAILSAFE iff an enter has no exit |
| FailsafeRuns.RestoreResumes | mash-go/pkg/failsafe/timer.go:463-537 | a restored running timer fires exactly the remaining time later; one with nothing left is in FAILSAFE at once; the other states come back, a grace period as NORMAL |
| FailsafeLimits.EnteredWithInForce | mash-go/pkg/failsafe/timer.go:339-363 | in every run, whatever enters FAILSAFE hands the device the limits in force, those of the last SetLimits or Restore |
| FailsafeLimits.StepEntered | mash-go/pkg/failsafe/timer.go:339-363 | a step reports "entered" iff an expiry or an immediate restore enters FAILSAFE, last of its calls |
| FailsafeLimits.LimitsInForce | mash-go/pkg/failsafe/timer.go:216-220 | in every run the limits are those last set or restored |
| FailsafeLimits.ChainCarriesLimits | mash-go/pkg/failsafe/timer.go:437-537 | over any chain of snapshots and restores whose legs set none, the limits are those of the first state |
| FailsafeLimits.ExpiryAfterChain | mash-go/pkg/failsafe/timer.go:339-363 | the expiry after such a chain hands the device the limits of the first state |
| FailsafeLimits.RestoreAfterChain | mash-go/pkg/failsafe/timer.go:504-515 | and so does a restore that finds nothing left |
| FailsafeLimits.RestoreLimits | mash-go/pkg/failsafe/timer.go:481-485 | after a restore the limits in force are those of the snapshot |
| FailsafeLimits.RestoreConfigures | mash-go/pkg/failsafe/timer.go:481-535 | the duration a restore leaves; the grace period stays and no change of state is reported |
| FailsafeLimits.ResetEnds | mash-go/pkg/failsafe/timer.go:297-318 | Reset leaves NORMAL with no failsafe timer from every state |
| FailsafeLimits.StartBegins | mash-go/pkg/failsafe/timer.go:231-251 | Start begins a whole duration from NORMAL and GRACE_PERIOD and leaves the other states alone |
| FailsafeLimits.StopEnds | mash-go/pkg/failsafe/timer.go:255-294 | Stop leads to GRACE_PERIOD iff from FAILSAFE with a grace period, else to NORMAL, and reports leaving FAILSAFE |
| FailsafeRuns.TimeConserved | mash-go/pkg/failsafe/timer.go:437-537 | over any chain of snapshots and restores of a running timer, through whatever leaves it running and its duration alone, with any down times, time run plus time remaining is the duration it was started with |
| FailsafeRuns.ChainExpires | mash-go/pkg/failsafe/timer.go:492-507 | once the time run adds up to the duration, the next restore is in FAILSAFE |
| FailsafeRuns.RestoreShortensDuration | mash-go/pkg/failsafe/timer.go:516-523 | a restore replaces the configured duration by what remained; it survives iff nothing had elapsed |
| FailsafeGrace.GraceEndsExactly | mash-go/pkg/failsafe/timer.go:272-277 | a grace period entered from FAILSAFE ends by its own timer exactly the grace time later |
| FailsafeGrace.GraceTidyExactly | mash-go/pkg/failsafe/timer.go:231-294 | a grace timer outlives its grace period iff Start or Stop leaves that state |
| FailsafeGrace.EndsEarlyExactly | mash-go/pkg/failsafe/timer.go:272-277 | a grace period is ended before its time iff a timer armed on entry is due before it is |
| FailsafeGrace.NeverCutShortAtAllIff | mash-go/pkg/failsafe/timer.go:204-385 | while no timer is late and nothing is restored, and whatever durations are set, every grace period lasts its time iff it is shorter than the initial duration and than the least one that can be set |
| FailsafeGrace.NeverCutShortIff | mash-go/pkg/failsafe/timer.go:231-385 | the same over runs in which durations set are longer than the grace period: iff it is shorter than the initial duration |
| FailsafeGrace.LeftoverGraceTimer | mash-go/pkg/failsafe/timer.go:272-280 | for every grace period at least as long as the duration, a run of two cycles from a new timer whose second grace period ends a duration early |
| FailsafeTimer.NewTimerWithConfig | mash-go/pkg/failsafe/timer.go:137-158 | refuses exactly the durations that are neither zero nor 2 to 24 hours; zero durations become the defaults |
| FailsafeTimer.Timer.Start | mash-go/pkg/failsafe/timer.go:231-251 | new state as specified; nothing happens in TIMER_RUNNING and FAILSAFE |
| FailsafeTimer.Timer.Stop | mash-go/pkg/failsafe/timer.go:255-294 | new state and callbacks as specified |
| FailsafeTimer.Timer.Reset | mash-go/pkg/failsafe/timer.go:297-318 | new state and callbacks as specified |
| FailsafeTimer.Timer.EnterFailsafe | mash-go/pkg/failsafe/timer.go:339-363 | new state and callbacks as specified |
| FailsafeTimer.Timer.ExitGracePeriod | mash-go/pkg/failsafe/timer.go:366-385 | new state and callbacks as specified |
| FailsafeTimer.Timer.SetDuration | mash-go/pkg/failsafe/timer.go:204-213 | accepts exactly 2 to 24 hours |
| FailsafeTimer.Timer.RemainingTime | mash-go/pkg/failsafe/timer.go:322-336 | as specified, never negative |
| FailsafeTimer.Timer.Snapshot | mash-go/pkg/failsafe/timer.go:437-458 | as specified |
| FailsafeTimer.Timer.Restore | mash-go/pkg/failsafe/timer.go:463-537 | new state and callbacks as specified |
| KeyAgreement.SamePoints | mash-go/pkg/commissioning/spake2plus.go:219-231 | for any abelian group and scalars, both sides compute the same Z and V (section 3.3 of RFC 9383) |
| KeyAgreement.KeysAgree | mash-go/pkg/commissioning/spake2plus.go:240-260 | same code and identities: both sides derive the same keys or fail alike |
| KeyAgreement.KeysExistIff | mash-go/pkg/commissioning/spake2plus.go:201-237 | in a prime-order group matching sides get keys iff neither ephemeral scalar is a multiple of the order |
| KeyAgreement.KeysEqualIff | mash-go/pkg/commissioning/spake2plus.go:240-260 | confirmation keys are equal iff the password scalars and joined identities are equal on both sides, unless identities and w0 make up for one another in length and the exchanged public values repeat with the difference |
| SessionKeys.SecretsEqualIff | mash-go/pkg/commissioning/spake2plus.go:251-259 | a shared secret is the first output of the derivation, equal iff the transcripts are, and no confirmation key |
| SessionKeys.SessionsEqualIff | mash-go/pkg/commissioning/spake2plus.go:402-423 | two completed handshakes, of whatever parties, have the same key iff they have the same transcript; no session key is a confirmation key |
| SessionKeys.FreshSessions | mash-go/pkg/commissioning/spake2plus.go:402-423 | with identities of the same length, sessions with the same key have the same public values, identities and w0 |
| SessionKeys.KeysOnlyForSameCode | mash-go/pkg/commissioning/session.go:44-244 | in every run a key is returned or accepted only between parties with the same code and joined identities, collisions of the derivation and ambiguous transcripts set apart |
| SessionKeys.MatchingMeansSame | mash-go/pkg/commissioning/spake2plus.go:81-106 | setups match iff code and joined identities are the same, if their derivations do not collide |
| SessionKeys.ConfirmationsDiffer | mash-go/pkg/commissioning/spake2plus.go:263-283 | a client confirmation is never a server confirmation |
| SessionKeys.ConfirmationsBind | mash-go/pkg/commissioning/spake2plus.go:426-446 | a confirmation is made for one key and one pair of public values |
| SessionKeys.ServerAnswers | mash-go/pkg/commissioning/session.go:170-236 | error 1 for a value that is no point, code 2 for a wrong confirmation, code 0 for the right one |
| KeyAgreement.TranscriptRepeats | mash-go/pkg/commissioning/spake2plus.go:403-414 | equal transcripts over the same public values make these repeat with the difference in length of the identities |
| KeyAgreement.AmbiguousGap | mash-go/pkg/commissioning/spake2plus.go:240-249 | identities that differ in length by more than a scalar is long are never ambiguous |
| KeyAgreement.VerifierRoundTrip | mash-go/pkg/commissioning/spake2plus.go:81-119 | loading a generated verifier gives back w0, L and the client identity; generation fails iff L is the identity point |
| SmallGroup.PremisesMet | mash-go/pkg/commissioning/spake2plus.go:143-260 | two parties that share a code meet every premise of the agreement and handshake results |
| Spake2Plus.MulMul | mash-go/pkg/commissioning/spake2plus.go:219-231 | repeated scalar multiplication multiplies scalars |
| Spake2Plus.MulAdds | mash-go/pkg/commissioning/spake2plus.go:188-194 | scalar multiplication distributes over the sum of scalars |
| Spake2Plus.Unblind | mash-go/pkg/commissioning/spake2plus.go:219-225 | subtracting the blinding term gives the blinded point back |
| Spake2Plus.ScalarRoundTrip | mash-go/pkg/commissioning/spake2plus.go:115-115 | a scalar's shortest big-endian bytes denote it |
| Spake2Plus.Client.constructor | mash-go/pkg/commissioning/spake2plus.go:144-178 | w0 and w1 are the derived scalars modulo the order |
| Spake2Plus.Client.PublicValue | mash-go/pkg/commissioning/spake2plus.go:182-198 | xG + w0M encoded, computed once and kept |
| Spake2Plus.Client.ProcessServerValue | mash-go/pkg/commissioning/spake2plus.go:201-260 | fills the keys, or reports an invalid or degenerate value |
| Spake2Plus.Client.Confirmation | mash-go/pkg/commissioning/spake2plus.go:263-269 | the MAC over both public values, own first, under the client label |
| Spake2Plus.Client.VerifyServerConfirmation | mash-go/pkg/commissioning/spake2plus.go:272-283 | accepts exactly the server's MAC under the same key |
| Spake2Plus.NewSPAKE2PlusServer | mash-go/pkg/commissioning/spake2plus.go:313-341 | fails iff there is no verifier or its L is no point; otherwise w0 and L are read back from it |
| Spake2Plus.Server.PublicValue | mash-go/pkg/commissioning/spake2plus.go:345-361 | yG + w0N encoded, computed once and kept |
| Spake2Plus.Server.ProcessClientValue | mash-go/pkg/commissioning/spake2plus.go:364-423 | fills the keys, or reports an invalid or degenerate value |
| Spake2Plus.Server.Confirmation | mash-go/pkg/commissioning/spake2plus.go:426-432 | the MAC over both public values, own first, under the server label |
| Spake2Plus.Server.VerifyClientConfirmation | mash-go/pkg/commissioning/spake2plus.go:435-446 | accepts exactly the client's MAC under the same key |
| PaseRuns.AgreementAlways | mash-go/pkg/commissioning/session.go:44-244 | in every two-party run, whatever codes and identities and wherever the connection fails, a key returned by either side is the one the server accepted |
| PaseRuns.KeysOnlyIfMatching | mash-go/pkg/commissioning/session.go:44-244 | in every run, whatever is lost or fails: a key is returned or accepted only if both sides derive the same keys, so only if the setups match (or the transcript is ambiguous) |
| PaseRuns.TracedAlways | mash-go/pkg/commissioning/session.go:44-244 | in every run each message and each derived key goes back to the two setups |
| PaseRuns.HandshakeIff | mash-go/pkg/commissioning/session.go:44-244 | in every run without failures, in whatever order the parties run: matching setups never fail and end with one key on both sides, others never yield a key and end with both failed; an ambiguous transcript ends in one of these ways |
| PaseRuns.MatchingHandshake | mash-go/pkg/commissioning/session.go:44-244 | same code and identities and proper scalars: no run without failures goes wrong, and when neither side can go on both have returned one key |
| PaseRuns.RoundsSettle | mash-go/pkg/commissioning/session.go:44-244 | every run without failures can be brought to an end by letting each party run a few more times |
| PaseRuns.RunIsStage | mash-go/pkg/commissioning/session.go:44-244 | every run without failures is at one of six stages, however the parties are scheduled |
| PaseRuns.MacBindsKeys | mash-go/pkg/commissioning/spake2plus.go:272-283 | a server confirmation that verifies was made under the client's own keys |
| PaseSession.PASEClientSession.Handshake | mash-go/pkg/commissioning/session.go:44-110 | the straight-line procedure returns, reads and writes what three client turns of a run do, for every incoming sequence and every write outcome |
| PaseSession.PASEServerSession.CompleteHandshake | mash-go/pkg/commissioning/session.go:161-244 | the same for two server turns after the request |
| PaseSession.PASEServerSession.WaitForPASERequest | mash-go/pkg/commissioning/session.go:143-155 | yields the first message's public value iff it is a request |
| PaseSession.NewPASEServerSession | mash-go/pkg/commissioning/session.go:126-137 | fails iff there is no usable verifier; otherwise the session holds what the verifier stores |
| PaseSession.GeneratedVerifierHeld | mash-go/pkg/commissioning/spake2plus.go:81-119 | a verifier generated for a setup gives the server what the handshake results are about |
| DiscoveryRuns.DiscoveryAlways | mash-go/pkg/discovery/advertiser.go:200-388 | in every run: OPERATIONAL and OPERATIONAL_COMMISSIONING have zones, UNCOMMISSIONED has none; commissioning iff the window timer is set iff the commissionable service is live; registered zones and commissioners are known ones with their texts, and pairing requests agree exactly |
| DiscoveryEffects.EnterExactly | mash-go/pkg/discovery/advertiser.go:200-257 | in every run, asking for the window leaves it open iff it was, or there is information and the registration succeeds or is not needed; state, deadline, registration, report and error in each case |
| DiscoveryEffects.StateAfter | mash-go/pkg/discovery/advertiser.go:200-473 | the discovery state after each event |
| DiscoveryEffects.ExitExactly | mash-go/pkg/discovery/advertiser.go:269-310 | leaving the window closes it from every state; only the timeout is counted as one |
| DiscoveryEffects.ZoneAfter | mash-go/pkg/discovery/advertiser.go:313-388 | what the manager knows of a zone after each event |
| DiscoveryEffects.ZoneRegistrationAfter | mash-go/pkg/discovery/mdns.go:138-233 | what is on the air for a zone after each event |
| DiscoveryEffects.ZoneErrors | mash-go/pkg/discovery/advertiser.go:313-369 | zone operations report no error iff they do what was asked |
| DiscoveryEffects.CommissionerAfter | mash-go/pkg/discovery/advertiser.go:398-446 | what the manager knows of a commissioner zone after each event |
| DiscoveryEffects.CommissionerRegistrationAfter | mash-go/pkg/discovery/mdns.go:236-331 | what is on the air for a commissioner zone after each event |
| DiscoveryEffects.CommissionerErrors | mash-go/pkg/discovery/advertiser.go:398-446 | commissioner operations report no error iff they do what was asked |
| DiscoveryEffects.PairingAfter | mash-go/pkg/discovery/advertiser.go:478-520 | which pairing requests are announced after each event |
| DiscoveryEffects.PairingErrors | mash-go/pkg/discovery/advertiser.go:478-520 | announcing succeeds iff the request is valid, new and registered |
| DiscoveryEffects.ValidExactly | mash-go/pkg/discovery/types.go:408-422 | valid iff 12-bit discriminator, identifier of 16 hexadecimal digits, and a host |
| DiscoveryTypes.IdExactly | mash-go/pkg/discovery/qrcode.go:177-184 | an identifier is 16 characters out of the hexadecimal digits of both cases |
| DiscoveryEffects.StopExactly | mash-go/pkg/discovery/advertiser.go:449-473 | nothing on the air, known or timed |
| DiscoveryRuns.CommissionableSince | mash-go/pkg/discovery/advertiser.go:215-257 | a live commissionable registration publishes what the manager held when the window was opened, and has done so ever since |
| DiscoveryRuns.NewInfoPublishedIff | mash-go/pkg/discovery/advertiser.go:188-226 | information given during an open window is published iff it is what is published already: neither setting it nor opening again replaces it |
| DiscoveryRuns.AgreementLostExactly | mash-go/pkg/discovery/mdns.go:138-192 | full agreement of registrations and manager is lost by exactly one kind of event: adding a known zone again when the new registration is refused |
| DiscoveryRuns.AgreementAlways | mash-go/pkg/discovery/mdns.go:138-331 | in runs without such an event registrations and manager agree completely |
| DiscoveryRuns.StrandedCannotLeave | mash-go/pkg/discovery/advertiser.go:342-369 | a zone that lost its registration can be neither updated nor removed |
| DiscoveryRuns.StrandedExactlyUntil | mash-go/pkg/discovery/advertiser.go:313-388 | it stays so until it is successfully added again or everything is stopped |
| DiscoveryRuns.StrandedCommissionerCannotLeave | mash-go/pkg/discovery/advertiser.go:415-446 | a commissioner zone that lost its registration can be neither updated nor removed |
| DiscoveryRuns.StrandedCommissionerExactlyUntil | mash-go/pkg/discovery/advertiser.go:398-446 | it stays so until it is successfully added again or everything is stopped |
| DiscoveryRuns.ChangesConnect | mash-go/pkg/discovery/advertiser.go:244-254 | the reported state changes form one path from UNREGISTERED to the current state without empty steps |
| DiscoveryRuns.StepChanges | mash-go/pkg/discovery/advertiser.go:313-388 | a step reports a change iff the state changed |
| DiscoveryRuns.WindowSince | mash-go/pkg/discovery/advertiser.go:200-242 | an open window goes back to an event that opened or re-timed it, has been open ever since with the deadline that event gave |
| DiscoveryRuns.WindowDeadline | mash-go/pkg/discovery/advertiser.go:163-179 | re-timing an open window equals re-opening it iff the duration is positive; zero does not mean the default, against the comment |
| DiscoveryRuns.WindowEndsOnTime | mash-go/pkg/discovery/advertiser.go:269-310 | the timer ends only a commissioning state, at or after its deadline, and reports the timeout |
| DiscoveryManager.DiscoveryManager.EnterCommissioningMode | mash-go/pkg/discovery/advertiser.go:200-257 | state, window, registration and error as specified |
| DiscoveryManager.DiscoveryManager.SetCommissioningWindowDuration | mash-go/pkg/discovery/advertiser.go:166-179 | stores the duration and restarts an open window with it |
| DiscoveryManager.DiscoveryManager.ExitCommissioningMode | mash-go/pkg/discovery/advertiser.go:261-310 | closes the window and the registration and moves by whether zones exist |
| DiscoveryManager.DiscoveryManager.AddZone | mash-go/pkg/discovery/advertiser.go:313-339 | as specified, with the error the registration gives |
| DiscoveryManager.DiscoveryManager.UpdateZone | mash-go/pkg/discovery/advertiser.go:342-356 | as specified |
| DiscoveryManager.DiscoveryManager.RemoveZone | mash-go/pkg/discovery/advertiser.go:359-388 | as specified |
| DiscoveryManager.DiscoveryManager.AddCommissionerZone | mash-go/pkg/discovery/advertiser.go:398-412 | as specified |
| DiscoveryManager.DiscoveryManager.UpdateCommissionerZone | mash-go/pkg/discovery/advertiser.go:415-429 | as specified |
| DiscoveryManager.DiscoveryManager.RemoveCommissionerZone | mash-go/pkg/discovery/advertiser.go:432-446 | as specified |
| DiscoveryManager.DiscoveryManager.AnnouncePairingRequest | mash-go/pkg/discovery/advertiser.go:478-503 | validates, refuses duplicates, registers |
| DiscoveryManager.DiscoveryManager.StopPairingRequest | mash-go/pkg/discovery/advertiser.go:506-520 | as specified |
| DiscoveryManager.DiscoveryManager.Stop | mash-go/pkg/discovery/advertiser.go:449-473 | nothing registered, no zones, UNREGISTERED |
| DiscoveryManager.MDNSAdvertiser.AdvertiseCommissionable | mash-go/pkg/discovery/mdns.go:68-119 | the old registration is gone even if the new one is refused |
| DiscoveryManager.MDNSAdvertiser.StopCommissionable | mash-go/pkg/discovery/mdns.go:122-135 | no commissionable registration is left |
| DiscoveryManager.MDNSAdvertiser.AdvertiseOperational | mash-go/pkg/discovery/mdns.go:138-192 | the zone's old registration is gone even if the new one is refused |
| DiscoveryManager.MDNSAdvertiser.UpdateOperational | mash-go/pkg/discovery/mdns.go:195-214 | replaces the published records of a live registration and leaves its port and host |
| DiscoveryManager.MDNSAdvertiser.StopOperational | mash-go/pkg/discovery/mdns.go:217-233 | removes a live registration or reports it missing |
| DiscoveryManager.MDNSAdvertiser.AdvertiseCommissioner | mash-go/pkg/discovery/mdns.go:236-290 | the zone's old registration is gone even if the new one is refused |
| DiscoveryManager.MDNSAdvertiser.UpdateCommissioner | mash-go/pkg/discovery/mdns.go:293-312 | replaces the published records of a live registration and leaves its port and host |
| DiscoveryManager.MDNSAdvertiser.StopCommissioner | mash-go/pkg/discovery/mdns.go:315-331 | removes a live registration or reports it missing |
| DiscoveryManager.MDNSAdvertiser.AnnouncePairingRequest | mash-go/pkg/discovery/mdns.go:392-446 | validates before anything else |
| DiscoveryManager.MDNSAdvertiser.StopPairingRequest | mash-go/pkg/discovery/mdns.go:449-465 | removes a live registration or reports it missing |
| DiscoveryManager.MDNSAdvertiser.StopAll | mash-go/pkg/discovery/mdns.go:468-495 | removes every registration unless quiet |
| TxtRecords.RecordsRoundTrip | mash-go/pkg/discovery/txtrecord.go:234-255 | flattened in any order and parsed again, records come back iff no key contains "="; values are arbitrary |
| TxtRecords.CategoriesRoundTrip | mash-go/pkg/discovery/txtrecord.go:196-230 | a category list of any length, the empty one too, comes back |
| TxtRecords.CommissionableRoundTrip | mash-go/pkg/discovery/txtrecord.go:13-78 | commissionable info comes back, host and port aside, iff the discriminator has 12 bits, and is otherwise refused |
| TxtRecords.OperationalRoundTrip | mash-go/pkg/discovery/txtrecord.go:81-137 | operational info comes back iff both identifiers are 16 hex digits; the exact error otherwise, lengths counted in bytes |
| TxtRecords.CommissionerRoundTrip | mash-go/pkg/discovery/txtrecord.go:140-193 | commissioner info comes back iff it has a zone name and a 16-digit zone identifier; the exact error otherwise |
| TxtRecords.PairingRequestRoundTrip | mash-go/pkg/discovery/txtrecord.go:269-312 | a pairing request that passes its validation comes back, host aside; the exact error otherwise |
| TxtRecords.CommissionableWire | mash-go/pkg/discovery/txtrecord.go:13-29 | which text stands under which key |
| TxtRecords.OperationalWire | mash-go/pkg/discovery/txtrecord.go:81-100 | which text stands under which key |
| TxtRecords.CommissionerWire | mash-go/pkg/discovery/txtrecord.go:140-159 | which text stands under which key |
| TxtRecords.PairingRequestWire | mash-go/pkg/discovery/txtrecord.go:269-282 | which text stands under which key |
| TxtRecords.DecodableExactly | mash-go/pkg/discovery/txtrecord.go:32-311 | records can be decoded iff what is required is there and well-formed |
| TxtRecords.DecodeErrors | mash-go/pkg/discovery/txtrecord.go:36-43 | a missing discriminator and a malformed one are told apart |
| TxtRecords.CategoryErrors | mash-go/pkg/discovery/txtrecord.go:46-72 | a malformed category list and a missing record are told apart |
| TxtRecords.ZoneErrors | mash-go/pkg/discovery/txtrecord.go:108-114 | a zone identifier of the wrong length and one that is not hexadecimal are told apart |
| TxtRecords.LenientCounts | mash-go/pkg/discovery/txtrecord.go:129-134 | a missing or malformed count reads as zero |
| TxtRecords.CategoryAppended | mash-go/pkg/discovery/txtrecord.go:196-206 | a comma before each further category |
| TxtRecords.PaddedCategories | mash-go/pkg/discovery/txtrecord.go:217-227 | blanks around and between categories are ignored; a number beyond 255 spoils the list |
| TxtRecords.ParseAppended | mash-go/pkg/discovery/txtrecord.go:245-253 | each further string is a pair under its key, a flag, or nothing |
| TxtRecords.EncodeCategories | mash-go/pkg/discovery/txtrecord.go:196-206 | the decimal forms joined by commas |
| TxtRecords.ParseCategories | mash-go/pkg/discovery/txtrecord.go:209-230 | skips blank parts and fails on any part that is not a number below 256 |
| TxtRecords.TXTRecordsToStrings | mash-go/pkg/discovery/txtrecord.go:234-240 | one "key=value" string for each entry, in some order |
| TxtRecords.StringsToTXTRecords | mash-go/pkg/discovery/txtrecord.go:243-255 | splits at the first "=", keeps flags, ignores empty strings |
| GoStrings.FormatParse | mash-go/pkg/discovery/txtrecord.go:17-17 | printing and parsing a number gives it back iff it is within the limit |
| GoStrings.SplitJoin | mash-go/pkg/discovery/txtrecord.go:196-214 | splitting what was joined gives the parts back |
| InspectPath.PathNormalForm | mash-go/internal/inspect/path.go:64-178 | for every accepted string, printing the path and parsing again gives the same path apart from the raw text |
| PathMeaning.AttributePath | mash-go/internal/inspect/path.go:64-144 | endpoint, feature and attribute in decimal, hexadecimal or by name, after a device or not; what follows is ignored |
| PathMeaning.CommandPath | mash-go/internal/inspect/path.go:123-135 | a command by its number |
| PathMeaning.PartialPath | mash-go/internal/inspect/path.go:106-121 | an endpoint alone or with a feature |
| PathMeaning.UnknownEndpoint | mash-go/internal/inspect/path.go:198-208 | a single part that is neither a number nor an endpoint is refused |
| PathMeaning.UnknownParts | mash-go/internal/inspect/path.go:111-142 | unknown features, attributes and commands and a missing command are refused, each with its error |
| PathMeaning.TooLarge | mash-go/internal/inspect/path.go:253-266 | an attribute number beyond 16 bits is refused |
| PathMeaning.Surroundings | mash-go/internal/inspect/path.go:65-73 | blank input, leading and double slashes are refused; white space around a path is ignored |
| PathMeaning.NumberReadsAs | mash-go/internal/inspect/path.go:237-250 | every spelling of a number reads as it, within the limit only |
| InspectPath.CanonicalIffParsed | mash-go/internal/inspect/path.go:64-145 | a path value is what some string parses to iff it is canonical |
| InspectPath.CanonicalRoundTrip | mash-go/internal/inspect/path.go:148-178 | every canonical path survives printing and parsing |
| InspectPath.PrintInjective | mash-go/internal/inspect/path.go:148-178 | different canonical paths print differently |
| InspectPath.ParsedCanonical | mash-go/internal/inspect/path.go:64-145 | every accepted string yields a canonical path |
| InspectPath.String | mash-go/internal/inspect/path.go:148-178 | the pieces of the path joined by slashes |
| InspectPath.EndpointReads | mash-go/internal/inspect/path.go:181-208 | the device-prefix test and the endpoint parser accept the same strings |
| Tombstones.StoreAlways | mash-go/pkg/cert/store_file.go:55-88 | in every run that starts with a load, whatever writes and deletions fail: memory and tombstones stay disjoint and cover the disk, and each successful save with nothing stuck leaves exactly the live entries on disk |
| Tombstones.LiveExactly | mash-go/pkg/cert/store_file.go:55-88 | in every run an entry is in memory exactly as last put, not after a removal, and otherwise as at the start |
| Tombstones.DiskExactly | mash-go/pkg/cert/store_file.go:154-177 | after a successful save with nothing stuck a directory is there iff its entry was put since last removed, or was there at the start and never mentioned |
| Tombstones.SaveEffect | mash-go/pkg/cert/store_file.go:154-177 | a successful save leaves each live entry as its write produced it, plus only tombstoned directories that resisted deletion |
| Tombstones.SavedExactly | mash-go/pkg/cert/store_file.go:170-174 | the disk is exactly the live entries iff no tombstoned directory resisted |
| Tombstones.RetrySucceeds | mash-go/pkg/cert/store_file.go:154-177 | from whatever failed saves left, a save without failures succeeds and is exact |
| Tombstones.Save | mash-go/pkg/cert/store_file.go:163-174 | the loops do a save in some order of the entries, stopping at the first failure before any deletion |
| Tombstones.Load | mash-go/pkg/cert/store_file.go:203-216 | finds every entry, or, iff some directory cannot be read, fails with those found before it |
| Tombstones.ReloadExactly | mash-go/pkg/cert/store_file.go:180-219 | a second load keeps memory and tombstones disjoint iff no removed entry still has its directory |
| Tombstones.ReloadedVanishes | mash-go/pkg/cert/store_file.go:154-219 | otherwise the removed entry is back in memory and the next successful save deletes its directory |
| CertStore.LoadAfterSave | mash-go/pkg/cert/store_file.go:180-282 | a load after a successful save returns the stored certificates (zone type aside) iff no zone without a CA certificate has an older one left in its directory |
| CertStore.ReadAfterWrite | mash-go/pkg/cert/store_file.go:221-282 | one zone: what a read after a complete write returns, the stale CA certificate included |
| CertStore.InterruptedWrite | mash-go/pkg/cert/store_file.go:221-282 | over any directory: an interrupted write leaves a readable one iff no file is damaged and the files not reached were good, and then a mixture of new and old; a later complete write mends it |
| CertStore.InterruptedSave | mash-go/pkg/cert/store_file.go:203-248 | on a readable disk, an interrupted write makes every later load fail iff it damaged a file or stopped before the key of a new zone |
| ControllerStore.DevicesAfterSave | mash-go/pkg/cert/store_file_controller.go:177-230 | a load after a successful save returns the same devices, with the hex form of their key identifiers filled in |
| ControllerStore.HexRoundTrip | mash-go/pkg/cert/store_file_controller.go:370-407 | hexadecimal text decodes to the bytes it was made from |
| ControllerStore.ReadAfterWriteDevice | mash-go/pkg/cert/store_file_controller.go:364-410 | one device: a read after a complete write |
| CertStore.FileStore.SetOperationalCert | mash-go/pkg/cert/store_file.go:55-73 | refuses a missing certificate and a new zone beyond the maximum; otherwise stores it and clears the tombstone |
| CertStore.FileStore.RemoveOperationalCert | mash-go/pkg/cert/store_file.go:76-88 | moves the zone from memory to the tombstones |
| CertStore.FileStore.SetZoneCACert | mash-go/pkg/cert/store_file.go:122-139 | also replaces the CA certificate of a stored zone, and revives no removed one |
| CertStore.FileStore.Save | mash-go/pkg/cert/store_file.go:154-177 | the disk and the outcome of a specified save |
| CertStore.FileStore.Load | mash-go/pkg/cert/store_file.go:180-219 | adds what it finds to memory, keeps the tombstones, and fails iff a directory cannot be read |
| ControllerStore.FileControllerStore.AddDevice | mash-go/pkg/cert/store_file_controller.go:102-112 | stores a device that has an identifier and clears its tombstone |
| ControllerStore.FileControllerStore.RemoveDevice | mash-go/pkg/cert/store_file_controller.go:128-139 | moves the device from memory to the tombstones |
| ControllerStore.FileControllerStore.Save | mash-go/pkg/cert/store_file_controller.go:154-191 | zones, then own files, then devices; each stays untouched on disk unless everything before succeeded |
| ControllerStore.FileControllerStore.Load | mash-go/pkg/cert/store_file_controller.go:194-233 | zones, own files, devices: the exact outcome, a panic included |
| ControllerStore.FileControllerStore.SetZoneCA | mash-go/pkg/cert/store_file_controller.go:65-75 | replaces the zone CA or refuses a missing one |
| ControllerStore.FileControllerStore.SetControllerCert | mash-go/pkg/cert/store_file_controller.go:89-99 | replaces the certificate or refuses a missing one |
| ControllerStore.PanicsExactly | mash-go/pkg/cert/store_file_controller.go:335-362 | loading dereferences a missing zone CA iff there is none in memory, none complete on disk, and a complete controller certificate |
| ControllerStore.LoadsExactly | mash-go/pkg/cert/store_file_controller.go:276-362 | what is complete on disk replaces what is in memory, the certificate in the zone of the CA; what is missing leaves it |
| ControllerStore.FailsExactly | mash-go/pkg/cert/store_file_controller.go:203-211 | loading the own files fails iff a file that is reached is damaged |
| ControllerStore.OwnAfterSave | mash-go/pkg/cert/store_file_controller.go:163-213 | after saving a certificate of its own a controller cannot be loaded again iff neither it nor the directory has a zone CA; with one both come back, the certificate in the zone of the CA |
| ControllerStore.InterruptedCA | mash-go/pkg/cert/store_file_controller.go:241-312 | a first save of the CA that is interrupted is skipped by the next load, unless it damaged a file |
| ControllerStore.InterruptedCert | mash-go/pkg/cert/store_file_controller.go:314-333 | an interrupted first save of the certificate leaves the CA and no certificate, unless it damaged a file |
| Backoff.ClosedFormIff | mash-go/pkg/connection/backoff.go:90-106 | with multiplier 2, the k-th base delay is min(initial * 2^k, max) for all k iff initial is at most max |
| Backoff.RangeIff | mash-go/pkg/connection/backoff.go:90-106 | for any multiplier, delays stay within [initial, max] iff, and never decrease iff, initial is at most max |
| Backoff.ReachesMaxIff | mash-go/pkg/connection/backoff.go:99-103 | the maximum is ever reached iff initial is at least max or the first step gains a whole nanosecond (truncation otherwise holds the delay in place) |
| Backoff.DefaultSequence | mash-go/pkg/connection/backoff.go:149-159 | with default settings the base delays are BackoffSequence, staying at its last entry |
| Backoff.JitterExactly | mash-go/pkg/connection/backoff.go:139-145 | a delay can be returned iff it is the base, or above it and below base * (1 + jitter) |
| Backoff.Backoff.constructor | mash-go/pkg/connection/backoff.go:65-87 | improper settings become the defaults, proper ones are kept |
| Backoff.Backoff.Next | mash-go/pkg/connection/backoff.go:90-106 | returns a jittered delay within its bounds and moves to the base delay of the next attempt |
| Backoff.Backoff.Peek | mash-go/pkg/connection/backoff.go:109-113 | returns a jittered delay of the current attempt and moves nothing |
| Backoff.Backoff.Reset | mash-go/pkg/connection/backoff.go:117-122 | back to the initial delay and no attempts |

## Left out

- KeyAgreement.KeysEqualIff: of an ambiguous transcript it says nothing; it compares the identities joined, since the source only uses them so.
- KeyAgreement.KeysAgree: excludes public values and verifier points that are the identity, which has no encoding (the Go library panics there).
- PaseRuns.HandshakeIff: the same exclusions, and both derivations succeed; PaseRuns.KeysOnlyIfMatching covers the runs in which one does not.
- LimitRuns.CouplingAlways: restricted to atomic expiries, durations of at most 24 hours and 256 zones; LimitOutcomes covers split expiries and refused durations, LimitBoundaries shows what more than 256 zones do.
- LimitRuns.ReplicaFollows: restricted like CouplingAlways; LimitOutcomes.ReplicaExactly is the unrestricted form.
- LimitResolver.LimitResolver.ResetAll: its notifications are part of the same step, although the source sends them after unlocking; LateReset proves what late ones do.
- FailsafeGrace.NeverCutShortAtAllIff: runs without Restore.
- FailsafeTimer.Timer.Restore: unknown state codes in a snapshot are not modelled.
- Backoff.ReachesMaxIff: exact real numbers; rounding to float64 could move the boundary.
- Backoff.JitterExactly: any real draw below one, where the source draws a float64.
- Backoff.Backoff.Next: products are exact real numbers, so floating-point rounding and 64-bit overflow are not modelled.
- InspectPath.PathNormalForm: the name tables are arbitrary lookups that include the case folding.
- A deletion that fails half-way is modelled as leaving the directory as it was.
- PEM and JSON are modelled as text that is held, torn or absent; nil private keys, entries that are not directories, the removal of the old identity directory, and pointers shared between caller and store are not modelled.
- Other interleavings of handlers than the ones named under Assumptions.
- 64-bit overflow of durations and of limit values.
- Context deadlines, timing padding and the CBOR form of the PASE messages.
- Instance names, host names, ports, interfaces and TTLs of mDNS services, and the browser; a registration's port and host are the given ones, before defaults and normalisation.
- Nil commissionable, zone and pairing information given to the discovery manager.
- ResolveSetpoints and the getters of the modelled types.
- TLS, TCP and reconnection loops, generated feature accessors, code generators other than the one search, command-line programs, the web server, formatters, PICS rules and the example applications.
