# Verification of the monitoring engine's core

A Dafny model of four parts of the repository, with proofs about their behaviour
over every input and every run.

**The alert engine** (`netpath/alertengine.py`, `netpath/alertrules.py`). A tick drains
event sources past their stored cursors, evaluates thresholds against streaks kept
in memory, applies every occurrence to every rule, rolls alerts up under the outage
that explains them, and notifies. The modules follow those stages:

- `RollupRules`, `RuleGates`, `Rollup`, `RollupSteps`, `RollupExclusion`, `RollupOrder`,
  `RollupMemo`, `TopmostOutages`, `Topology`, `RecoveryGap`, `ParentCover` and
  `DedupKeys`: which rule takes an occurrence up, and which alert is open when one
  device's outage implies another's. `Rollup` holds the pure step (`Apply`) and the class
  `AlertEngine` whose methods compute it; `RuleGates` and `RollupSteps` say what one step
  does in the columns of rules and alerts, the other modules what runs of it keep.
- `Thresholds`, `SampleVerdicts`, `Streaks`, `HysteresisBand`, `HandResolve`,
  `PolledRules` and `ChangeDriven`: one step function for the device, DHCP and NetPath evaluators, and
  what a streak means in terms of the samples seen.
- `Cursors`, `CursorSafety` and `SystemQueue`: reading forward, and what survives
  failing drains, stages and ticks.
- `SendBudget`, `Notices`, `NoticeChannels`, `FirstNotice`, `NoticeRuns`, `SweepOutcome`,
  `NoticeEvents` and `NoticeRollup`: the held first notice, the digest, reminders, clear
  notices and the hourly budgets.

**The simulated SNMP agent** (`demo/fleet.py`, `demo/personas.py`): `Lexicographic`,
`OidTable`, `GetBulk`, `SnmpAgent` and `Bitmaps`.

**The flow exporters** (`demo/flows.py`): `Exporters` and `FlowStream`.

**The stanza extractor** (`netpath/configrx_stanza.py`): `Strings`, `Stanza`
and `InterfaceNames`.

Where the source updates an object in place the model has a class; each of its
methods is proved equal to a pure step function, and the properties are proved about
runs of that function. Python integers, ids and counters are unbounded; times and
samples are reals; an unusable optic reading is one distinguished value.

## Where the code is weaker than it says

Each of these is proved, with the exact condition or a concrete run.

- The upstream answer is remembered for a tick on the ground that it cannot change
  within one (`netpath/alertengine.py:2483-2499`). It can: `MemoGoesStale`. A remembered
  "covered" never goes stale (`RuleKeepsMemoTrue`); a remembered "uncovered" does
  exactly when an outage on the device's chain opens later in the tick, and where the
  two topology reads agree it stays stale to the end
  (`UncoveredGoesStaleExactlyByAnOpening`).
- So a device the tick was asked about, by its own report or by any occurrence that
  rolls up under its outage, ends open beside its upstream when the upstream is reported
  before it is: `QuestionThenReportOpensBeside` with each device reported once,
  `RepeatReopensBesideItsUpstream` with one reported twice, as replaying the outages
  under two recovered upstreams can do. Which batches come out right in every order is
  exact, where the reads agree: `OrderSurvivesExactlyHarmlessQuestions`.
- The upstream walk stops after eight devices, the downstream one after two thousand.
  Order independence needs the two to agree, which they do exactly within both limits:
  `AgreementIsDepthEightWithinCap`, `DisagreementMakesOrderMatter`. A device past the
  second is suppressed under an upstream that does not report it again on recovery:
  `RecoverySpeaksExactlyForTheListed`.
- A sensor's alert is suppressed under its device's outage but not absorbed by a later
  one: `OnlySensorsOutliveTheOutage`, `SensorPairBothOpen`.
- `for_seconds` is documented as "continuously over" (`netpath/alertrules.py:305-313`);
  the run and its clock survive values between the two limits. A rule means what is
  documented, on a device and on a DHCP scope or NetPath destination alike, exactly when
  there are none: `SecondsMeanContinuouslyOverExactlyWithoutABand`,
  `PolledSecondsMeanContinuouslyExactlyWithoutABand`.
- The DHCP and NetPath streaks count values at or over the threshold even for a rule
  that fires below it (`netpath/alertengine.py:1871`, `2163`), which the rule
  editor accepts. Such a rule counted in polls fires on equality alone; counted in
  seconds it never fires while every reading is under its threshold, and can fire at once
  after one over it: `StreakMatchesVerdictExactlyAbove`, `BelowFiresOnEqualityOnly`,
  `NeverFiresStrictlyUnder`, `BelowFiresAtOnceExactlyWithABand`.
- A changed limit pair is said to re-open an alert resolved by hand
  (`netpath/alertengine.py:1594-1607`); it does so only once a newer sample arrives:
  `LimitChangeReopensOnlyOnANewerSample`.
- A stage that raises after its drain's generator ended loses the rows it drained, unless
  all of them had been handed on before: `LateFailureIsSafeExactlyWhenHarmless`,
  `LateFailureLosesRows`. An id re-used at or below the stored cursor or a pending
  advance is lost too; no other insertion is: `InsertIsSafeExactlyWhenObserved`,
  `UnobservedReuseLosesRows`, `ReuseBelowPendingAdvanceLosesRows`.
- A system commit throws away items no apply loop saw exactly when the cap trimmed since
  its snapshot, or its own drain failed with an unapplied snapshot left in flight:
  `CommitLosesExactly`.
- A muted alert's first notice is meant to wait (`netpath/alertengine.py:2712-2723`);
  one that was acknowledged is dropped an hour after its delay:
  `QuietNoticesStayOwed`.
- A port number below 1 wraps round in an encoded port list: `PortListRoundTrip`.
- An exporter that is live only announces its template first because the wall clock is
  past its first minute: `TooEarlyToAnnounce`, `HandoffIsSeamless`.
- A Junos block is cut at the line whose braces bring it to balance or below
  (`netpath/configrx_stanza.py:106-113`), so a line that closes more than is open ends it
  unbalanced: `JunosBlockIsBalanced`, `OvercloserEndsBelowBalance`.

## Model

| member | source | states |
|---|---|---|
| `TopmostOutages.ExactlyTheTopmostOutagesStayOpen` | netpath/alertengine.py:2826-2876 | from any open set with no member above another, applying a batch of any occurrences leaves `device_down` open for exactly the topmost devices of those open and those reported down, less those under a hand-resolved outage, as long as a device asked about while nothing above it was out still has nothing above it out or reported when its own report comes; no trace of the order remains |
| `TopmostOutages.OutageOrderDoesNotMatter` | netpath/alertengine.py:2921-2989 | two such batches that report the same devices, among whatever else and in whatever order, end with the same open outages |
| `RollupOrder.DisagreementMakesOrderMatter` | netpath/alertengine.py:2501-2534 | where a device is beneath one its own upstream chain does not reach, the two orders of their outages end differently |
| `RollupMemo.MemoGoesStale` | netpath/alertengine.py:2483-2499 | the per-tick memo's claim that its answer cannot change mid-tick is false: a child opens under an open upstream outage because an earlier answer was remembered, and asked afresh it would not |
| `RollupMemo.UncoveredGoesStaleExactlyByAnOpening` | netpath/alertengine.py:2483-2499 | over a tick's whole batch, with acyclic topology reads, an answer remembered as uncovered is stale at some moment if and only if an outage on the device's chain opened at or after the step that asked; where the two reads agree it then stays stale to the end, and asked afresh the device would be covered |
| `RollupMemo.RuleBlocksExactlyByOpening` | netpath/alertengine.py:2501-2534 | one rule turns an unblocked device into a blocked one if and only if it newly opens an outage on its chain |
| `TopmostOutages.OrderSurvivesExactlyHarmlessQuestions` | netpath/alertengine.py:2921-2989 | every arrangement of a batch of any occurrences leaves the topmost outages open if and only if each device that one occurrence can make the tick remember and another reports down is excused or under an open outage from the start, or has nothing above it reported |
| `TopmostOutages.QuestionThenReportOpensBeside` | netpath/alertengine.py:2483-2499 | each device reported once: an occurrence that asks about a device, then its upstream's report, then its own, leaves both outages open; with the upstream first, the upstream's alone |
| `TopmostOutages.RepeatReopensBesideItsUpstream` | netpath/alertengine.py:1025-1059 | a device, its upstream, and the device again in one tick leave both outages open |
| `RollupOrder.RuleKeepsMemoTrue` | netpath/alertengine.py:2464-2499 | a remembered `covered` never goes stale within a tick |
| `RollupOrder.RuleKeepsSpokenFor` | netpath/alertengine.py:2826-2876 | an outage is removed only in favour of one upstream of it, so a device once spoken for stays so |
| `RollupOrder.BatchSpeaks` | netpath/alertengine.py:2921-2989 | every device that reported down anywhere in a batch ends with an open or hand-resolved-and-still-true outage on itself or above, memo included |
| `RollupOrder.ReplayDownstreamOutages` | netpath/alertengine.py:1025-1059 | the replay holds a `down` occurrence if and only if it is the one of a listed device that is enabled and still down |
| `RollupOrder.RecoveryLeavesNothingSilent` | netpath/alertengine.py:989-1023 | with sound topology reads, after an upstream recovers and the tick's batch is applied, every enabled device beneath it that is still down is spoken for |
| `RollupMemo.ImpliedAlertOpensExactlyWhen` | netpath/alertengine.py:2362-2431 | an alert implied by its device's outage opens if and only if the device's outage is neither open nor resolved by hand and still true, and nothing up its chain is -- or was, when the tick first asked about the device |
| `Rollup.AlertEngine.UpstreamOutageOf` | netpath/alertengine.py:2464-2534 | the memoised walk up the chain answers what the specification's walk does and updates memo and covers as it does |
| `Rollup.AlertEngine.RollupParentOf` | netpath/alertengine.py:2362-2431 | the rollup parent of an occurrence: the open parent, a suppressing outage, or none |
| `Rollup.AlertEngine.ParentWasResolvedByHand` | netpath/alertengine.py:2536-2614 | whether the parent's hand resolve still covers the child, and the cover it establishes or drops |
| `Rollup.AlertEngine.AbsorbOne` | netpath/alertengine.py:2804-2824 | removes exactly the child rule's alerts about the entity and, for a device, about its ports |
| `Rollup.AlertEngine.AbsorbChildren` | netpath/alertengine.py:2878-2919 | removes exactly the alerts the rollup table puts under the parent for that entity |
| `Rollup.AlertEngine.AbsorbDownstream` | netpath/alertengine.py:2826-2876 | removes exactly the open outages beneath the device and what had rolled up under those |
| `Rollup.AlertEngine.ApplyOne` | netpath/alertengine.py:2933-3013 | one rule of the apply loop: gates, suppression, hand resolve, open or increment, absorb |
| `Rollup.AlertEngine.ApplyBatch` | netpath/alertengine.py:384-410 | the tick's apply loop over a batch is the fold of the single-occurrence specification |
| `RuleGates.RuleTakesUpExactly` | netpath/alertrules.py:401-464 | outside the rollup table a rule opens its alert or counts one more if and only if the kind, device filter and mute let it and the columns its kind asks for do -- source kind, pinned rule, priority, unmanaged, severity; otherwise nothing changes |
| `RuleGates.SeverityFloorIsExact` | netpath/alertrules.py:410-418 | a trap or message rule without a source kind takes up exactly the severities up to its own number |
| `RuleGates.WorseOpensToo` | netpath/alertrules.py:410-418 | whatever severity changes anything, a worse one changes the same, in the rollup table too |
| `RuleGates.CriticalTrapOpensOnTheCritical` | netpath/alertsdb.py:877 | the shipped critical-trap rule opens for severity 1 and not for severity 6 |
| `RollupSteps.OpeningOutageLeavesExactly` | netpath/alertengine.py:2758-2919 | a newly opened outage removes exactly the alerts it implies, the outages beneath it and what those imply; everything else stays as it was |
| `RollupSteps.SuppressedOutageSweepsToo` | netpath/alertengine.py:2951-2964 | a suppressed outage report opens nothing and removes exactly the alerts that outage implies |
| `RollupSteps.ChildOfOtherParentOpensExactly` | netpath/alertengine.py:2536-2614 | the child of a parent other than a device's outage opens if and only if that parent's alert, asked about the same entity for a same-metric pair and about the device otherwise, is not open and was not resolved by hand at or after the child's breach began |
| `RollupSteps.WithoutRollup` | netpath/alertengine.py:2921-2989 | with rollup off a rule opens or counts whatever else is open, and removes nothing |
| `RollupExclusion.ExclusionHoldsInEveryReachableState` | netpath/alertengine.py:2362-2431 | in every reachable state no child and parent of the rollup table are open together for one entity, or a port and its device |
| `RollupExclusion.OpenParentCovers` | netpath/alertengine.py:2388-2431 | an open parent keeps the child's rule from opening anything |
| `RollupExclusion.OnlySensorsOutliveTheOutage` | netpath/alertengine.py:2804-2824 | when a device's outage opens, an open child of it survives if and only if it is about a sensor |
| `RollupExclusion.SensorPairBothOpen` | netpath/alertengine.py:2333-2360 | the concrete run that leaves a sensor's child alert and its device's outage open together |
| `RollupRules.RollsUpInverts` | netpath/alertrules.py:670-674 | the inverted rollup table lists exactly the children the table gives each parent |
| `RollupRules.WhatAnAlertImplies` | netpath/alertrules.py:503-580 | which alerts each parent makes redundant, listed by parent |
| `RollupRules.BuildRollsUp` | netpath/alertrules.py:670-674 | the module-level loop builds that inverse |
| `ParentCover.CoverHoldsUntilTheDeviceAnswers` | netpath/alertengine.py:2536-2614 | through any run in which the device stays down, the cover stands and nothing its outage implies opens, whatever time passes |
| `ParentCover.SuppressionEstablishesCover` | netpath/alertengine.py:2579-2614 | a child suppressed by a hand resolve of the still-true outage leaves the cover behind, dated from the resolve |
| `ParentCover.AnswerEndsCover` | netpath/alertengine.py:2590-2596 | the first question after the device answers drops the cover and suppresses nothing |
| `ParentCover.WalkEndsCover` | netpath/alertengine.py:2516-2534 | the walk up a chain drops the cover of a device that has answered and goes on without it |
| `Topology.UpstreamChain` | netpath/nodesdb.py:2183-2208 | the capped, cycle-safe walk equals the specification's climb |
| `Topology.ClimbExactly` | netpath/nodesdb.py:2183-2208 | over any topology, cycles included, the walk up goes link by link, repeats nobody, and stops short of its depth only at a device with no upstream or one already seen |
| `Topology.DownstreamIds` | netpath/nodesdb.py:2210-2243 | the level-by-level walk, in batches and cycle-safe, gives distinct devices beneath the one asked about: all of them, or as many as the cap |
| `Topology.WalkedDownAcyclic` | netpath/nodesdb.py:2210-2243 | over an acyclic topology what that walk is promised to draw from is exactly the devices whose upstream chain, uncapped, holds the one asked about |
| `Topology.SoundExactlyWithinCap` | netpath/nodesdb.py:2210-2243 | over an acyclic topology the two reads satisfy what the rollup proofs assume if and only if no device has more than 2000 beneath it |
| `Topology.AgreementIsDepthEightWithinCap` | netpath/nodesdb.py:2183-2243 | the two reads agree if and only if moreover no device has more than eight above it |
| `RecoveryGap.RecoverySpeaksExactlyForTheListed` | netpath/alertengine.py:989-1023 | after an upstream recovers and its replays are applied, an alert speaks for a device still down beneath it, nothing else above it being out, if and only if the capped walk down lists it |
| `DedupKeys.KeyTextInjective` | netpath/alertrules.py:66-69 | two (rule, entity) pairs never share a dedup key, for colon-free rule names |
| `DedupKeys.RangeIsPrefix` | netpath/alertsdb.py:3273-3278 | the half-open text range from a prefix to its bumped form is exactly the keys that begin with it |
| `DedupKeys.RangeSelectsExactlyTheDevicesPorts` | netpath/alertengine.py:2820-2823 | the range for `rule:interface:7:` meets that rule's alerts about device 7's ports and no other key |
| `DedupKeys.SweepOnTextIsTheSweep` | netpath/alertengine.py:2804-2824 | on stored text the exact key and the range together resolve exactly the alerts the entity-level sweep does |
| `Thresholds.ThresholdScanner.Scan` | netpath/alertengine.py:1417-1752 | a full pass rebuilds the streak table, a dirty pass updates it in place; either raises exactly the targets whose verdict is a breach past the hand-resolve gate and the gate on samples already reported |
| `Thresholds.RetickChangesNothing` | netpath/alertengine.py:1603-1657 | looking again at an unchanged sample changes nothing and repeats the verdict |
| `Streaks.StreakCountsDistinctSamples` | netpath/alertengine.py:1603-1657 | the stored streak is the number of distinct samples in the longest unbroken breach reaching the latest look, however many ticks looked at each |
| `Streaks.PollVerdictMeansThatManySamples` | netpath/alertrules.py:292-347 | a rule counted in polls breaches if and only if the latest value does and at least for_polls distinct samples in a row counted, and at least one |
| `Streaks.FiresFromTheNthSampleOn` | netpath/alertrules.py:292-347 | over an unbroken breach the rule is silent until the for_polls-th distinct sample, first fires at the first look at it, and goes on firing |
| `SampleVerdicts.FirstSampleVerdict` | netpath/alertrules.py:244-347 | what a target's first sample says, by side of the two limits, direction and duration |
| `SampleVerdicts.FirstOddSampleVerdict` | netpath/alertrules.py:244-347 | the same for infinities and what is no number |
| `SampleVerdicts.StaleExactly` | netpath/alertengine.py:1590-1602 | a sample older than the staleness limit says nothing and ends the run; one exactly that old counts |
| `SampleVerdicts.GapRestartsExactly` | netpath/alertengine.py:1635-1652 | a further breaching sample counts one more and keeps the first breach unless it is further than the staleness limit from the last, or the limits changed: then it is the first of a new run |
| `SampleVerdicts.RaisedExactly` | netpath/alertengine.py:1730-1752 | a scan raises exactly the targets whose verdict is a breach, whose run was not resolved by hand, and whose sample is news to an open alert |
| `SampleVerdicts.EveryTargetSteps` | netpath/alertengine.py:1603-1657 | a scan takes every target it does not skip one step on, from its own entry or from none |
| `Streaks.OneOccurrencePerSample` | netpath/alertengine.py:1738-1748 | between restarts a sample raises at most one occurrence |
| `Streaks.FirstBreachIsWhereTheRunBegan` | netpath/alertengine.py:1609-1652 | the remembered first breach is where the current run began; samples inside the hysteresis band leave it |
| `Streaks.SecondsVerdictMeansRunThatLong` | netpath/alertrules.py:292-347 | a `for_seconds` rule breaches if and only if the latest value does and a run that began that long before is still alive |
| `HysteresisBand.SecondsMeanContinuouslyOverExactlyWithoutABand` | netpath/alertrules.py:305-313 | over every history of a device's measured samples, and for every staleness limit, a `for_seconds` rule fires only when continuously over for that long, as documented, if and only if no reading lies between its two limits, or none can breach |
| `HysteresisBand.BandKeepsTheClock` | netpath/alertengine.py:1645-1650 | for any limits with a band, any duration and any staleness limit: a breach, values in the band never too far apart, and a breach fire the rule though it was not continuously over |
| `HysteresisBand.SecondsSpanTheHysteresisBand` | netpath/alertrules.py:305-313 | one such rule and its three samples |
| `PolledRules.StreakMatchesVerdictExactlyAbove` | netpath/alertengine.py:1868-1876 | the DHCP and NetPath streaks count what the verdict calls a breach, for every reading, if and only if the rule has no threshold or fires above it and is no optic's |
| `PolledRules.PolledCountVerdict` | netpath/alertengine.py:1868-1884 | counted in polls, a polled rule of either direction fires if and only if its last value breaches and at least for_polls distinct polls in a row, and at least one, were at or over the threshold |
| `PolledRules.BelowFiresOnEqualityOnly` | netpath/alertengine.py:1868-1884 | so a rule below its threshold, counted in polls, fires on equality alone |
| `PolledRules.PolledSecondsVerdict` | netpath/alertengine.py:1868-1884 | counted in seconds, a polled rule fires if and only if its last value breaches and a run begun that long before, at a value at or over the threshold, has been neither dropped nor cleared |
| `PolledRules.NeverFiresStrictlyUnder` | netpath/alertengine.py:1868-1884 | counted in seconds, no polled rule ever fires while every reading is strictly under its threshold, not even one that fires below it |
| `PolledRules.PolledSecondsMeanContinuouslyExactlyWithoutABand` | netpath/alertengine.py:2158-2176 | over every poll history a DHCP or NetPath rule of either direction, counted in seconds, fires only when it has breached continuously for that long if and only if no reading lies between its two limits, or none can breach |
| `PolledRules.BelowFiresAtOnceExactlyWithABand` | netpath/alertengine.py:2158-2176 | counted in seconds, a rule below its threshold can fire on a single breaching poll if and only if a value above the threshold does not clear |
| `PolledRules.BelowTenFiresAtOnce` | netpath/alertengine.py:2158-2176 | one such rule and its two polls |
| `HandResolve.ResolveGatesExactlyItsRun` | netpath/alertengine.py:2313-2327 | a breaching look raises if and only if the resolve, if any, came before its run began and its sample is news |
| `HandResolve.HandResolveHoldsForTheRun` | netpath/alertengine.py:335-336 | from the resolve on, while the run lasts and the resolve is inside its window, nothing is raised |
| `HandResolve.DeviceHandResolveHolds` | netpath/alertengine.py:1734-1737 | the device-threshold instance: every later look of a resolved run stays closed |
| `HandResolve.PolledHandResolveHolds` | netpath/alertengine.py:2158-2194 | the DHCP and NetPath instance, for rules of either direction |
| `HandResolve.DeviceBreachPassesExactlyAfterItsResolve` | netpath/alertengine.py:1734-1737 | a device's breaching look, its alert closed, is raised if and only if the resolve is out of its window or came before the run began: the next run's first breach passes |
| `HandResolve.PolledBreachPassesExactlyAfterItsResolve` | netpath/alertengine.py:2189-2194 | the same for DHCP and NetPath polls, either direction |
| `HandResolve.DeviceStreakCountsSamples` | netpath/alertengine.py:1609-1652 | a device streak counts the distinct samples breaching in a row under the limit pair in force |
| `HandResolve.LimitChangeReopensOnlyOnANewerSample` | netpath/alertengine.py:1594-1607 | after a limit change an alert resolved by hand re-opens if and only if the sample on show is newer than the resolve (a code comment promises always) |
| `ChangeDriven.LazySimulatesEager` | netpath/alertengine.py:1390-1415 | tick by tick the change-driven table equals the full scan's, or is old only while the full scan's is reset by staleness |
| `ChangeDriven.SameVerdictAtEveryLook` | netpath/alertengine.py:1473 | wherever the change-driven scan looks it reaches the full scan's verdict |
| `ChangeDriven.SkippedTicksSayNothingNew` | netpath/alertengine.py:1390-1415 | a tick it skips would only have repeated the previous verdict, or said nothing of a stale sample |
| `ChangeDriven.GapReconciles` | netpath/alertengine.py:1635-1652 | a new sample after a silence that reset the full scan's entry resets the lazy one by its gap branch |
| `Cursors.AfterIsSuffix` | netpath/alertengine.py:676-701 | what is pending past a cursor is a suffix of the table: exactly the rows with larger ids |
| `Cursors.PagesJoin` | netpath/alertengine.py:636-674 | reading on from the last row of a page gives the rest: paging skips and repeats nothing |
| `Cursors.Drainer.ReadForward` | netpath/alertengine.py:636-674 | the rows handed out are an id-ordered prefix of all pending rows, complete unless the consumer stopped, or a full batch ended with the tick's 5000 rows read or its deadline passed |
| `Cursors.Drainer.DrainFrom` | netpath/alertengine.py:676-701 | seeds, rewinds, hands out and records an advance only when the consumer did not raise |
| `Cursors.Drainer.DrainTick` | netpath/alertengine.py:636-674 | k sources sharing a batch size read at most DRAIN_ROW_BUDGET - 1 rows and one batch each in a tick |
| `Cursors.Drainer.FlushCursors` | netpath/alertengine.py:612-616 | the flush stores every recorded advance and clears the record |
| `CursorSafety.CursorsNeverPassUnhandedRows` | netpath/alertengine.py:323-416 | over every run with failing drains, stages and ticks, harmless late failures included: each row at or below a stored cursor was handed to an apply loop that ran, or precedes the seed |
| `CursorSafety.LateFailureIsSafeExactlyWhenHarmless` | netpath/alertengine.py:1116-1139 | a stage may raise after its drain ended without harm to the cursors if and only if every row that drain handed over had been handed on before |
| `CursorSafety.OnlyFlushMovesForward` | netpath/alertengine.py:578-617 | an aborted drain, stage or tick never moves a stored cursor forward |
| `CursorSafety.FullDrainAdvances` | netpath/alertengine.py:676-701 | a full drain of a source with pending rows records an advance to its maximum |
| `CursorSafety.SeedHidesHistory` | netpath/alertengine.py:687-689 | no row in the table of a source without a cursor when it is first drained is handed over then or later, through any allowed run in which that table is not seen to drop |
| `CursorSafety.SeedHidesNothingElse` | netpath/alertengine.py:687-689 | a row inserted next with a larger id is all that the next drain yields |
| `CursorSafety.UnseededIsUntouched` | netpath/alertengine.py:676-689 | no run from the start hands over a row of a source it has not seeded |
| `CursorSafety.SeenDropRewinds` | netpath/alertengine.py:690-694 | a table seen to drop below its cursor takes it along: a row inserted next is all that the next drain yields |
| `CursorSafety.DeletionExactly` | netpath/alertengine.py:676-701 | a deletion takes exactly those rows of exactly that table and leaves the cursors where they are |
| `CursorSafety.TickReadsOn` | netpath/alertengine.py:676-701 | a completed tick hands over what its drain yielded and the next reads on from there: no row twice, none left out |
| `CursorSafety.AbandonedIsReadAgain` | netpath/alertengine.py:676-701 | an abandoned drain hands over nothing and is read again |
| `CursorSafety.TickIsAllowed` | netpath/alertengine.py:323-416 | a tick over a source -- begin, drain, apply, flush, end -- is an allowed run from any idle engine and leaves it idle |
| `CursorSafety.LateFailureLosesRows` | netpath/alertengine.py:1116-1139 | a stage that raises after its generator ended records an advance for rows it then throws away: no run of later events hands them over |
| `CursorSafety.InsertIsSafeExactlyWhenObserved` | netpath/alertengine.py:676-701 | a new row keeps cursor safety if and only if its id is above the stored cursor and above any advance about to be stored |
| `CursorSafety.UnobservedReuseLosesRows` | netpath/alertengine.py:676-701 | an id re-used at or below the stored cursor before the deletion was seen is handed over by no run of events while the row stays in its table |
| `CursorSafety.ReuseBelowPendingAdvanceLosesRows` | netpath/alertengine.py:612-616 | an id re-used within a tick at or below an advance not yet flushed is lost the same way |
| `CursorSafety.PassedIsLost` | netpath/alertengine.py:676-701 | a row the cursor has passed unhanded is never handed over, whatever happens, while it stays in its table |
| `SystemQueue.OccurrenceQueue.Raise` | netpath/alertengine.py:420-442 | appends, dropping from the front beyond the cap |
| `SystemQueue.OccurrenceQueue.Snapshot` | netpath/alertengine.py:451-468 | hands out the whole queue and remembers how much; nothing when the stage raises |
| `SystemQueue.OccurrenceQueue.Commit` | netpath/alertengine.py:470-479 | deletes from the front as many items as were handed out |
| `SystemQueue.NothingLeavesUnapplied` | netpath/alertengine.py:420-479 | over every run that keeps the order within a tick -- trims, failing drains and aborted ticks included -- the queue is what was appended less what has gone, a snapshot is a slice of the history, and what has gone was applied, dropped by the cap or lost by a commit |
| `SystemQueue.EachItemLeavesOnce` | netpath/alertengine.py:420-479 | item by item over every such run: each that has gone left in one step, having been through an apply loop, dropped by an append at the cap of 1000, or thrown away by a commit after a trim or a failed drain |
| `SystemQueue.CommitLosesExactly` | netpath/alertengine.py:470-479 | in any such state a commit loses unapplied items if and only if the cap trimmed since its snapshot, or its own drain failed and an earlier snapshot not yet applied was left in flight; and how many |
| `SystemQueue.CommitRemovesExactlyItsSlice` | netpath/alertengine.py:470-479 | with no trim in between a commit removes exactly its slice and later appends stay in order |
| `SystemQueue.FailedTickRedelivers` | netpath/alertengine.py:451-468 | after a failed tick the next one hands over what is left of the same items, first and in order, and what was appended since |
| `SystemQueue.CleanTickEmptiesTheQueue` | netpath/alertengine.py:420-479 | a tick in which nothing fails hands over the whole queue, applies it and empties it, but for what was appended meanwhile |
| `SystemQueue.FailedDrainAfterFailedTickLosesItems` | netpath/alertengine.py:451-479 | the shortest run of the second kind |
| `SystemQueue.TrimBeforeCommitLosesItems` | netpath/alertengine.py:442 | after any number of appends between a tick's apply loop and its commit, the commit loses as many unapplied items as the cap dropped, up to all it handed out |
| `SendBudget.SpacedHistoryFitsTheWindow` | netpath/alertengine.py:3162-3184 | a history in which any cap + 1 attempts span more than an hour puts at most cap of them in any window of 3600 seconds |
| `SendBudget.NoHourHoldsMoreThanTheCap` | netpath/alertengine.py:3162-3184 | with the clock going forward no window of 3600 seconds holds more attempts than the cap |
| `SendBudget.RefusedOnlyWhenTheHourIsFull` | netpath/alertengine.py:3162-3184 | a send is over the cap if and only if the hour before it already holds that many attempts |
| `NoticeRuns.SweepDecides` | netpath/alertengine.py:3578-3678 | after a sweep every due alert is settled as its decision says, and no other row is touched but by re-arming |
| `SweepOutcome.SweepTellsExactly` | netpath/alertengine.py:3591-3678 | with room under a channel's cap a due alert's first notice goes out on it if and only if the alert's rule notifies at its severity, it is neither resolved, rolled up, in maintenance nor muted, and the channel's own conditions hold -- those of a single notice for up to three such alerts, those of a digest for more; without room never more than that |
| `SweepOutcome.NobodyIsToldAbout` | netpath/alertengine.py:3598-3656 | a sweep submits nothing for an alert that is muted, in maintenance, resolved, rolled up, of a disabled or system rule, or milder than both floors |
| `SweepOutcome.SweepLeavesExactly` | netpath/alertengine.py:3598-3656 | after a sweep a due alert is undecided if and only if nothing but a mute stood against it; any other is stamped now, and held exactly when only its device's maintenance, with or without a mute, did |
| `SweepOutcome.ReasonExactly` | netpath/alertengine.py:3598-3656 | of the alerts whose rule notifies, exactly those too mild, resolved, rolled up or in maintenance get a reason recorded while the due alerts are settled |
| `SweepOutcome.FirstNoticeMeansSendable` | netpath/alertengine.py:3578-3678 | over every run a first notice goes out only in a sweep, about an alert then due, sendable and open to the channel |
| `NoticeEvents.DueExactly` | netpath/alertsdb.py:2414-2440 | a held first notice is due from the delay, an hour at most, after its alert opened, for one hour or as long as it is marked held |
| `NoticeEvents.OpeningTellsExactly` | netpath/alertengine.py:2656-2694 | with the hold on an opening tells nobody and owes the notice; with it off the notice goes out at once where the channel is open |
| `NoticeEvents.RepeatTellsExactly` | netpath/alertengine.py:2656-2694 | a repeat goes out if and only if the first notice is decided and the channel is open to it |
| `NoticeEvents.ReminderTellsExactly` | netpath/alertengine.py:3061-3088 | a reminder goes out if and only if the first notice is decided, the rule is on, the device is not quiet, and the channel is open to it |
| `NoticeEvents.ReminderStampsExactly` | netpath/alertengine.py:3109-3249 | it stamps the alert if and only if a text or a mail went out or the alert is too mild for mail, and touches no other alert |
| `NoticeEvents.NoticeRecordsExactly` | netpath/alertengine.py:3109-3249 | a notice records that it was not sent if and only if a channel it is meant for is over its cap, or it is a first notice or repeat by mail whose alert is too mild or whose rule has no template |
| `NoticeEvents.ClearTellsExactly` | netpath/alertengine.py:3478-3540 | a cleared alert is resolved; a clear notice goes out if and only if they are on, the problem was decided on, the device is not quiet and the channel is open; an undecided alert is stamped with the reason |
| `NoticeEvents.ClosedSilentlyExactly` | netpath/alertengine.py:2662-2694 | an absorbed or expired alert is resolved with nobody told; an undecided one is stamped and the reason written down |
| `NoticeEvents.RearmExactly` | netpath/alertsdb.py:2886-2905 | when a device's maintenance ends exactly its open alerts marked held owe their first notice again |
| `NoticeRuns.QuietNoticesStayOwed` | netpath/alertengine.py:2712-2737 | a notice kept quiet stays due for ever if and only if its alert was marked held, or is open and belongs to a device |
| `NoticeRuns.EveryRunIsGood` | netpath/alertengine.py:2656-2694 | over every run: no reminder, repeat or clear notice precedes its alert's decision, and no first notice goes out twice on a channel |
| `NoticeRuns.NoHourOverTheCap` | netpath/alertengine.py:3724-3780 | in every run no hour holds more attempts on a channel than its cap, single notices, reminders, clears and digests together |
| `NoticeRuns.FirstNoticesWaitForTheSweep` | netpath/alertengine.py:3578-3678 | a first notice goes out only in a sweep, only about an alert whose delay has passed and that the sweep's questions then call neither covered, resolved, muted nor in maintenance |
| `NoticeRollup.NoFirstNoticeUnderAnOpenParent` | netpath/alertengine.py:3618-3640 | with the sweep's questions answered by the rollup, no first notice goes out while the alert's parent is open, nor, for an alert under its device's outage, while the device or anything up its chain is out or covered by hand, nor, for a device's outage itself, while anything up its chain is; what the tick remembers of the chain counts as its answer |
| `NoticeRuns.StepKeepsGood` | netpath/alertengine.py:3040-3088 | each event -- opening, repeat, clear, close, acknowledge, re-arm, reminders, sweep -- keeps the run invariant, and none but a sweep submits a first notice |
| `NoticeChannels.EachChannelDecidesForItself` | netpath/alertengine.py:3109-3249 | a notice goes out on a channel if and only if that channel's own switch, floor, budget and recipients pass, for one attempt, whatever the others do |
| `NoticeChannels.EachDigestDecidesForItself` | netpath/alertengine.py:3680-3788 | a digest tells, on each channel, exactly the alerts that channel speaks for when its own conditions pass, for one attempt in all |
| `FirstNotice.ReasonsAreRecorded` | netpath/alertengine.py:3616-3656 | every due alert decided without a send has the reason recorded on it |
| `FirstNotice.SendDigestGood` | netpath/alertengine.py:3680-3788 | a digest stamps every alert it was given, whichever guard stops it, and tells about no other |
| `FirstNotice.EmailDigestGood` | netpath/alertengine.py:3724-3788 | the email digest stamps all it speaks for and tells them if and only if the budget, the relay and the recipients allow |
| `FirstNotice.DigestGood` | netpath/alertengine.py:3724-3780 | one channel's digest is one attempt however many alerts it speaks for, or no attempt and a reason on each |
| `FirstNotice.SettleAllGood` | netpath/alertengine.py:3591-3660 | the pass before sending settles each alert as decided and disturbs no other, re-arming included |
| `FirstNotice.SendEachGood` | netpath/alertengine.py:3663-3678 | the one-by-one branch stamps each alert it releases whichever way its channels return |
| `FirstNotice.NotifyGood` | netpath/alertengine.py:3109-3249 | a single notice keeps the run invariant and touches its own alert alone |
| `Notices.Notifier.SweepRollup` | netpath/alertengine.py:3578-3678 | the sweep's loop and its two branches compute the specified new state |
| `Notices.Notifier.Digest` | netpath/alertengine.py:3680-3788 | the three digests in order, stamping between them as the code does |
| `Notices.Notifier.SweepRenotify` | netpath/alertengine.py:3061-3088 | reminders, skipping undecided, disabled and muted alerts |
| `OidTable.NextIsLeastGreater` | demo/personas.py:95-97 | the successor is in the table, greater than the request, with nothing between; none only when nothing is greater |
| `OidTable.NextOid` | demo/personas.py:95-97 | the binary search finds that successor |
| `GetBulk.StreamHoldsTheChains` | demo/fleet.py:248-263 | without the cap the repeating part is in repetition-major order and holds exactly each column's successor chain |
| `GetBulk.RepeatingColumns` | demo/fleet.py:228-264 | in the request's own numbers n and r: the successors of the first n columns once each, then slots repetition-major, each other column's a leading part of its chain of r successors, and all r of them when the reply did not fill its 120 |
| `GetBulk.NonRepeatingComeFirst` | demo/fleet.py:240-247 | binding i of a non-repeating column is the successor of the i-th name or the end marker |
| `GetBulk.OutOfRange` | demo/fleet.py:240-250 | fewer than no columns counts as none, more than there are as all, fewer than one repetition as one |
| `GetBulk.ReplySize` | demo/fleet.py:252-262 | a reply holds at least the non-repeating columns and at most max(120, that many) bindings |
| `GetBulk.OneRepetitionIsGetNext` | demo/fleet.py:215-225 | GETBULK with one repetition is GETNEXT, whatever the number of non-repeaters, cut where the reply is full |
| `GetBulk.ChainIsTheTail` | demo/personas.py:95-97 | iterated GETNEXT is the table from the request on, then one end-of-view |
| `GetBulk.SingleColumnReply` | demo/fleet.py:228-264 | a single-column reply is the next part of the table: max-repetitions objects, one for less than one, 120 for more |
| `SnmpAgent.GetBody` | demo/fleet.py:194-212 | version 2 answers each object or a marker; version 1 fails whole at the first missing one |
| `SnmpAgent.GetNextBody` | demo/fleet.py:215-225 | the same for successors |
| `SnmpAgent.GetAgreesWithGetNext` | demo/fleet.py:194-225 | GET answers the object a GETNEXT leads to, and finds none between it and the name asked about |
| `SnmpAgent.GetBulkBody` | demo/fleet.py:228-264 | the nested loops with cursors, exhaustion and the cap compute exactly the specified reply |
| `SnmpAgent.Walk` | demo/fleet.py:228-264 | chaining single-column replies ends and enumerates the table suffix once, in order, for any max-repetitions |
| `SnmpAgent.ReplyGoesForward` | demo/fleet.py:248-263 | a reply either ends the table or ends on an object strictly further on with the rest still ahead |
| `SnmpAgent.Agent.HandlePacket` | demo/fleet.py:267-346 | which packets are answered and which dropped, by community, version, decoding and request kind; which error each special device gives; which counters move; and what each request is answered |
| `Bitmaps.EncodeBitmap` | demo/personas.py:644-656 | n octets with exactly the positions' bits set, negative indices wrapping as in Python; raises exactly when one reaches past the start |
| `Bitmaps.PositionsWrap` | demo/personas.py:650-656 | in encoded octets every position is set, counted from the front, or from the end when negative, and none lies outside |
| `Bitmaps.MostSignificantFirst` | demo/personas.py:644-656 | bit k of an octet is the one worth 2 to the power 7 - k |
| `Bitmaps.FirstAndEighthPort` | demo/personas.py:644-664 | port 1 alone is the octet 0x80, port 8 alone 0x01 |
| `Bitmaps.EncodePortList` | demo/personas.py:659-664 | port N at position N - 1, with the same error condition |
| `Bitmaps.EncodeVlanBitmap` | demo/personas.py:667-675 | the column's VLANs at base-relative positions; never raises |
| `Bitmaps.Decode` | netpath/nodepoll/_decode.py:624-666 | the numbers of the set bits, strictly ascending, for either origin |
| `Bitmaps.PortListRoundTrip` | demo/personas.py:659-664 | decoding an encoded port list gives the ports back if and only if all are at least 1 |
| `Bitmaps.PortListIsMinimal` | demo/personas.py:652-653 | no shorter bitmap can hold the highest port |
| `Bitmaps.PortListIsUnique` | demo/personas.py:644-656 | the octets are determined by the set |
| `Bitmaps.VlanColumnRoundTrip` | demo/personas.py:667-675 | a column decodes to exactly the VLANs of its 1024 and fits in 128 octets |
| `Bitmaps.FourColumnsRoundTrip` | demo/personas.py:667-675 | the four columns decode to pairwise disjoint sets whose union is the input within 0..4095 |
| `FlowStream.GenerateFlows` | demo/flows.py:198-231 | hours in turn, each sorted, cut at the cap: the result is oldest first |
| `FlowStream.HoursInOrder` | demo/flows.py:198-231 | the hours' sorted batches concatenate to a non-decreasing sequence |
| `FlowStream.HoursKeepEveryFlow` | demo/flows.py:198-231 | every flow drawn for an hour of the span is in the sequence as often as drawn, and no other |
| `FlowStream.ByTimeIsStable` | demo/flows.py:224 | flows that end together stay in the order they were drawn |
| `FlowStream.CapKeepsTheOldest` | demo/flows.py:225-230 | a cap keeps the oldest, as many as it allows |
| `Exporters.ExporterState.RefreshDatagram` | demo/flows.py:405-417 | a template datagram with the next sequence number, and the counters after it |
| `Exporters.ExporterState.FlushDatagram` | demo/flows.py:419-447 | the pending records as one datagram with the next sequence number, or nothing |
| `Exporters.ExporterState.Accept` | demo/flows.py:464-477 | what the burst does with one flow |
| `Exporters.ExporterState.AcceptLive` | demo/flows.py:556-571 | what the live loop does with one flow |
| `Exporters.BurstKeeps` | demo/flows.py:464-477 | any burst step keeps conservation, numbering, template-first and true counters |
| `Exporters.LiveKeeps` | demo/flows.py:556-571 | any live step keeps them, holds nothing back, and leaves the last template under a minute old |
| `Exporters.LiveSendsExactly` | demo/flows.py:556-571 | a live flow goes out at once, after a template if and only if the version has them and the last is a minute old |
| `Exporters.TooEarlyToAnnounce` | demo/flows.py:560-564 | a fresh exporter's first live datagram is a template if and only if the clock has reached 60 seconds |
| `Exporters.BurstCadence` | demo/flows.py:475-477 | in the burst no datagram is more than 200 after a template and less than a batch is pending |
| `FlowStream.TemplatesExactly` | demo/flows.py:450-482 | in a burst a template comes first and then after every 200 datagrams of records, and nowhere else; version 5 sends none |
| `FlowStream.BurstFillsItsDatagrams` | demo/flows.py:464-477 | every datagram of records but the last holds 30 of version 5, 20 of the others |
| `FlowStream.StreamDatagrams` | demo/flows.py:450-482 | each exporter ends in the state its own flows give it, flushed |
| `FlowStream.RunLive` | demo/flows.py:535-576 | the live loop stops at the cap and leaves each exporter in the state its own live flows give it |
| `FlowStream.LetOutExactly` | demo/flows.py:549-575 | the live loop lets out every flow or meets the cap exactly |
| `FlowStream.BurstDelivers` | demo/flows.py:450-482 | after the burst nothing is pending and the datagrams carry exactly the exporter's flows in order, rightly numbered, template first, one per 200 |
| `FlowStream.HandoffIsSeamless` | demo/flows.py:579-624 | burst then live, whenever the live phase starts: the datagrams carry the burst's flows then the live ones and every sequence number continues; a template precedes all data if and only if the version has none, the burst gave the exporter a flow, there is no live flow, or the first comes at 60 seconds or later |
| `FlowStream.ProjectionsPartition` | demo/flows.py:458-465 | every generated flow goes to its own exporter, as often as it occurs, and to no other |
| `FlowStream.ProjectInOrder` | demo/flows.py:458-465 | and in the order it came: of a stream in two parts an exporter gets its flows of the first, then those of the second |
| `FlowStream.ProjectLiveInOrder` | demo/flows.py:549-571 | the same for the live flows |
| `Stanza.InterfaceStanza` | netpath/configrx_stanza.py:122-153 | the block of the first header of the first of the five ways that finds one; none only when no way does |
| `Stanza.StanzaIsWithin` | netpath/configrx_stanza.py:122-153 | every stanza is a run of whole lines of the text, from its header on |
| `Stanza.ColumnBlockIsMaximal` | netpath/configrx_stanza.py:53-65 | a column-0 block is the longest run of lines that begin with a blank or tab or are a lone `!`, less the `!` lines it ends with, and holds no other column-0 header |
| `Stanza.DeeperBlockIsMaximal` | netpath/configrx_stanza.py:72-84 | an indented header's block is the longest run of deeper lines |
| `Stanza.JunosBlockIsShortest` | netpath/configrx_stanza.py:106-113 | a Junos block is the shortest from its header whose braces close, or reaches the end |
| `Stanza.JunosBlockIsBalanced` | netpath/configrx_stanza.py:106-113 | a Junos block is balanced exactly, or runs to the end of the text with braces open, if and only if none of its lines, the header included, closes more than is open when it is reached |
| `Stanza.OvercloserEndsBelowBalance` | netpath/configrx_stanza.py:106-113 | for any header and any first line that closes more than is open, the block ends with that line, below balance |
| `Stanza.DoubleCloserOverbalances` | netpath/configrx_stanza.py:106-113 | one such block, its second line closing two |
| `Stanza.PlainHeaderOpensOne` | netpath/configrx_stanza.py:87 | a header whose name has no brace opens exactly one |
| `Stanza.ScanMeans` | netpath/configrx_stanza.py:90-119 | inside at depth d if and only if an `interfaces` header met outside any such block is above, nothing has closed its block, and d of the braces opened from it on are still open |
| `InterfaceNames.NamesMatchExactly` | netpath/configrx_stanza.py:20-50 | two names with alphabetic leads match if and only if what follows is the same and one lead begins the other, or they are the same text, case aside |
| `InterfaceNames.NumbersDecide` | netpath/configrx_stanza.py:28-43 | names whose numbers differ at the same length never match |
| `InterfaceNames.HeadersExactly` | netpath/configrx_stanza.py:10-13 | a line is a column-0 header of NAME if and only if it is `interface` in any case, blanks, NAME and blanks from its start; an indented one if and only if it is that after blanks, as many as the indent |
| `InterfaceNames.BlockHeadersExactly` | netpath/configrx_stanza.py:87 | a line opens a block called NAME if and only if it is blanks, NAME without a blank in it, blanks, a brace and blanks |
| `InterfaceNames.InterfacesHeaderExactly` | netpath/configrx_stanza.py:86 | an `interfaces` header is that word and a brace, with any blanks around |
| `InterfaceNames.HeaderExactly` | netpath/configrx_stanza.py:122-153 | each of the first four ways finds exactly the headers at column 0, or indented, whose name is a candidate's, in full or abbreviated |
| `InterfaceNames.JunosHeaderExactly` | netpath/configrx_stanza.py:90-119 | the Junos way finds exactly the blocks directly inside an `interfaces` block that name a candidate |
| `InterfaceNames.ExactMatchMeans` | netpath/configrx_stanza.py:23-25 | two names match in full if and only if, less the blanks around them, they are the same text but for case |
| `InterfaceNames.NoLeadNoAbbreviation` | netpath/configrx_stanza.py:17-37 | a name that begins with no letter abbreviates nothing and has no abbreviation |
| `InterfaceNames.BlanksDoNotMatter` | netpath/configrx_stanza.py:23-37 | blanks around either name change neither kind of match |
| `InterfaceNames.DeeperMeans` | netpath/configrx_stanza.py:68-84 | a line belongs to an indented header's block by beginning with more blanks and tabs than the header, and then something, a lone `!` excepted |
| `InterfaceNames.NetMeans` | netpath/configrx_stanza.py:106-113 | a line's net is the braces it opens less those it closes |
| `InterfaceNames.CandidatesMembers` | netpath/configrx_stanza.py:122-131 | the candidates are the names given that are not empty |
| `InterfaceNames.OwnHeaderIsWanted` | netpath/configrx_stanza.py:122-153 | the first column-0 header, when it has the name asked for, is the one found |
| `InterfaceNames.OwnBlockIsAHeader` | netpath/configrx_stanza.py:90-119 | a block called NAME directly inside an `interfaces` block is a header of NAME |
| `InterfaceNames.PreferredWays` | netpath/configrx_stanza.py:122-153 | column-0 headers before indented ones, exact names before abbreviated ones, Junos last |
| `Stanza.IndentedBlock` | netpath/configrx_stanza.py:53-65 | the column-0 scanner's two loops return exactly that run of lines |
| `Stanza.IndentedHeaderBlock` | netpath/configrx_stanza.py:72-84 | the indented scanner's loop returns exactly that run of lines |
| `Stanza.JuniperBlock` | netpath/configrx_stanza.py:90-119 | the first named block directly inside an `interfaces` block that names a candidate; none only when there is none |
| `Strings.JoinSplit` | netpath/configrx_stanza.py:131 | splitting a text into lines and joining them loses nothing |
| `Strings.StripMeans` | netpath/configrx_stanza.py:28-33 | stripping leaves nothing of a blank text, and of another what lies between the blanks around it |
| `Strings.SpacesExactly` | netpath/configrx_stanza.py:28-33 | which characters are blanks, one by one |

## Left out

- Delivery of mail, webhooks and texts, credentials, template rendering, counters and log text: only submitted, recorded and stamped are modelled, and a submission the full queue refuses counts as submitted.
- SQLite, locks, threads and clocks: tables are maps and sequences, a tick's steps are atomic, and one reading of the clock serves a whole stage or sweep.
- An occurrence whose application raises: the code counts and skips it, and the model counts every occurrence handed to the apply loop as applied.
- The hold on a newly added device and device-wide mutes: they take occurrences out of the batch before it is applied, so a batch here is what is left.
- Rollup notes, `rolled_up_into` links and the resolver's name on absorbed alerts.
- Entity ids that do not parse as numbers, and several rules without a key: a rule without a key is taken to roll up nothing.
- The order in which absorbed alerts are resolved: the model removes a set.
- TopmostOutages.ExactlyTheTopmostOutagesStayOpen: assumes topology reads that agree; `AgreementIsDepthEightWithinCap` says when they do and `DisagreementMakesOrderMatter` what happens when they do not.
- RollupMemo.UncoveredGoesStaleExactlyByAnOpening: assumes topology reads that are sound; `SoundExactlyWithinCap` says when they are.
- RollupOrder.RecoveryLeavesNothingSilent: assumes sound topology reads too; past the cap of the walk down, `RecoverySpeaksExactlyForTheListed` says which devices stay silent.
- PolledRules.BelowFiresAtOnceExactlyWithABand: speaks of two polls; over every history there is `PolledSecondsMeanContinuouslyExactlyWithoutABand`.
- A DHCP scope polled without a timestamp: such polls in a row count once at most and start no clock; every poll of the model carries its timestamp.
- RollupExclusion.ExclusionHoldsInEveryReachableState: pairs about sensors are not included, because the code does not absorb them.
- ChangeDriven.LazySimulatesEager: targets a pass skips (baseline, fallback, no published limit) are not included; a dirty pass keeps their old entries where a full pass drops them.
- HysteresisBand.SecondsMeanContinuouslyOverExactlyWithoutABand: readings are finite or minus infinity; a plus infinity or not-a-number, which no device reports, neither breaches nor clears for some rules.
- Cursors.Drainer.DrainTick: a source's table does not change while its drain reads it.
- Several entries of one source tied on one id, and sources whose readers differ in batch size.
- What the predicates of each drain select, names given to devices in messages, and the IPAM pairing: they decide which occurrences exist, not what becomes of them.
- Flapping detection, syslog signatures and the sweep of expired alerts: independent of the state machines here, and easy.
- NoticeRuns.EveryRunIsGood: the hold is on with fixed settings; with the hold off every notice goes out at once and there is nothing to decide.
- Notices.Notifier.SweepRollup: the rollup, mute and maintenance answers the loop asks for are inputs; `NoFirstNoticeUnderAnOpenParent` ties the first of them to the rollup.
- NoticeRuns.FirstNoticesWaitForTheSweep: muted and in maintenance are given facts, as above.
- FirstNotice.NotifyGood: a first notice whose channel is off, unreachable or without a template is stamped with no reason recorded, as in the code.
- Values of objects that change between two readings: an agent's table is read at one moment; object identifiers are lists of numbers, not text.
- SnmpAgent.Agent.HandlePacket: the version 3 branch is not modelled, nor BER framing and request decoding; a packet arrives decoded or not at all.
- The agent's sockets, shards and deferred replies.
- The byte layouts of flow datagrams, their 32-bit sequence fields and the random draws of flow contents: a datagram is its sequence number, time and records.
- FlowStream.RunLive: when each exporter comes due depends on clocks that are not modelled, so the order of the live flows is an input.
- Text that reached the bitmap decoder through the shared octet-string rendering, which is not lossless.
- Case folding and letters outside ASCII in interface names and headers.
- `count_interface_headers`, and Junos configuration in `set` form, which the extractor does not read either.
