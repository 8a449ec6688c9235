/**
 The direction of a DHCP or NetPath rule. Its verdict honours the rule's comparison,
 its streak does not: both evaluators count values at or over the threshold. For a
 rule that fires below its threshold the two agree on a single value.
 */
module PolledRules {
  import opened Wrappers
  import opened Thresholds
  import opened Streaks
  import opened HandResolve
  import opened HysteresisBand

  /** What the streak counts is what the verdict calls a breach, value by value. */
  ghost predicate StreakMatchesVerdict(rule: ThresholdRule, l: Limits) {
    forall v: Reading :: PolledOver(l, v) <==> Breaches(rule, l, Some(v))
  }

  /** Exactly the rules that fire above their threshold (and no optic's) count what they fire on. */
  lemma StreakMatchesVerdictExactlyAbove(rule: ThresholdRule, l: Limits)
    ensures StreakMatchesVerdict(rule, l) <==> l.threshold.None? || (!rule.below && !IsOpticPower(rule.metric))
  {
    if l.threshold.Some? && (rule.below || IsOpticPower(rule.metric)) {
      assert PolledOver(l, PosInf) && !Breaches(rule, l, Some(PosInf));
    }
  }

  /** Counted in polls, a polled rule fires exactly when its last value breaches and enough distinct
      polls in a row, it included, were at or over the threshold. */
  lemma PolledCountVerdict(rule: ThresholdRule, l: Limits, h: seq<Poll>, k: nat)
    requires RealPolls(h) && h != [] && h[|h| - 1].Polled?
    requires rule.forSeconds.None? || rule.forSeconds.value == 0.0
    requires BreachSince(PollItems(l, h), k)
    ensures PolledVerdict(rule, l, h) == Breach <==>
            && Breaches(rule, l, Some(h[|h| - 1].value))
            && |SampleTimes(PollItems(l, h), k)| >= 1 && |SampleTimes(PollItems(l, h), k)| >= rule.forPolls
  {
    PollHistoryIsSampled(rule, l, h);
    PolledVerdictIsTheSharedStep(rule, l, h);
    PollVerdictMeansThatManySamples(rule, PollItems(l, h), k);
  }

  /** So a rule below its threshold, counted in polls, fires on equality alone. */
  lemma BelowFiresOnEqualityOnly(rule: ThresholdRule, l: Limits, h: seq<Poll>, k: nat)
    requires RealPolls(h) && h != [] && h[|h| - 1].Polled? && h[|h| - 1].value.Fin?
    requires rule.below && !IsOpticPower(rule.metric) && (rule.forSeconds.None? || rule.forSeconds.value == 0.0)
    requires BreachSince(PollItems(l, h), k)
    ensures PolledVerdict(rule, l, h) == Breach <==>
            && l.threshold == Some(h[|h| - 1].value.v)
            && |SampleTimes(PollItems(l, h), k)| >= 1 && |SampleTimes(PollItems(l, h), k)| >= rule.forPolls
  {
    PolledCountVerdict(rule, l, h, k);
    LastItem(l, h);
    var items := PollItems(l, h);
    if l.threshold != Some(h[|h| - 1].value.v) && Breaches(rule, l, Some(h[|h| - 1].value)) {
      assert k == |items|;
      assert SampleTimes(items, k) == {};
    }
  }

  lemma LastItem(l: Limits, h: seq<Poll>)
    requires h != [] && h[|h| - 1].Polled?
    ensures PollItems(l, h) != [] && PollItems(l, h)[|PollItems(l, h)| - 1].look.over == PolledOver(l, h[|h| - 1].value)
  {
  }

  /** Two polls, the second f seconds after the first: the rule fires although the first did not breach. */
  ghost predicate FiresAtOnce(rule: ThresholdRule, l: Limits, a: real, b: real, f: real) {
    && !Breaches(rule, l, Some(Fin(a)))
    && PolledVerdict(rule, l, [Polled(Fin(a), 0.0), Polled(Fin(b), f)]) == Breach
  }

  lemma TwoPolls(rule: ThresholdRule, l: Limits, a: real, b: real, f: real)
    requires rule.forSeconds == Some(f) && f > 0.0
    ensures PolledVerdict(rule, l, [Polled(Fin(a), 0.0), Polled(Fin(b), f)]) == Breach <==>
            && Breaches(rule, l, Some(Fin(b))) && PolledOver(l, Fin(a))
            && !EvaluateThreshold(rule, l, Some(Fin(a)), 0, 0.0).Clear?
  {
    var first, h := Polled(Fin(a), 0.0), [Polled(Fin(a), 0.0), Polled(Fin(b), f)];
    assert h[..1] == [first] && [first][..0] == [];
    assert FoldPolls(rule, l, []) == NO_RUN;
    var run := PolledStep(rule, l, NO_RUN, Fin(a), Some(0.0)).0;
    assert FoldPolls(rule, l, [first]) == run;
    assert run.first == if PolledOver(l, Fin(a)) && !EvaluateThreshold(rule, l, Some(Fin(a)), 0, 0.0).Clear?
           then Some(0.0) else None;
  }

  /** Counted in seconds, a rule below its threshold has its clock run by the values above it: it can
      fire on a single breaching poll, whatever time it asks for, exactly when a value above the
      threshold does not clear. */
  lemma BelowFiresAtOnceExactlyWithABand(rule: ThresholdRule, l: Limits, f: real)
    requires rule.below && !IsOpticPower(rule.metric) && l.threshold.Some? && rule.forSeconds == Some(f) && f > 0.0
    ensures (exists a, b :: FiresAtOnce(rule, l, a, b, f)) <==> l.clear.None? || l.threshold.value < l.clear.value
  {
    var t := l.threshold.value;
    if l.clear.None? || t < l.clear.value {
      var a := if l.clear.None? then t + 1.0 else l.clear.value;
      TwoPolls(rule, l, a, t - 1.0, f);
      assert FiresAtOnce(rule, l, a, t - 1.0, f);
    }
    forall a, b | FiresAtOnce(rule, l, a, b, f)
      ensures l.clear.None? || t < l.clear.value
    {
      TwoPolls(rule, l, a, b, f);
    }
  }

  /** One such rule: under 10 for an hour, clearing over 30; 20 and then, an hour later, 5. */
  lemma BelowTenFiresAtOnce()
    ensures
      var rule, l := ThresholdRule("scope_utilization", true, Some(3600.0), 1), Limits(Some(10.0), Some(30.0));
      FiresAtOnce(rule, l, 20.0, 5.0, 3600.0)
  {
    TwoPolls(ThresholdRule("scope_utilization", true, Some(3600.0), 1), Limits(Some(10.0), Some(30.0)), 20.0, 5.0,
             3600.0);
  }

  // ------------------------------------------------ counted in seconds, over every history

  /** Counted in seconds, a polled rule fires exactly when its last value breaches and a run that began
      that long before -- at a value at or over the threshold -- has neither been dropped nor cleared. */
  lemma PolledSecondsVerdict(rule: ThresholdRule, l: Limits, h: seq<Poll>)
    requires RealPolls(h) && h != [] && h[|h| - 1].Polled? && rule.forSeconds.Some? && rule.forSeconds.value > 0.0
    ensures PolledVerdict(rule, l, h) == Breach <==>
            && Breaches(rule, l, Some(h[|h| - 1].value))
            && exists j: nat :: RunOfAge(rule, PollItems(l, h), j, rule.forSeconds.value)
  {
    PollHistoryIsSampled(rule, l, h);
    PolledVerdictIsTheSharedStep(rule, l, h);
    SecondsVerdictMeansRunThatLong(rule, PollItems(l, h));
  }

  /** Every reading stays strictly under the threshold. */
  predicate StrictlyUnder(l: Limits, h: seq<Poll>) {
    l.threshold.Some? && forall i :: 0 <= i < |h| && h[i].Polled? ==> Under(h[i].value, l.threshold.value)
  }

  /** So a polled rule counted in seconds never fires while every reading is strictly under its threshold --
      not even a rule that fires below it. */
  lemma NeverFiresStrictlyUnder(rule: ThresholdRule, l: Limits, h: seq<Poll>)
    requires RealPolls(h) && h != [] && h[|h| - 1].Polled? && rule.forSeconds.Some? && rule.forSeconds.value > 0.0
    requires StrictlyUnder(l, h)
    ensures PolledVerdict(rule, l, h) != Breach
  {
    PolledSecondsVerdict(rule, l, h);
    var items := PollItems(l, h);
    forall j: nat | j < |items| ensures !Alive(rule, items, j) {
      PollItemsMembers(l, h, j);
    }
  }

  /** A poller's values under one rule, each measured. */
  predicate MeasuredPolls(h: seq<Poll>) {
    forall i :: 0 <= i < |h| && h[i].Polled? ==> Measured(h[i].value)
  }

  /** The documented meaning, over every poll history: whenever the rule fires, every poll since one at
      least for_seconds ago was there and breached. */
  ghost predicate PolledMeansContinuously(rule: ThresholdRule, l: Limits)
    requires rule.forSeconds.Some?
  {
    forall h: seq<Poll> ::
      h != [] && RealPolls(h) && MeasuredPolls(h) && h[|h| - 1].Polled? && PolledVerdict(rule, l, h) == Breach
      ==> ContinuouslyOver(rule, PollItems(l, h))
  }

  /** A polled rule of either direction, counted in seconds, fires only when it has breached continuously
      for that long, over every poll history, if and only if no reading lies between its limits -- or none
      can breach. */
  lemma PolledSecondsMeanContinuouslyExactlyWithoutABand(rule: ThresholdRule, l: Limits)
    requires rule.forSeconds.Some? && rule.forSeconds.value > 0.0
    ensures PolledMeansContinuously(rule, l) <==> NoBand(rule, l) || NeverBreaches(rule, l)
  {
    if NoBand(rule, l) || NeverBreaches(rule, l) {
      forall h: seq<Poll> | h != [] && RealPolls(h) && MeasuredPolls(h) && h[|h| - 1].Polled?
                            && PolledVerdict(rule, l, h) == Breach
        ensures ContinuouslyOver(rule, PollItems(l, h))
      {
        PollHistoryIsSampled(rule, l, h);
        PolledVerdictIsTheSharedStep(rule, l, h);
        PolledLooksAreMeasured(l, h);
        WithoutABand(rule, l, PollItems(l, h));
      }
    } else {
      ThroughTheBand(rule, l, rule.forSeconds.value);
    }
  }

  lemma PolledLooksAreMeasured(l: Limits, h: seq<Poll>)
    requires MeasuredPolls(h)
    ensures MeasuredLooks(l, PollItems(l, h))
  {
    forall i: nat | i < |PollItems(l, h)|
      ensures
        var x := PollItems(l, h)[i];
        x.limits == l && (x.look.value.Some? ==> Measured(x.look.value.value))
    {
      PollItemsMembers(l, h, i);
    }
  }

  /** A value that starts the clock and does not stop it, a value in the band, and a breach f seconds after
      the first. */
  function PolledThroughTheBand(rule: ThresholdRule, l: Limits, f: real): seq<Poll>
    requires !NeverBreaches(rule, l) && !NoBand(rule, l)
  {
    var start := if rule.below then BandValue(rule, l) else BreachValue(rule, l);
    [Polled(Fin(start), 0.0), Polled(Fin(BandValue(rule, l)), f / 2.0), Polled(Fin(BreachValue(rule, l)), f)]
  }

  lemma ThroughTheBand(rule: ThresholdRule, l: Limits, f: real)
    requires rule.forSeconds == Some(f) && f > 0.0 && !NeverBreaches(rule, l) && !NoBand(rule, l)
    ensures !PolledMeansContinuously(rule, l)
  {
    var h := PolledThroughTheBand(rule, l, f);
    ClockRuns(rule, l, f);
    var items := PollItems(l, h);
    ThreeItems(l, h[0], h[1], h[2]);
    assert h == [h[0], h[1], h[2]];
    assert !Breaches(rule, l, items[1].look.value);
    forall k: nat | k < |items| && BreachedSince(rule, items, k) ensures k == 2 {
    }
    assert RealPolls(h) && MeasuredPolls(h);
  }

  lemma ClockRuns(rule: ThresholdRule, l: Limits, f: real)
    requires rule.forSeconds == Some(f) && f > 0.0 && !NeverBreaches(rule, l) && !NoBand(rule, l)
    ensures PolledVerdict(rule, l, PolledThroughTheBand(rule, l, f)) == Breach
  {
    var h := PolledThroughTheBand(rule, l, f);
    assert h[..2][..1] == h[..1] && h[..1][..0] == [];
    assert FoldPolls(rule, l, []) == NO_RUN;
    assert FoldPolls(rule, l, h[..1]) == BreachRun(Some(0.0), 1, Some(0.0));
    assert FoldPolls(rule, l, h[..2]).first == Some(0.0);
  }

  lemma ThreeItems(l: Limits, x: Poll, y: Poll, z: Poll)
    requires x.Polled? && y.Polled? && z.Polled?
    ensures PollItems(l, [x, y, z]) ==
            [Item(l, PolledLook(l, x.value, Some(x.ts))), Item(l, PolledLook(l, y.value, Some(y.ts))),
             Item(l, PolledLook(l, z.value, Some(z.ts)))]
  {
    assert [x, y, z][..2] == [x, y] && [x, y][..1] == [x] && [x][..0] == [];
    assert PollItems(l, []) == [];
    assert PollItems(l, [x]) == [Item(l, PolledLook(l, x.value, Some(x.ts)))];
    assert PollItems(l, [x, y])
        == [Item(l, PolledLook(l, x.value, Some(x.ts))), Item(l, PolledLook(l, y.value, Some(y.ts)))];
  }
}
