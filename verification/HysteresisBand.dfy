/**
 What "for_seconds" means on a device. Its documentation says: continuously on the
 wrong side of the threshold. The code ends a run on an observed clear only, so that
 is what a rule means exactly when no reading lies between its two limits -- a
 condition on the rule, to be read before any sample arrives.
 */
module HysteresisBand {
  import opened Wrappers
  import opened Thresholds
  import opened Streaks
  import opened HandResolve

  /** A reading a device can give: a number, or minus infinity for no light at all. */
  predicate Measured(r: Reading) {
    r.Fin? || r.NegInf?
  }

  /** Looks at measured values under one pair of limits. */
  ghost predicate MeasuredLooks(l: Limits, h: seq<Item>) {
    forall i :: 0 <= i < |h| ==> h[i].limits == l && (h[i].look.value.Some? ==> Measured(h[i].look.value.value))
  }

  /** Every value either breaches or clears. */
  predicate NoBand(rule: ThresholdRule, l: Limits) {
    && l.threshold.Some? && l.clear.Some?
    && if rule.below then l.clear.value <= l.threshold.value || (IsOpticPower(rule.metric) && l.clear.value <= -39.5)
       else l.clear.value >= l.threshold.value && (IsOpticPower(rule.metric) ==> l.clear.value > -39.5)
  }

  /** No value breaches: there is no threshold, or only darkness is under it. */
  predicate NeverBreaches(rule: ThresholdRule, l: Limits) {
    l.threshold.None? || (rule.below && IsOpticPower(rule.metric) && l.threshold.value <= -39.5)
  }

  /** Every look since k breached, and nothing restarted the run after k. */
  ghost predicate BreachedSince(rule: ThresholdRule, h: seq<Item>, k: nat) {
    k <= |h| && forall i :: k <= i < |h| ==>
      Breaches(rule, h[i].limits, h[i].look.value) && (i > k ==> !h[i].look.restart)
  }

  /** Every look since some look at least for_seconds ago breached. */
  ghost predicate ContinuouslyOver(rule: ThresholdRule, h: seq<Item>)
    requires rule.forSeconds.Some?
  {
    exists k: nat ::
      && k < |h| && BreachedSince(rule, h, k) && h[k].look.ts.Some? && h[|h| - 1].look.ts.Some?
      && h[|h| - 1].look.ts.value - h[k].look.ts.value >= rule.forSeconds.value
  }

  /** Without a band every look of a run breaches, so the rule fires on a continuous breach only. */
  lemma WithoutABand(rule: ThresholdRule, l: Limits, h: seq<Item>)
    requires rule.forSeconds.Some? && rule.forSeconds.value > 0.0 && (NoBand(rule, l) || NeverBreaches(rule, l))
    requires h != [] && Sampled(rule, h) && MeasuredLooks(l, h) && StepAt(rule, h).1 == Breach
    ensures ContinuouslyOver(rule, h)
  {
    if NoBand(rule, l) {
      SecondsVerdictMeansRunThatLong(rule, h);
      var j: nat :| RunOfAge(rule, h, j, rule.forSeconds.value);
      RunsBreach(rule, l, h, j);
    }
  }

  lemma RunsBreach(rule: ThresholdRule, l: Limits, h: seq<Item>, j: nat)
    requires NoBand(rule, l) && MeasuredLooks(l, h) && Alive(rule, h, j)
    ensures BreachedSince(rule, h, j)
  {
    forall i | j <= i < |h| ensures Breaches(rule, h[i].limits, h[i].look.value) {
      assert !Ends(rule, h[i]);
    }
  }

  // ----------------------------------------------------------- values in the band

  /** A value between the limits, where there is one. */
  function BandValue(rule: ThresholdRule, l: Limits): (v: real)
    requires !NeverBreaches(rule, l) && !NoBand(rule, l)
    ensures InBand(rule, l, v) && (rule.below ==> v >= l.threshold.value)
  {
    if l.clear.Some? then l.clear.value
    else if rule.below then l.threshold.value + 1.0 else l.threshold.value - 1.0
  }

  /** A value that breaches, where there is one. */
  function BreachValue(rule: ThresholdRule, l: Limits): (v: real)
    requires !NeverBreaches(rule, l)
    ensures Breaches(rule, l, Some(Fin(v))) && (!rule.below ==> v >= l.threshold.value)
  {
    if rule.below || l.threshold.value > 0.0 then l.threshold.value else 0.0
  }

  /** The value neither breaches nor clears. */
  predicate InBand(rule: ThresholdRule, l: Limits, v: real) {
    !Breaches(rule, l, Some(Fin(v))) && !EvaluateThreshold(rule, l, Some(Fin(v)), 0, 0.0).Clear?
  }

  // ------------------------------------------------------------- device histories

  /** A device's samples under one pair of limits, each measured. */
  ghost predicate MeasuredSamples(l: Limits, h: seq<Obs>) {
    forall i :: 0 <= i < |h| ==> h[i].limits == l && (h[i].sample.value.Some? ==> Measured(h[i].sample.value.value))
  }

  /** The documented meaning: whenever the rule fires on a device, over every history of its samples and
      whatever gaps the staleness limit forgives, it has been continuously over. */
  ghost predicate MeansContinuouslyOver(rule: ThresholdRule, l: Limits, staleAfter: real)
    requires rule.forSeconds.Some?
  {
    forall h: seq<Obs> ::
      && h != [] && RealSamples(staleAfter, h) && MeasuredSamples(l, h)
      && StepAt(rule, DeviceItems(rule, staleAfter, h)).1 == Breach
      ==> ContinuouslyOver(rule, DeviceItems(rule, staleAfter, h))
  }

  /** Sample times that rise, none so far after the last that one run could not span them. */
  ghost predicate Steady(times: seq<real>, staleAfter: real) {
    && |times| > 2
    && (forall i, j :: 0 <= i < j < |times| ==> times[i] < times[j])
    && (staleAfter > 0.0 ==> forall i, j :: 0 <= i && j == i + 1 && j < |times| ==> times[j] - times[i] <= staleAfter)
  }

  /** A device's samples at those times: a breach, values in the band, and a breach. */
  function BandSamples(l: Limits, over: real, between: real, times: seq<real>): (h: seq<Obs>)
    ensures |h| == |times|
  {
    seq(|times|, k requires 0 <= k < |times| =>
      Obs(l, Sample(Some(Fin(if k == 0 || k == |times| - 1 then over else between)), Some(times[k])), times[k]))
  }

  lemma BandSamplesAreReal(l: Limits, over: real, between: real, times: seq<real>, staleAfter: real)
    requires Steady(times, staleAfter)
    ensures
      var h := BandSamples(l, over, between, times);
      RealSamples(staleAfter, h) && MeasuredSamples(l, h)
  {
    var h := BandSamples(l, over, between, times);
    forall i | 0 <= i < |h| ensures SeenTs(h[i], staleAfter) == Some(times[i]) {
    }
  }

  /** A sample in the band leaves the run and its clock going. */
  lemma BandStep(rule: ThresholdRule, l: Limits, run: BreachRun, o: Obs, staleAfter: real)
    requires l.threshold.Some? && o.limits == l && o.sample.ts == Some(o.now)
    requires o.sample.value.Some? && o.sample.value.value.Fin? && InBand(rule, l, o.sample.value.value.v)
    requires run.ts.Some? && (staleAfter > 0.0 ==> o.now - run.ts.value <= staleAfter)
    ensures DeviceStep(rule, l, Entry(run, l), o.sample, o.now, staleAfter).0 ==
            Entry(BreachRun(Some(o.now), 0, run.first), l)
  {
  }

  lemma FirstStep(rule: ThresholdRule, l: Limits, o: Obs, staleAfter: real)
    requires o.limits == l && o.sample.ts == Some(o.now) && Breaches(rule, l, o.sample.value)
    ensures DeviceStep(rule, l, NO_ENTRY, o.sample, o.now, staleAfter).0 ==
            Entry(BreachRun(Some(o.now), 1, Some(o.now)), l)
  {
  }

  /** A breach for_seconds into a run fires. */
  lemma LastStep(rule: ThresholdRule, l: Limits, run: BreachRun, o: Obs, staleAfter: real)
    requires o.limits == l && o.sample.ts == Some(o.now) && Breaches(rule, l, o.sample.value)
    requires run.ts.Some? && (staleAfter > 0.0 ==> o.now - run.ts.value <= staleAfter)
    requires rule.forSeconds.Some? && rule.forSeconds.value > 0.0
    requires run.first.Some? && rule.forSeconds.value <= o.now - run.first.value
    ensures DeviceStep(rule, l, Entry(run, l), o.sample, o.now, staleAfter).1 == Breach
  {
  }

  /** Through the band the clock still stands at the first breach. */
  lemma {:induction false} ClockThroughTheBand(rule: ThresholdRule, l: Limits, over: real, between: real,
                                               times: seq<real>, staleAfter: real, k: nat)
    requires Steady(times, staleAfter) && 0 < k < |times|
    requires Breaches(rule, l, Some(Fin(over))) && InBand(rule, l, between)
    ensures
      var e := FoldDevice(rule, staleAfter, BandSamples(l, over, between, times)[..k]);
      e.limits == l && e.run.ts == Some(times[k - 1]) && e.run.first == Some(times[0])
  {
    var h := BandSamples(l, over, between, times);
    assert h[..k][..k - 1] == h[..k - 1] && h[..k][k - 1] == h[k - 1];
    if k == 1 {
      FirstStep(rule, l, h[0], staleAfter);
    } else {
      ClockThroughTheBand(rule, l, over, between, times, staleAfter, k - 1);
      BandStep(rule, l, FoldDevice(rule, staleAfter, h[..k - 1]).run, h[k - 1], staleAfter);
    }
  }

  /** For any limits with a band, any for_seconds and any staleness limit: values between the limits leave
      the run and its clock going, and the rule fires although it was not continuously over. */
  lemma BandKeepsTheClock(rule: ThresholdRule, l: Limits, over: real, between: real, times: seq<real>,
                          staleAfter: real)
    requires Steady(times, staleAfter) && Breaches(rule, l, Some(Fin(over))) && InBand(rule, l, between)
    requires rule.forSeconds.Some? && 0.0 < rule.forSeconds.value <= times[|times| - 1] - times[0]
    ensures
      var items := DeviceItems(rule, staleAfter, BandSamples(l, over, between, times));
      StepAt(rule, items).1 == Breach && !ContinuouslyOver(rule, items)
  {
    var h := BandSamples(l, over, between, times);
    var n, items := |h| - 1, DeviceItems(rule, staleAfter, h);
    ClockThroughTheBand(rule, l, over, between, times, staleAfter, n);
    var e := FoldDevice(rule, staleAfter, h[..n]);
    LastStep(rule, l, e.run, h[n], staleAfter);
    LastVerdict(rule, staleAfter, h);
    DeviceItemAt(rule, staleAfter, h, n);
    DeviceItemAt(rule, staleAfter, h, n - 1);
    assert !Breaches(rule, l, items[n - 1].look.value);
    forall k: nat | k < |items| && BreachedSince(rule, items, k) ensures k == n {
    }
  }

  /** The verdict of a device history's last look is the evaluator's. */
  lemma LastVerdict(rule: ThresholdRule, staleAfter: real, h: seq<Obs>)
    requires h != []
    ensures
      var o := h[|h| - 1];
      StepAt(rule, DeviceItems(rule, staleAfter, h)).1 ==
      DeviceStep(rule, o.limits, FoldDevice(rule, staleAfter, h[..|h| - 1]), o.sample, o.now, staleAfter).1
  {
    var n, items := |h| - 1, DeviceItems(rule, staleAfter, h);
    DeviceFoldsTheSharedStep(rule, staleAfter, h[..n]);
    assert items[..n] == DeviceItems(rule, staleAfter, h[..n]);
  }

  /** n + 2 times from 0 on, `gap` apart. */
  function TimesApart(gap: real, n: nat): (times: seq<real>)
    ensures |times| == n + 2
  {
    if n == 0 then [0.0, gap] else TimesApart(gap, n - 1) + [TimesApart(gap, n - 1)[n] + gap]
  }

  lemma {:induction false} TimesApartRise(gap: real, n: nat)
    requires gap > 0.0
    ensures
      var times := TimesApart(gap, n);
      && times[0] == 0.0 && times[n + 1] == Times(n + 1, gap)
      && (forall i, j :: 0 <= i < j < |times| ==> times[i] < times[j])
      && forall i, j :: 0 <= i && j == i + 1 && j < |times| ==> times[j] - times[i] == gap
  {
    if n == 0 {
      assert Times(1, gap) == Times(0, gap) + gap;
    } else {
      TimesApartRise(gap, n - 1);
    }
  }

  /** n times `gap`. */
  function Times(n: nat, gap: real): real {
    if n == 0 then 0.0 else Times(n - 1, gap) + gap
  }

  lemma {:induction false} TimesIsProduct(n: nat, gap: real)
    ensures Times(n, gap) == n as real * gap
  {
    if n > 0 {
      TimesIsProduct(n - 1, gap);
      Distributes((n - 1) as real, gap);
    }
  }

  lemma Distributes(x: real, y: real)
    ensures (x + 1.0) * y == x * y + y
  {
  }

  lemma Quotient(f: real, gap: real, n: real)
    requires gap > 0.0 && f / gap <= n
    ensures f <= n * gap
  {
    var q := f / gap;
    assert q * gap == f;
    assert (n - q) * gap >= 0.0;
  }

  /** Enough samples within the staleness limit to last for any time. */
  lemma EnoughSamples(f: real, staleAfter: real) returns (times: seq<real>)
    requires f > 0.0
    ensures Steady(times, staleAfter) && f <= times[|times| - 1] - times[0]
  {
    var gap := if staleAfter > 0.0 then staleAfter else f;
    var n := WholeNumberAbove(f / gap) + 1;
    Quotient(f, gap, n as real);
    TimesIsProduct(n, gap);
    TimesApartRise(gap, n - 1);
    times := TimesApart(gap, n - 1);
    assert |times| == n + 1;
    assert times[n] == Times(n, gap);
  }

  function WholeNumberAbove(x: real): (n: nat)
    ensures n > 0 && x <= n as real
  {
    if x < 0.0 then 1 else x.Floor + 1
  }

  /** A rule counted in seconds fires on a device only when it has been continuously over that long, over
      every history of measured samples and whatever the staleness limit, if and only if no reading lies
      between its limits -- or none can breach. */
  lemma SecondsMeanContinuouslyOverExactlyWithoutABand(rule: ThresholdRule, l: Limits, staleAfter: real)
    requires rule.forSeconds.Some? && rule.forSeconds.value > 0.0
    ensures MeansContinuouslyOver(rule, l, staleAfter) <==> NoBand(rule, l) || NeverBreaches(rule, l)
  {
    if NoBand(rule, l) || NeverBreaches(rule, l) {
      forall h: seq<Obs> | h != [] && RealSamples(staleAfter, h) && MeasuredSamples(l, h)
                           && StepAt(rule, DeviceItems(rule, staleAfter, h)).1 == Breach
        ensures ContinuouslyOver(rule, DeviceItems(rule, staleAfter, h))
      {
        DeviceHistoryIsSampled(rule, staleAfter, h);
        DeviceLooksAreMeasured(rule, l, staleAfter, h);
        WithoutABand(rule, l, DeviceItems(rule, staleAfter, h));
      }
    } else {
      var times := EnoughSamples(rule.forSeconds.value, staleAfter);
      var over, between := BreachValue(rule, l), BandValue(rule, l);
      BandSamplesAreReal(l, over, between, times, staleAfter);
      BandKeepsTheClock(rule, l, over, between, times, staleAfter);
      assert BandSamples(l, over, between, times) != [];
    }
  }

  lemma DeviceLooksAreMeasured(rule: ThresholdRule, l: Limits, staleAfter: real, h: seq<Obs>)
    requires MeasuredSamples(l, h)
    ensures MeasuredLooks(l, DeviceItems(rule, staleAfter, h))
  {
    forall i: nat | i < |h|
      ensures
        var x := DeviceItems(rule, staleAfter, h)[i];
        x.limits == l && (x.look.value.Some? ==> Measured(x.look.value.value))
    {
      DeviceItemAt(rule, staleAfter, h, i);
    }
  }

  /** One such rule: a packet loss of 60, then 30, then 60 per cent, a minute apart each, fires a rule
      that asks for 120 seconds over 50 and clears under 20. */
  lemma SecondsSpanTheHysteresisBand()
    ensures
      var rule, l := ThresholdRule("packet_loss_pct", false, Some(120.0), 1), Limits(Some(50.0), Some(20.0));
      var h := BandSamples(l, 60.0, 30.0, [0.0, 60.0, 120.0]);
      && StepAt(rule, DeviceItems(rule, 900.0, h)).1 == Breach && !MeansContinuouslyOver(rule, l, 900.0)
  {
    var rule, l := ThresholdRule("packet_loss_pct", false, Some(120.0), 1), Limits(Some(50.0), Some(20.0));
    BandKeepsTheClock(rule, l, 60.0, 30.0, [0.0, 60.0, 120.0], 900.0);
    SecondsMeanContinuouslyOverExactlyWithoutABand(rule, l, 900.0);
  }
}
