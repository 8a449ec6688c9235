/**
 What a breach run remembers, read off the history of samples alone: the streak
 is the number of distinct samples of the latest unbroken breach, and the first
 breach is where the current run began -- at the last restart, gap in the data
 or observed clear, not at the last sample under the threshold. The results are
 proved once for the step the device, DHCP and NetPath evaluators share.
 */
module Streaks {
  import opened Wrappers
  import opened Thresholds

  /** One tick's look at a target, with the limits in force. */
  datatype Item = Item(limits: Limits, look: Look)

  /** The run after a history of looks. */
  function Fold(rule: ThresholdRule, h: seq<Item>): BreachRun {
    if h == [] then NO_RUN
    else
      var n := |h| - 1;
      StreakStep(rule, h[n].limits, Fold(rule, h[..n]), h[n].look).0
  }

  /** The last step of a history: the run after it and its verdict. */
  function StepAt(rule: ThresholdRule, h: seq<Item>): (BreachRun, Verdict)
    requires h != []
  {
    var n := |h| - 1;
    StreakStep(rule, h[n].limits, Fold(rule, h[..n]), h[n].look)
  }

  /** A look that ends the run it finds: nothing to read, or an observed clear. */
  predicate Ends(rule: ThresholdRule, x: Item) {
    x.look.value.None? || EvaluateThreshold(rule, x.limits, x.look.value, 0, 0.0).Clear?
  }

  /** The later look shows the same sample, and nothing restarted the run. */
  predicate ShownAgain(x: Item, y: Item) {
    x.look.ts.Some? && x.look.ts == y.look.ts && !y.look.restart
  }

  /** Two looks count the same. */
  predicate SameCount(rule: ThresholdRule, x: Item, y: Item) {
    x.look.over == y.look.over && Ends(rule, x) == Ends(rule, y)
  }

  /** The looks are at real samples: a value carries its timestamp, timestamps never go back, a
      sample is on show for consecutive looks, and counts the same each time unless something
      restarted the run. */
  ghost predicate Sampled(rule: ThresholdRule, h: seq<Item>) {
    && (forall i :: 0 <= i < |h| && h[i].look.value.Some? ==> h[i].look.ts.Some?)
    && (forall i :: 0 <= i < |h| && h[i].look.over ==> h[i].look.value.Some?)
    && (forall i, j :: 0 <= i < j < |h| && h[i].look.ts.Some? && h[j].look.ts.Some? ==>
          h[i].look.ts.value <= h[j].look.ts.value)
    && (forall i, m, j :: 0 <= i < m < j < |h| && h[i].look.ts.Some? && h[i].look.ts == h[j].look.ts ==>
          h[m].look.ts == h[j].look.ts)
    && (forall i, j :: 0 <= i && j == i + 1 && j < |h| && ShownAgain(h[i], h[j]) ==> SameCount(rule, h[i], h[j]))
  }

  lemma SampledPrefix(rule: ThresholdRule, h: seq<Item>, n: nat)
    requires Sampled(rule, h) && n <= |h|
    ensures Sampled(rule, h[..n])
  {
  }

  // ------------------------------------------------------------- the streak

  /** Every look since k saw a breach, and nothing restarted the run after k. */
  ghost predicate Unbroken(h: seq<Item>, k: nat) {
    k <= |h| && forall i :: k <= i < |h| ==> h[i].look.over && (i > k ==> !h[i].look.restart)
  }

  /** k is where the longest unbroken breach that reaches the latest look begins. */
  ghost predicate BreachSince(h: seq<Item>, k: nat) {
    Unbroken(h, k) && (k == 0 || !Unbroken(h, k - 1))
  }

  /** The distinct samples seen since k. */
  ghost function SampleTimes(h: seq<Item>, k: nat): set<Option<real>> {
    set i | k <= i < |h| :: h[i].look.ts
  }

  /** The first look of an unbroken breach counts one. */
  lemma StreakStarts(rule: ThresholdRule, h: seq<Item>)
    requires h != [] && Sampled(rule, h) && h[|h| - 1].look.over
    requires |h| == 1 || h[|h| - 1].look.restart || !h[|h| - 2].look.over
    ensures Fold(rule, h).streak == 1
  {
  }

  /** A later look counts one more if and only if it shows a new sample. */
  lemma StreakContinues(rule: ThresholdRule, h: seq<Item>)
    requires |h| > 1 && h[|h| - 1].look.over && !h[|h| - 1].look.restart
    ensures Fold(rule, h).streak == Fold(rule, h[..|h| - 1]).streak +
            if h[|h| - 1].look.ts != h[|h| - 2].look.ts then 1 else 0
  {
  }

  lemma OneMoreSample(rule: ThresholdRule, h: seq<Item>, k: nat)
    requires Sampled(rule, h) && k < |h| - 1 && Unbroken(h, k)
    ensures |SampleTimes(h, k)| == |SampleTimes(h[..|h| - 1], k)| +
            if h[|h| - 1].look.ts != h[|h| - 2].look.ts then 1 else 0
  {
    var n := |h| - 1;
    var last, earlier := h[n].look.ts, SampleTimes(h[..n], k);
    TimesOneMore(h, k);
    if h[n - 1].look.ts == last {
      assert h[..n][n - 1].look.ts in earlier;
      assert earlier + {last} == earlier;
    } else {
      LastIsNew(rule, h, k);
    }
  }

  lemma TimesOneMore(h: seq<Item>, k: nat)
    requires k < |h| - 1
    ensures SampleTimes(h, k) == SampleTimes(h[..|h| - 1], k) + {h[|h| - 1].look.ts}
  {
  }

  lemma LastIsNew(rule: ThresholdRule, h: seq<Item>, k: nat)
    requires Sampled(rule, h) && k < |h| - 1 && Unbroken(h, k) && h[|h| - 1].look.ts != h[|h| - 2].look.ts
    ensures h[|h| - 1].look.ts !in SampleTimes(h[..|h| - 1], k)
  {
  }

  lemma StreakKeepsCounting(rule: ThresholdRule, h: seq<Item>, k: nat)
    requires Sampled(rule, h) && k < |h| - 1 && Unbroken(h, k)
    requires Fold(rule, h[..|h| - 1]).streak == |SampleTimes(h[..|h| - 1], k)|
    ensures Fold(rule, h).streak == |SampleTimes(h, k)|
  {
    StreakContinues(rule, h);
    OneMoreSample(rule, h, k);
  }

  lemma LongestUnbroken(h: seq<Item>, k: nat)
    requires h != [] && BreachSince(h, k)
    ensures k == |h| ==> !h[|h| - 1].look.over
    ensures k == |h| - 1 ==> h[k].look.over && (|h| == 1 || h[k].look.restart || !h[k - 1].look.over)
    ensures k < |h| - 1 ==> BreachSince(h[..|h| - 1], k)
  {
  }

  /** The streak is the number of distinct samples in the longest unbroken breach that reaches
      the latest look -- however many ticks looked at each of them. */
  lemma {:induction false} StreakCountsDistinctSamples(rule: ThresholdRule, h: seq<Item>, k: nat)
    requires h != [] && Sampled(rule, h) && BreachSince(h, k)
    ensures Fold(rule, h).streak == |SampleTimes(h, k)|
  {
    LongestUnbroken(h, k);
    if k == |h| {
      CountsNone(rule, h);
    } else if k == |h| - 1 {
      CountsOne(rule, h);
    } else {
      SampledPrefix(rule, h, |h| - 1);
      StreakCountsDistinctSamples(rule, h[..|h| - 1], k);
      StreakKeepsCounting(rule, h, k);
    }
  }

  lemma CountsNone(rule: ThresholdRule, h: seq<Item>)
    requires h != [] && !h[|h| - 1].look.over
    ensures Fold(rule, h).streak == |SampleTimes(h, |h|)|
  {
  }

  lemma CountsOne(rule: ThresholdRule, h: seq<Item>)
    requires h != [] && Sampled(rule, h) && h[|h| - 1].look.over
    requires |h| == 1 || h[|h| - 1].look.restart || !h[|h| - 2].look.over
    ensures Fold(rule, h).streak == |SampleTimes(h, |h| - 1)|
  {
    assert SampleTimes(h, |h| - 1) == {h[|h| - 1].look.ts};
    StreakStarts(rule, h);
  }

  /** A rule counted in polls fires exactly when the latest value breaches and at least for_polls
      distinct samples in a row -- one at the least -- counted toward the streak. */
  lemma PollVerdictMeansThatManySamples(rule: ThresholdRule, h: seq<Item>, k: nat)
    requires h != [] && Sampled(rule, h) && BreachSince(h, k)
    requires rule.forSeconds.None? || rule.forSeconds.value == 0.0
    ensures StepAt(rule, h).1 == Breach <==>
            && Breaches(rule, h[|h| - 1].limits, h[|h| - 1].look.value)
            && |SampleTimes(h, k)| >= 1 && |SampleTimes(h, k)| >= rule.forPolls
  {
    StreakCountsDistinctSamples(rule, h, k);
  }

  /** Every look counts as its value breaches. */
  ghost predicate CountsBreaches(rule: ThresholdRule, h: seq<Item>) {
    forall i :: 0 <= i < |h| ==> h[i].look.over == Breaches(rule, h[i].limits, h[i].look.value)
  }

  /** Over an unbroken breach the rule is silent until the for_polls-th distinct sample, fires at the first
      look at it, and goes on firing. */
  lemma FiresFromTheNthSampleOn(rule: ThresholdRule, h: seq<Item>, k: nat)
    requires Sampled(rule, h) && CountsBreaches(rule, h) && BreachSince(h, k) && k < |h| - 1
    requires rule.forSeconds.None? || rule.forSeconds.value == 0.0
    ensures
      var last, before := StepAt(rule, h).1, StepAt(rule, h[..|h| - 1]).1;
      && (last == Breach <==> |SampleTimes(h, k)| >= rule.forPolls)
      && (before == Breach ==> last == Breach)
      && (last == Breach && before != Breach ==>
            |SampleTimes(h, k)| == rule.forPolls && h[|h| - 1].look.ts != h[|h| - 2].look.ts)
  {
    NthSample(rule, h, k);
    NthSampleBefore(rule, h, k);
    OneMoreSample(rule, h, k);
  }

  lemma NthSampleBefore(rule: ThresholdRule, h: seq<Item>, k: nat)
    requires Sampled(rule, h) && CountsBreaches(rule, h) && BreachSince(h, k) && k < |h| - 1
    requires rule.forSeconds.None? || rule.forSeconds.value == 0.0
    ensures StepAt(rule, h[..|h| - 1]).1 == Breach <==> |SampleTimes(h[..|h| - 1], k)| >= rule.forPolls
  {
    SampledPrefix(rule, h, |h| - 1);
    CountsPrefix(rule, h);
    LongestUnbroken(h, k);
    NthSample(rule, h[..|h| - 1], k);
  }

  lemma CountsPrefix(rule: ThresholdRule, h: seq<Item>)
    requires CountsBreaches(rule, h) && h != []
    ensures CountsBreaches(rule, h[..|h| - 1])
  {
  }

  lemma NthSample(rule: ThresholdRule, h: seq<Item>, k: nat)
    requires Sampled(rule, h) && CountsBreaches(rule, h) && BreachSince(h, k) && k < |h|
    requires rule.forSeconds.None? || rule.forSeconds.value == 0.0
    ensures StepAt(rule, h).1 == Breach <==> |SampleTimes(h, k)| >= rule.forPolls
  {
    PollVerdictMeansThatManySamples(rule, h, k);
    assert h[|h| - 1].look.ts in SampleTimes(h, k);
  }

  /** Between restarts an open alert gets at most one occurrence from each sample. */
  lemma OneOccurrencePerSample(rule: ThresholdRule, h: seq<Item>, i: nat, j: nat,
                               openAtJ: bool, resolveI: Option<real>, resolveJ: Option<real>, openAtI: bool)
    requires i < j < |h| && Sampled(rule, h) && openAtJ
    requires forall m :: i < m <= j && h[m].look.restart ==> h[m].look.ts != h[m - 1].look.ts
    requires Raises(rule, h[i].limits, Fold(rule, h[..i]), h[i].look, openAtI, resolveI)
    requires Raises(rule, h[j].limits, Fold(rule, h[..j]), h[j].look, openAtJ, resolveJ)
    ensures h[i].look.ts.Some? && h[j].look.ts.Some? && h[i].look.ts.value < h[j].look.ts.value
  {
  }

  // --------------------------------------------------------- the first breach

  /** A look that counts and does not itself end the run. */
  predicate Counts(rule: ThresholdRule, x: Item) {
    x.look.over && !Ends(rule, x)
  }

  /** The run that look j counted toward has neither restarted nor ended since. */
  ghost predicate Alive(rule: ThresholdRule, h: seq<Item>, j: nat) {
    && j < |h| && Counts(rule, h[j])
    && forall i :: j < i < |h| ==> !h[i].look.restart && !Ends(rule, h[i])
  }

  /** Where the current run began: the earliest breach whose run is still alive. */
  ghost predicate BeganAt(rule: ThresholdRule, h: seq<Item>, j: nat) {
    Alive(rule, h, j) && forall m: nat :: m < j ==> !Alive(rule, h, m)
  }

  /** One look keeps the first breach of a run that goes on, and otherwise remembers itself if
      it breached. */
  lemma FirstBreachStep(rule: ThresholdRule, h: seq<Item>)
    requires h != [] && Sampled(rule, h)
    requires |h| > 1 && Counts(rule, h[|h| - 2]) ==> Fold(rule, h[..|h| - 1]).first.Some?
    ensures
      var last, before := h[|h| - 1], Fold(rule, h[..|h| - 1]).first;
      Fold(rule, h).first ==
        if before.Some? && !last.look.restart && !Ends(rule, last) then before
        else if Counts(rule, last) then last.look.ts else None
  {
  }

  /** The first breach a history leaves behind is where its run began, if a run is alive. */
  ghost predicate RemembersBeginning(rule: ThresholdRule, h: seq<Item>) {
    && (forall j: nat :: BeganAt(rule, h, j) ==> Fold(rule, h).first == h[j].look.ts)
    && (Fold(rule, h).first.Some? <==> exists j: nat :: BeganAt(rule, h, j))
    && (h != [] && Counts(rule, h[|h| - 1]) ==> Fold(rule, h).first.Some?)
  }

  predicate GoesOn(rule: ThresholdRule, x: Item) {
    !x.look.restart && !Ends(rule, x)
  }

  lemma BeginningCarried(rule: ThresholdRule, h: seq<Item>, j: nat)
    requires h != [] && Sampled(rule, h) && j < |h| - 1 && Counts(rule, h[j])
    requires Fold(rule, h[..|h| - 1]).first == h[j].look.ts && GoesOn(rule, h[|h| - 1])
    ensures Fold(rule, h).first == h[j].look.ts
  {
  }

  lemma BeginningNow(rule: ThresholdRule, h: seq<Item>)
    requires h != [] && Sampled(rule, h) && Counts(rule, h[|h| - 1])
    requires |h| > 1 && Counts(rule, h[|h| - 2]) ==> Fold(rule, h[..|h| - 1]).first.Some?
    requires GoesOn(rule, h[|h| - 1]) ==> Fold(rule, h[..|h| - 1]).first.None?
    ensures Fold(rule, h).first == h[|h| - 1].look.ts
  {
  }

  lemma BeginningStays(rule: ThresholdRule, h: seq<Item>, j: nat)
    requires h != [] && Sampled(rule, h) && RemembersBeginning(rule, h[..|h| - 1])
    requires BeganAt(rule, h, j)
    ensures Fold(rule, h).first == h[j].look.ts
  {
    var n := |h| - 1;
    RunGoesOn(rule, h);
    if GoesOn(rule, h[n]) && BeganAt(rule, h[..n], j) {
      assert Fold(rule, h[..n]).first == h[..n][j].look.ts;
      BeginningCarried(rule, h, j);
    } else {
      if GoesOn(rule, h[n]) {
        NoRunNoBeginning(rule, h[..n]);
      }
      BeginningNow(rule, h);
    }
  }

  lemma NoRunNoBeginning(rule: ThresholdRule, h: seq<Item>)
    requires RemembersBeginning(rule, h) && forall m: nat :: !Alive(rule, h, m)
    ensures Fold(rule, h).first.None?
  {
  }

  lemma BeginningExists(rule: ThresholdRule, h: seq<Item>)
    requires h != [] && Sampled(rule, h) && RemembersBeginning(rule, h[..|h| - 1])
    requires Fold(rule, h).first.Some?
    ensures exists j: nat :: BeganAt(rule, h, j)
  {
    var n := |h| - 1;
    FirstBreachStep(rule, h);
    if Fold(rule, h[..n]).first.Some? && GoesOn(rule, h[n]) {
      var j: nat :| BeganAt(rule, h[..n], j);
      BeganCarried(rule, h, j);
    } else {
      assert Alive(rule, h, n);
      SomeRunBegan(rule, h, n);
    }
  }

  lemma BeganCarried(rule: ThresholdRule, h: seq<Item>, j: nat)
    requires h != [] && GoesOn(rule, h[|h| - 1]) && BeganAt(rule, h[..|h| - 1], j)
    ensures BeganAt(rule, h, j)
  {
    var n := |h| - 1;
    forall i | j < i < |h| ensures !h[i].look.restart && !Ends(rule, h[i]) {
      assert i < n ==> h[..n][i] == h[i];
    }
    forall m: nat | m < j ensures !Alive(rule, h, m) {
      if Alive(rule, h, m) {
        assert forall i :: m <= i < n ==> h[..n][i] == h[i];
        assert Alive(rule, h[..n], m);
      }
    }
  }

  lemma OverIsRemembered(rule: ThresholdRule, h: seq<Item>)
    requires h != [] && Sampled(rule, h) && RemembersBeginning(rule, h[..|h| - 1])
    requires Counts(rule, h[|h| - 1])
    ensures Fold(rule, h).first.Some?
  {
  }

  /** The remembered first breach is the breach where the current run began; there is none when
      no run is alive. Samples inside the hysteresis band leave it standing. */
  lemma {:induction false} FirstBreachIsWhereTheRunBegan(rule: ThresholdRule, h: seq<Item>)
    requires Sampled(rule, h)
    ensures RemembersBeginning(rule, h)
  {
    if h != [] {
      SampledPrefix(rule, h, |h| - 1);
      FirstBreachIsWhereTheRunBegan(rule, h[..|h| - 1]);
      if Counts(rule, h[|h| - 1]) {
        OverIsRemembered(rule, h);
      }
      if Fold(rule, h).first.Some? {
        BeginningExists(rule, h);
      }
      forall j: nat | BeganAt(rule, h, j) ensures Fold(rule, h).first == h[j].look.ts && Fold(rule, h).first.Some? {
        BeginningStays(rule, h, j);
        BeginningIsASample(rule, h, j);
      }
    }
  }

  lemma BeginningIsASample(rule: ThresholdRule, h: seq<Item>, j: nat)
    requires Sampled(rule, h) && BeganAt(rule, h, j)
    ensures h[j].look.ts.Some?
  {
  }

  lemma {:induction false} SomeRunBegan(rule: ThresholdRule, h: seq<Item>, m: nat)
    requires Alive(rule, h, m)
    ensures exists j: nat :: BeganAt(rule, h, j)
  {
    if k: nat :| k < m && Alive(rule, h, k) {
      SomeRunBegan(rule, h, k);
    } else {
      assert BeganAt(rule, h, m);
    }
  }

  /** Whether a step clears depends on the value alone. */
  lemma VerdictIgnoresRun(rule: ThresholdRule, x: Item, run: BreachRun)
    ensures x.look.value.Some? ==> (StreakStep(rule, x.limits, run, x.look).1.Clear? <==> Ends(rule, x))
  {
  }

  /** Which runs the last look of a history leaves alive, and where they began. */
  lemma RunGoesOn(rule: ThresholdRule, h: seq<Item>)
    requires h != []
    ensures
      var n := |h| - 1;
      var goesOn := !h[n].look.restart && !Ends(rule, h[n]);
      && (forall j: nat :: Alive(rule, h, j) <==> (j == n && Counts(rule, h[n])) || (goesOn && Alive(rule, h[..n], j)))
      && (goesOn ==> forall j: nat :: BeganAt(rule, h[..n], j) ==> BeganAt(rule, h, j))
      && (forall j: nat :: BeganAt(rule, h, j) ==>
            (goesOn && BeganAt(rule, h[..n], j)) ||
            (j == n && (!goesOn || forall m: nat :: !Alive(rule, h[..n], m))))
  {
  }

  /** The run that began at j is alive, and the latest sample is that much later. */
  ghost predicate RunOfAge(rule: ThresholdRule, h: seq<Item>, j: nat, age: real) {
    && BeganAt(rule, h, j) && h[j].look.ts.Some? && h[|h| - 1].look.ts.Some?
    && h[|h| - 1].look.ts.value - h[j].look.ts.value >= age
  }

  /** A rule counted in seconds fires exactly when the latest value breaches and a run that began
      that long before is still alive, measured between the samples themselves. */
  lemma SecondsVerdictMeansRunThatLong(rule: ThresholdRule, h: seq<Item>)
    requires h != [] && Sampled(rule, h) && rule.forSeconds.Some? && rule.forSeconds.value != 0.0
    ensures StepAt(rule, h).1 == Breach <==>
            && Breaches(rule, h[|h| - 1].limits, h[|h| - 1].look.value)
            && (rule.forSeconds.value < 0.0 || exists j: nat :: RunOfAge(rule, h, j, rule.forSeconds.value))
  {
    FirstBreachIsWhereTheRunBegan(rule, h);
    var last, f := h[|h| - 1], rule.forSeconds.value;
    VerdictIgnoresRun(rule, last, Fold(rule, h[..|h| - 1]));
    forall j: nat | BeganAt(rule, h, j)
      ensures Fold(rule, h).first == h[j].look.ts && h[j].look.ts.Some?
    {
      BeginningIsASample(rule, h, j);
    }
    if Breaches(rule, last.limits, last.look.value) {
      assert StepAt(rule, h).1 == Breach <==> BreachSeconds(Fold(rule, h).first, last.look.ts) >= f;
      if Fold(rule, h).first.Some? {
        var j: nat :| BeganAt(rule, h, j);
        assert f > 0.0 && BreachSeconds(Fold(rule, h).first, last.look.ts) >= f ==> RunOfAge(rule, h, j, f);
      }
    }
  }

  lemma FoldOneMore(rule: ThresholdRule, h: seq<Item>, x: Item)
    ensures Fold(rule, h + [x]) == StreakStep(rule, x.limits, Fold(rule, h), x.look).0
  {
  }
}
