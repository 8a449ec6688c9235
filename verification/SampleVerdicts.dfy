/**
 The device threshold scan, one sample at a time and in columns: what verdict a sample
 gets, when it is too old to count, when it starts the count again, and for which
 targets the scan raises an occurrence.
 */
module SampleVerdicts {
  import opened Wrappers
  import opened Thresholds

  /** On the side of the threshold the rule is about; the threshold itself included. */
  predicate OnWrongSide(rule: ThresholdRule, threshold: real, v: real) {
    if rule.below then v <= threshold else v >= threshold
  }

  /** Past the clear threshold on the other side; the clear threshold itself not included. */
  predicate PastClear(rule: ThresholdRule, clear: real, v: real) {
    if rule.below then v > clear else v < clear
  }

  /** An optic's power reading at the bottom of its scale. */
  predicate NoLight(rule: ThresholdRule, v: real) {
    rule.metric in {"sfp_rx_dbm", "sfp_tx_dbm"} && v <= -39.5
  }

  /** A rule that fires on the first breaching sample. */
  predicate Immediate(rule: ThresholdRule) {
    rule.forPolls <= 1 && rule.forSeconds in {None, Some(0.0)}
  }

  /** The sample is not older than the staleness limit, if there is one. */
  predicate FreshAt(ts: real, now: real, staleAfter: real) {
    staleAfter <= 0.0 || now - ts <= staleAfter
  }

  /** What the first sample of a target says: a breach on the wrong side of the threshold, at once or not yet;
      a clear past the clear threshold, or in the dark for a rule that fires below; silence between. */
  lemma FirstSampleVerdict(rule: ThresholdRule, l: Limits, v: real, ts: real, now: real, staleAfter: real)
    requires FreshAt(ts, now, staleAfter)
    ensures
      var verdict := DeviceStep(rule, l, NO_ENTRY, Sample(Some(Fin(v)), Some(ts)), now, staleAfter).1;
      verdict ==
      if l.threshold.None? then Quiet
      else if NoLight(rule, v) && rule.below then Clear
      else if OnWrongSide(rule, l.threshold.value, v) && !NoLight(rule, v) then
        if Immediate(rule) || (rule.forSeconds.Some? && rule.forSeconds.value < 0.0) then Breach else Quiet
      else if l.clear.Some? && PastClear(rule, l.clear.value, v) then Clear
      else Quiet
  {
    var value := Some(Fin(v));
    assert NoLight(rule, v) <==> IsDarkOptic(rule.metric, Fin(v));
    assert DeviceStep(rule, l, NO_ENTRY, Sample(value, Some(ts)), now, staleAfter).1 ==
           EvaluateThreshold(rule, l, value, if Breaches(rule, l, value) then 1 else 0, 0.0);
    assert Immediate(rule) ==> PollsWanted(rule) <= 1;
  }

  /** Infinities compare like numbers beyond all others, what is no number compares with nothing -- except on
      an optic, where neither is a reading: nothing breaches, and a rule that fires below clears. */
  lemma FirstOddSampleVerdict(rule: ThresholdRule, l: Limits, odd: Reading, ts: real, now: real, staleAfter: real)
    requires FreshAt(ts, now, staleAfter) && !odd.Fin? && l.threshold.Some? && Immediate(rule)
    ensures
      var verdict := DeviceStep(rule, l, NO_ENTRY, Sample(Some(odd), Some(ts)), now, staleAfter).1;
      var optic := rule.metric in {"sfp_rx_dbm", "sfp_tx_dbm"};
      && (verdict == Breach <==> !optic && odd == if rule.below then NegInf else PosInf)
      && (verdict == Clear <==>
            (optic && rule.below) || (l.clear.Some? && odd == if rule.below then PosInf else NegInf))
  {
  }

  /** A sample older than the staleness limit says nothing and ends the run; one exactly that old still
      counts. */
  lemma StaleExactly(rule: ThresholdRule, l: Limits, e: Entry, v: Reading, ts: real, now: real, staleAfter: real)
    ensures
      var (after, verdict) := DeviceStep(rule, l, e, Sample(Some(v), Some(ts)), now, staleAfter);
      && (FreshAt(ts, now, staleAfter) <==> after.run.ts == Some(ts))
      && (!FreshAt(ts, now, staleAfter) ==>
            verdict == Quiet && after.run.ts == None && after.run.streak == 0 && after.run.first == None)
  {
  }

  /** A further breaching sample counts one more and keeps the first breach, unless it is further from the last
      than the staleness limit or the limits changed: then it is the first of a new run. */
  lemma GapRestartsExactly(rule: ThresholdRule, l: Limits, e: Entry, v: real, p: real, ts: real, now: real,
                           staleAfter: real)
    requires FreshAt(ts, now, staleAfter) && e.run.ts == Some(p) && p < ts && e.run.first.Some?
    requires l.threshold.Some? && OnWrongSide(rule, l.threshold.value, v) && !NoLight(rule, v)
    ensures
      var after := DeviceStep(rule, l, e, Sample(Some(Fin(v)), Some(ts)), now, staleAfter).0;
      var goesOn := e.limits == l && (staleAfter <= 0.0 || ts - p <= staleAfter);
      && after.limits == l
      && after.run == if goesOn then BreachRun(Some(ts), e.run.streak + 1, e.run.first)
                      else BreachRun(Some(ts), 1, Some(ts))
  {
  }

  // ------------------------------------------------------------------- what is raised

  /** The target's verdict is a breach; its run was not resolved by hand, and its sample is not one already
      reported to an alert still open. */
  ghost predicate ToRaise(prior: map<TargetKey, Entry>, x: Target, now: real, staleAfter: real,
                          openKeys: set<TargetKey>, handResolves: map<TargetKey, real>)
  {
    var e := if x.key in prior then prior[x.key] else NO_ENTRY;
    var (after, verdict) := DeviceStep(x.rule, x.limits, e, x.sample, now, staleAfter);
    && !x.skipped && verdict == Breach
    && !(x.key in handResolves && after.run.first.Some? && after.run.first.value <= handResolves[x.key])
    && !(x.key in openKeys && e.limits == x.limits && after.run.ts.Some? && after.run.ts == e.run.ts)
  }

  /** A scan takes every target it does not skip one step on, from its own entry or from none, and leaves that
      behind. */
  lemma EveryTargetSteps(prior: map<TargetKey, Entry>, targets: seq<Target>, fullPass: bool, now: real,
                         staleAfter: real, table: map<TargetKey, Entry>, verdicts: map<TargetKey, Verdict>, i: nat)
    requires Scanned(prior, targets, fullPass, now, staleAfter, table, verdicts)
    requires i < |targets| && !targets[i].skipped
    ensures
      var x := targets[i];
      var e := if x.key in prior then prior[x.key] else Entry(BreachRun(None, 0, None), Limits(None, None));
      && x.key in table && x.key in verdicts
      && (table[x.key], verdicts[x.key]) == DeviceStep(x.rule, x.limits, e, x.sample, now, staleAfter)
  {
    assert (table[targets[i].key], verdicts[targets[i].key]) == StepTarget(prior, targets[i], now, staleAfter);
  }

  /** A scan raises an occurrence for exactly those targets. */
  lemma {:induction false} RaisedExactly(prior: map<TargetKey, Entry>, targets: seq<Target>, now: real,
                                         staleAfter: real, openKeys: set<TargetKey>,
                                         handResolves: map<TargetKey, real>, k: TargetKey)
    ensures k in RaisedKeys(prior, targets, now, staleAfter, openKeys, handResolves) <==>
            exists i :: 0 <= i < |targets| && targets[i].key == k
                        && ToRaise(prior, targets[i], now, staleAfter, openKeys, handResolves)
  {
    if targets != [] {
      var init, last := targets[..|targets| - 1], targets[|targets| - 1];
      RaisedExactly(prior, init, now, staleAfter, openKeys, handResolves, k);
      RaisedMeans(prior, last, now, staleAfter, openKeys, handResolves);
      assert forall i :: 0 <= i < |init| ==> init[i] == targets[i];
    }
  }

  lemma RaisedMeans(prior: map<TargetKey, Entry>, x: Target, now: real, staleAfter: real,
                    openKeys: set<TargetKey>, handResolves: map<TargetKey, real>)
    ensures RaisesTarget(prior, x, now, staleAfter, openKeys, handResolves) <==>
            ToRaise(prior, x, now, staleAfter, openKeys, handResolves)
  {
  }
}
