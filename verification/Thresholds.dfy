/**
 Threshold evaluation: the predicates of netpath/alertrules.py and the streak
 step the three evaluators of netpath/alertengine.py share. A breach streak is
 counted in samples, never in engine ticks.
 */
module Thresholds {
  import opened Wrappers

  /** A metric value; an agent with no reading to give reports a non-finite one. */
  datatype Reading = Fin(v: real) | PosInf | NegInf | NaN

  predicate AtMost(r: Reading, t: real) {
    match r case Fin(v) => v <= t case PosInf => false case NegInf => true case NaN => false
  }

  predicate AtLeast(r: Reading, t: real) {
    match r case Fin(v) => v >= t case PosInf => true case NegInf => false case NaN => false
  }

  predicate Under(r: Reading, t: real) {
    match r case Fin(v) => v < t case PosInf => false case NegInf => true case NaN => false
  }

  predicate Over(r: Reading, t: real) {
    match r case Fin(v) => v > t case PosInf => true case NegInf => false case NaN => false
  }

  /** The columns of a threshold rule that evaluation reads; `metric` is its source_kind. */
  datatype ThresholdRule = ThresholdRule(metric: string, below: bool, forSeconds: Option<real>, forPolls: int)

  /** The effective threshold and clear threshold: the rule's own, a device override, or what a
      transceiver publishes. */
  datatype Limits = Limits(threshold: Option<real>, clear: Option<real>)

  datatype Verdict = Breach | Clear | Quiet

  predicate IsOpticPower(metric: string) {
    metric == "sfp_rx_dbm" || metric == "sfp_tx_dbm"
  }

  /** is_dark_optic, with DARK_OPTIC_DBM and its tolerance. */
  predicate IsDarkOptic(metric: string, r: Reading) {
    IsOpticPower(metric) && (!r.Fin? || r.v <= -40.0 + 0.5)
  }

  predicate Breaches(rule: ThresholdRule, l: Limits, value: Option<Reading>) {
    && value.Some? && l.threshold.Some?
    && !IsDarkOptic(rule.metric, value.value)
    && if rule.below then AtMost(value.value, l.threshold.value) else AtLeast(value.value, l.threshold.value)
  }

  predicate Recovered(rule: ThresholdRule, l: Limits, value: Option<Reading>) {
    && value.Some? && l.clear.Some?
    && if rule.below then Over(value.value, l.clear.value) else Under(value.value, l.clear.value)
  }

  function PollsWanted(rule: ThresholdRule): int {
    if rule.forPolls > 1 then rule.forPolls else 1
  }

  function EvaluateThreshold(rule: ThresholdRule, l: Limits, value: Option<Reading>, streak: nat,
                             breachSeconds: real): Verdict {
    if value.None? || l.threshold.None? then Quiet
    else if Breaches(rule, l, value) then
      if rule.forSeconds.Some? && rule.forSeconds.value != 0.0
      then if breachSeconds >= rule.forSeconds.value then Breach else Quiet
      else if streak >= PollsWanted(rule) then Breach else Quiet
    else if rule.below && IsDarkOptic(rule.metric, value.value) then Clear
    else if Recovered(rule, l, value) then Clear
    else Quiet
  }

  // -------------------------------------------------------- the streak step

  /** The breach run an evaluator keeps for one target: the last sample's timestamp, how many
      samples in a row have breached, and the first breach of the run. */
  datatype BreachRun = BreachRun(ts: Option<real>, streak: nat, first: Option<real>)

  const NO_RUN := BreachRun(None, 0, None)

  /** One look at a target: whether what was counted so far no longer applies (`restart`),
      the value and timestamp seen, and whether the value counts toward the streak. */
  datatype Look = Look(restart: bool, over: bool, value: Option<Reading>, ts: Option<real>)

  function BreachSeconds(first: Option<real>, ts: Option<real>): real {
    if first.None? || ts.None? || ts.value <= first.value then 0.0 else ts.value - first.value
  }

  /** The run a look continues: nothing after a restart, and no first breach over a gap in the data. */
  function Carried(run: BreachRun, k: Look): BreachRun {
    if k.restart then NO_RUN else if k.value.None? then run.(first := None) else run
  }

  function StreakStep(rule: ThresholdRule, l: Limits, run: BreachRun, k: Look): (BreachRun, Verdict) {
    var c := Carried(run, k);
    var isNew := k.over && k.ts != c.ts;
    var streak := if !k.over then 0 else if isNew then c.streak + 1 else c.streak;
    var first := if isNew && c.first.None? then k.ts else c.first;
    var verdict := EvaluateThreshold(rule, l, k.value, streak, BreachSeconds(first, k.ts));
    (BreachRun(k.ts, streak, if verdict.Clear? then None else first), verdict)
  }

  /** Whether a look raises an occurrence: a breach verdict, not of a run an operator resolved
      by hand, and not a sample already reported to an alert still open. */
  predicate Raises(rule: ThresholdRule, l: Limits, run: BreachRun, k: Look, keyOpen: bool, handResolve: Option<real>) {
    var (after, verdict) := StreakStep(rule, l, run, k);
    && verdict.Breach?
    && !ResolvedByHand(after.first, handResolve)
    && !(k.ts.Some? && k.ts == Carried(run, k).ts && keyOpen)
  }

  /** _operator_resolved: the resolve is of this run when it came at or after the run began. */
  predicate ResolvedByHand(first: Option<real>, handResolve: Option<real>) {
    handResolve.Some? && first.Some? && first.value <= handResolve.value
  }

  /** Looking again at an unchanged sample changes nothing and gives the same verdict. */
  lemma RetickChangesNothing(rule: ThresholdRule, l: Limits, run: BreachRun, k: Look)
    requires k.over == Breaches(rule, l, k.value)
    ensures
      var (after, verdict) := StreakStep(rule, l, run, k);
      StreakStep(rule, l, after, k.(restart := false)) == (after, verdict)
  {
  }

  // ------------------------------------------------- the three evaluators

  /** An entry of _breach_streaks: the run and the limits it was counted against. */
  datatype Entry = Entry(run: BreachRun, limits: Limits)

  const NO_ENTRY := Entry(NO_RUN, Limits(None, None))

  /** A metric's newest reading, as the poller last stored it. */
  datatype Sample = Sample(value: Option<Reading>, ts: Option<real>)

  predicate IsStale(s: Sample, now: real, staleAfter: real) {
    staleAfter > 0.0 && s.ts.Some? && now - s.ts.value > staleAfter
  }

  /** A sample too old is treated as absent. */
  function Seen(s: Sample, now: real, staleAfter: real): Sample {
    if IsStale(s, now, staleAfter) then Sample(None, None) else s
  }

  /** The samples on either side were too far apart for one run to span them. */
  predicate GapBefore(previous: Option<real>, ts: Option<real>, staleAfter: real) {
    staleAfter > 0.0 && previous.Some? && ts.Some? && ts.value - previous.value > staleAfter
  }

  function DeviceLook(rule: ThresholdRule, l: Limits, e: Entry, seen: Sample, staleAfter: real): Look {
    Look(e.limits != l || (seen.value.Some? && GapBefore(e.run.ts, seen.ts, staleAfter)),
         Breaches(rule, l, seen.value), seen.value, seen.ts)
  }

  /** _scan_thresholds for one target. */
  function DeviceStep(rule: ThresholdRule, l: Limits, e: Entry, s: Sample, now: real, staleAfter: real): (Entry,
            Verdict) {
    var seen := Seen(s, now, staleAfter);
    var (run, verdict) := StreakStep(rule, l, e.run, DeviceLook(rule, l, e, seen, staleAfter));
    (Entry(run, l), verdict)
  }

  /** _evaluate_dhcp_thresholds and _evaluate_netpath_thresholds for one scope or trace: the
      streak counts values at or over the threshold, whatever the rule's direction. */
  predicate PolledOver(l: Limits, value: Reading) {
    l.threshold.Some? && AtLeast(value, l.threshold.value)
  }

  function PolledLook(l: Limits, value: Reading, ts: Option<real>): Look {
    Look(false, PolledOver(l, value), Some(value), ts)
  }

  function PolledStep(rule: ThresholdRule, l: Limits, run: BreachRun, value: Reading, ts: Option<real>): (BreachRun,
            Verdict) {
    StreakStep(rule, l, run, PolledLook(l, value, ts))
  }

  // ---------------------------------------------------------- the scan loop

  type TargetKey = (int, string)

  /** One target of one rule: whether the evaluator steps over it (rule off for the device,
      covered by its sensors, no published limit, or equal to its baseline), its effective
      limits and its newest sample. */
  datatype Target = Target(key: TargetKey, rule: ThresholdRule, skipped: bool, limits: Limits, sample: Sample)

  function EntryOf(m: map<TargetKey, Entry>, k: TargetKey): Entry {
    if k in m then m[k] else NO_ENTRY
  }

  function StepTarget(prior: map<TargetKey, Entry>, x: Target, now: real, staleAfter: real): (Entry, Verdict) {
    DeviceStep(x.rule, x.limits, EntryOf(prior, x.key), x.sample, now, staleAfter)
  }

  /** Whether looking at one target raises an occurrence: a breach verdict past the hand-resolve gate and
      the gate on a sample already reported. `handResolves` are those still inside their window. */
  predicate RaisesTarget(prior: map<TargetKey, Entry>, x: Target, now: real, staleAfter: real,
                         openKeys: set<TargetKey>, handResolves: map<TargetKey, real>)
  {
    var e, seen := EntryOf(prior, x.key), Seen(x.sample, now, staleAfter);
    !x.skipped && Raises(x.rule, x.limits, e.run, DeviceLook(x.rule, x.limits, e, seen, staleAfter), x.key in openKeys,
                         if x.key in handResolves then Some(handResolves[x.key]) else None)
  }

  /** The targets a scan raises occurrences for, in order. */
  function RaisedKeys(prior: map<TargetKey, Entry>, targets: seq<Target>, now: real, staleAfter: real,
                      openKeys: set<TargetKey>, handResolves: map<TargetKey, real>): seq<TargetKey>
  {
    if targets == [] then []
    else
      var init, last := RaisedKeys(prior, targets[..|targets| - 1], now, staleAfter, openKeys, handResolves),
          targets[|targets| - 1];
      if RaisesTarget(prior, last, now, staleAfter, openKeys, handResolves) then init + [last.key] else init
  }

  predicate Evaluated(targets: seq<Target>, k: TargetKey) {
    exists i :: 0 <= i < |targets| && !targets[i].skipped && targets[i].key == k
  }

  /** `table` and `verdicts` are what scanning `targets` makes of `prior`: every evaluated target
      has taken one step; of the rest a full pass forgets all and a dirty pass changes none. */
  ghost predicate Scanned(prior: map<TargetKey, Entry>, targets: seq<Target>, fullPass: bool, now: real,
                          staleAfter: real,
                          table: map<TargetKey, Entry>, verdicts: map<TargetKey, Verdict>)
  {
    && (forall i :: 0 <= i < |targets| && !targets[i].skipped ==>
          && targets[i].key in table && targets[i].key in verdicts
          && (table[targets[i].key], verdicts[targets[i].key]) == StepTarget(prior, targets[i], now, staleAfter))
    && (forall k :: k in table && !Evaluated(targets, k) ==> !fullPass && k in prior && table[k] == prior[k])
    && (forall k :: k in prior && !fullPass ==> k in table)
  }

  lemma ScanOneMore(prior: map<TargetKey, Entry>, targets: seq<Target>, x: Target, fullPass: bool, now: real,
                    staleAfter: real,
                    table: map<TargetKey, Entry>, verdicts: map<TargetKey, Verdict>)
    requires Scanned(prior, targets, fullPass, now, staleAfter, table, verdicts)
    requires forall i :: 0 <= i < |targets| ==> targets[i].key != x.key
    ensures x.skipped ==> Scanned(prior, targets + [x], fullPass, now, staleAfter, table, verdicts)
    ensures
      var (entry, verdict) := StepTarget(prior, x, now, staleAfter);
      !x.skipped ==> Scanned(prior, targets + [x], fullPass, now, staleAfter, table[x.key := entry],
                             verdicts[x.key := verdict])
  {
    var more := targets + [x];
    assert more[|targets|] == x;
    forall k
      ensures Evaluated(more, k) <==> Evaluated(targets, k) || (!x.skipped && k == x.key)
    {
      if Evaluated(targets, k) {
        var i :| 0 <= i < |targets| && !targets[i].skipped && targets[i].key == k;
        assert more[i] == targets[i];
      }
    }
  }

  class ThresholdScanner {
    var breachStreaks: map<TargetKey, Entry>

    constructor ()
      ensures breachStreaks == map[]
    {
      breachStreaks := map[];
    }

    /** The loop of _scan_thresholds: a full pass builds a new table, a dirty pass updates the
        table in place; either raises what the gates let through. */
    method Scan(targets: seq<Target>, fullPass: bool, now: real, staleAfter: real,
                openKeys: set<TargetKey>, handResolves: map<TargetKey, real>)
      returns (verdicts: map<TargetKey, Verdict>, raised: seq<TargetKey>)
      requires forall i, j :: 0 <= i < j < |targets| ==> targets[i].key != targets[j].key
      modifies this
      ensures Scanned(old(breachStreaks), targets, fullPass, now, staleAfter, breachStreaks, verdicts)
      ensures raised == RaisedKeys(old(breachStreaks), targets, now, staleAfter, openKeys, handResolves)
    {
      ghost var prior := breachStreaks;
      var live := map[];
      verdicts, raised := map[], [];
      for n := 0 to |targets|
        invariant fullPass ==> breachStreaks == prior
        invariant Scanned(prior, targets[..n], fullPass, now, staleAfter, if fullPass then live else breachStreaks,
                          verdicts)
        invariant raised == RaisedKeys(prior, targets[..n], now, staleAfter, openKeys, handResolves)
      {
        var target := targets[n];
        ghost var table := if fullPass then live else breachStreaks;
        ScanOneMore(prior, targets[..n], target, fullPass, now, staleAfter, table, verdicts);
        assert targets[..n + 1] == targets[..n] + [target];
        assert targets[..n + 1][..n] == targets[..n];
        if target.skipped {
          continue;
        }
        assert EntryOf(breachStreaks, target.key) == EntryOf(prior, target.key) by {
          assert !Evaluated(targets[..n], target.key);
        }
        var (entry, verdict) := StepTarget(breachStreaks, target, now, staleAfter);
        if RaisesTarget(breachStreaks, target, now, staleAfter, openKeys, handResolves) {
          raised := raised + [target.key];
        }
        if fullPass {
          live := live[target.key := entry];
        } else {
          breachStreaks := breachStreaks[target.key := entry];
        }
        verdicts := verdicts[target.key := verdict];
      }
      assert targets[..|targets|] == targets;
      if fullPass {
        breachStreaks := live;
      }
    }
  }
}
