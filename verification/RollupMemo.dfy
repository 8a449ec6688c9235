/**
 The answer about a device's upstream that a tick remembers. A remembered "covered"
 stays true; a remembered "uncovered" goes stale exactly when an outage on the
 device's chain opens after the question.
 */
module RollupMemo {
  import opened Wrappers
  import opened RollupRules
  import opened Rollup
  import opened RollupExclusion
  import opened RollupOrder

  // ----------------------------------------------------- when an answer goes stale

  /** One rule turns a device nothing blocks into a blocked one exactly by opening an outage on its
      chain. */
  lemma RuleBlocksExactlyByOpening(t: Tick, s: Store, rule: Rule, occ: Occurrence, d: nat)
    requires t.rollup && Sound(t.nodes) && !Blocked(t, Outages(s.active), s.covers, d)
    ensures
      var after := ApplyRule(t, s, rule, occ);
      Blocked(t, Outages(after.active), after.covers, d) <==> OpensAbove(t, s, rule, occ, d)
  {
    var after := ApplyRule(t, s, rule, occ);
    RuleChangesOutages(t, s, rule, occ);
    RuleAsksOnly(t, s, rule, occ);
    SameCoversSameBlocked(t, Outages(after.active), s.covers, after.covers, d);
    if OpensOutage(t, s, rule, occ) {
      assert !Beneath(t.nodes, occ.entity.id, occ.entity.id);
    }
  }

  /** A rule newly opens the outage of a device on d's chain. */
  ghost predicate OpensAbove(t: Tick, s: Store, rule: Rule, occ: Occurrence, d: nat) {
    OpensOutage(t, s, rule, occ) && occ.entity.id in t.nodes.UpstreamChain(d)
  }

  /** Where the two topology reads agree, a blocked device stays blocked: an outage goes only in favour
      of one upstream of it. */
  lemma RuleKeepsBlocked(t: Tick, s: Store, rule: Rule, occ: Occurrence, d: nat)
    requires t.rollup && Agreeing(t.nodes) && Blocked(t, Outages(s.active), s.covers, d)
    ensures
      var after := ApplyRule(t, s, rule, occ);
      Blocked(t, Outages(after.active), after.covers, d)
  {
    var after := ApplyRule(t, s, rule, occ);
    RuleChangesOutages(t, s, rule, occ);
    RuleAsksOnly(t, s, rule, occ);
    var a :| a in t.nodes.UpstreamChain(d) && (a in Outages(s.active) || CoveredByHand(t, s.covers, a));
    if OpensOutage(t, s, rule, occ) && !CoveredByHand(t, s.covers, a) {
      ChainStaysOut(t.nodes, Outages(s.active), occ.entity.id, a, d);
    }
  }

  /** When an outage opens and those beneath it go, a chain with an outage on it still has one. */
  lemma ChainStaysOut(n: Nodes, open: set<nat>, e: nat, a: nat, d: nat)
    requires Agreeing(n) && a in n.UpstreamChain(d) && a in open
    ensures exists b :: b in n.UpstreamChain(d) && b in (open + {e}) - Below(n, e)
  {
    assert !Beneath(n, e, e);
    if a in Below(n, e) {
      assert Beneath(n, a, e) && Beneath(n, d, a);
      assert Beneath(n, d, e);
    }
  }

  /** One rule looked at for one occurrence. */
  datatype Step = Step(rule: Rule, occ: Occurrence)

  function Through(t: Tick, s: Store, steps: seq<Step>): Store {
    if steps == [] then s
    else
      var last := steps[|steps| - 1];
      ApplyRule(t, Through(t, s, steps[..|steps| - 1]), last.rule, last.occ)
  }

  function RuleSteps(rules: seq<Rule>, occ: Occurrence): seq<Step> {
    if rules == [] then [] else RuleSteps(rules[..|rules| - 1], occ) + [Step(rules[|rules| - 1], occ)]
  }

  /** The apply loop of a tick, rule by rule. */
  function BatchSteps(t: Tick, batch: seq<Occurrence>): seq<Step> {
    if batch == [] then [] else BatchSteps(t, batch[..|batch| - 1]) + RuleSteps(t.rules, batch[|batch| - 1])
  }

  lemma {:induction false} ThroughSplits(t: Tick, s: Store, a: seq<Step>, b: seq<Step>)
    ensures Through(t, s, a + b) == Through(t, Through(t, s, a), b)
  {
    if b == [] {
      assert a + b == a;
    } else {
      assert (a + b)[..|a + b| - 1] == a + b[..|b| - 1];
      ThroughSplits(t, s, a, b[..|b| - 1]);
    }
  }

  lemma {:induction false} RuleStepsApply(t: Tick, s: Store, rules: seq<Rule>, occ: Occurrence)
    ensures Through(t, s, RuleSteps(rules, occ)) == ApplyRules(t, s, rules, occ)
  {
    if rules != [] {
      var init, last := rules[..|rules| - 1], rules[|rules| - 1];
      RuleStepsApply(t, s, init, occ);
      ThroughSplits(t, s, RuleSteps(init, occ), [Step(last, occ)]);
      var before := Through(t, s, RuleSteps(init, occ));
      assert [Step(last, occ)][..0] == [];
      assert Through(t, before, [Step(last, occ)]) == ApplyRule(t, before, last, occ);
    }
  }

  lemma {:induction false} BatchStepsApply(t: Tick, s: Store, batch: seq<Occurrence>)
    ensures Through(t, s, BatchSteps(t, batch)) == ApplyAll(t, s, batch)
  {
    if batch != [] {
      var init, last := batch[..|batch| - 1], batch[|batch| - 1];
      BatchStepsApply(t, s, init);
      ThroughSplits(t, s, BatchSteps(t, init), RuleSteps(t.rules, last));
      RuleStepsApply(t, Through(t, s, BatchSteps(t, init)), t.rules, last);
    }
  }

  /** Step k of the walk opens an outage on d's chain. */
  ghost predicate OpensAboveAt(t: Tick, s: Store, steps: seq<Step>, k: nat, d: nat) {
    k < |steps| && OpensAbove(t, Through(t, s, steps[..k]), steps[k].rule, steps[k].occ, d)
  }

  lemma {:induction false} MemoSurvivesSteps(t: Tick, s: Store, steps: seq<Step>, d: nat)
    requires d in s.memo
    ensures d in Through(t, s, steps).memo && Through(t, s, steps).memo[d] == s.memo[d]
  {
    if steps != [] {
      var n := |steps| - 1;
      MemoSurvivesSteps(t, s, steps[..n], d);
      RuleAsksOnly(t, Through(t, s, steps[..n]), steps[n].rule, steps[n].occ);
    }
  }

  /** Some outage on d's chain opens at step k or later. */
  ghost predicate OpensAboveFrom(t: Tick, s: Store, steps: seq<Step>, k: nat, d: nat) {
    exists m :: k <= m && OpensAboveAt(t, s, steps, m, d)
  }

  /** After step m of the walk something blocks d. */
  ghost predicate BlockedAfter(t: Tick, s: Store, steps: seq<Step>, m: nat, d: nat) {
    m < |steps| && var after := Through(t, s, steps[..m + 1]); Blocked(t, Outages(after.active), after.covers, d)
  }

  /** An outage that opens on d's chain blocks d, whatever was open. */
  lemma OpeningBlocks(t: Tick, s: Store, rule: Rule, occ: Occurrence, d: nat)
    requires t.rollup && Sound(t.nodes) && OpensAbove(t, s, rule, occ, d)
    ensures
      var after := ApplyRule(t, s, rule, occ);
      Blocked(t, Outages(after.active), after.covers, d)
  {
    RuleChangesOutages(t, s, rule, occ);
    assert !Beneath(t.nodes, occ.entity.id, occ.entity.id);
  }

  /** Something blocks d at some moment from step k on. */
  ghost predicate BlockedFrom(t: Tick, s: Store, steps: seq<Step>, k: nat, d: nat) {
    exists m :: k <= m && BlockedAfter(t, s, steps, m, d)
  }

  /** Something blocks d when step m is about to be taken. */
  ghost predicate BlockedBefore(t: Tick, s: Store, steps: seq<Step>, m: nat, d: nat) {
    m <= |steps| && var before := Through(t, s, steps[..m]); Blocked(t, Outages(before.active), before.covers, d)
  }

  lemma BlockedAtThisStep(t: Tick, s: Store, steps: seq<Step>, m: nat, d: nat)
    requires t.rollup && Sound(t.nodes) && BlockedAfter(t, s, steps, m, d) && !BlockedBefore(t, s, steps, m, d)
    ensures OpensAboveAt(t, s, steps, m, d)
  {
    ThroughOneMore(t, s, steps, m);
    RuleBlocksExactlyByOpening(t, Through(t, s, steps[..m]), steps[m].rule, steps[m].occ, d);
  }

  lemma {:induction false} FirstBlockedByAnOpening(t: Tick, s: Store, steps: seq<Step>, k: nat, m: nat, d: nat)
    requires t.rollup && Sound(t.nodes) && k <= m && BlockedAfter(t, s, steps, m, d)
    requires !BlockedBefore(t, s, steps, k, d)
    ensures OpensAboveFrom(t, s, steps, k, d)
    decreases m
  {
    if BlockedBefore(t, s, steps, m, d) {
      assert BlockedAfter(t, s, steps, m - 1, d);
      FirstBlockedByAnOpening(t, s, steps, k, m - 1, d);
    } else {
      BlockedAtThisStep(t, s, steps, m, d);
    }
  }

  /** From unblocked on, d is blocked at some moment exactly when an outage on its chain opens: only
      acyclicity is asked of the topology reads. */
  lemma BlockedFromExactlyByAnOpening(t: Tick, s: Store, steps: seq<Step>, k: nat, d: nat)
    requires t.rollup && Sound(t.nodes) && k < |steps|
    requires
      var before := Through(t, s, steps[..k]);
      !Blocked(t, Outages(before.active), before.covers, d)
    ensures BlockedFrom(t, s, steps, k, d) <==> OpensAboveFrom(t, s, steps, k, d)
  {
    if m: nat :| k <= m && BlockedAfter(t, s, steps, m, d) {
      FirstBlockedByAnOpening(t, s, steps, k, m, d);
    }
    if m: nat :| k <= m && OpensAboveAt(t, s, steps, m, d) {
      ThroughOneMore(t, s, steps, m);
      OpeningBlocks(t, Through(t, s, steps[..m]), steps[m].rule, steps[m].occ, d);
      assert BlockedAfter(t, s, steps, m, d);
    }
  }

  /** Where the two topology reads agree, what is blocked after one step is blocked after the later ones. */
  lemma {:induction false} StaysBlocked(t: Tick, s: Store, steps: seq<Step>, m: nat, n: nat, d: nat)
    requires t.rollup && Agreeing(t.nodes) && m <= n < |steps| && BlockedAfter(t, s, steps, m, d)
    ensures BlockedAfter(t, s, steps, n, d)
    decreases n
  {
    if m < n {
      StaysBlocked(t, s, steps, m, n - 1, d);
      ThroughOneMore(t, s, steps, n);
      RuleKeepsBlocked(t, Through(t, s, steps[..n]), steps[n].rule, steps[n].occ, d);
    }
  }

  lemma BlockedToTheEnd(t: Tick, s: Store, steps: seq<Step>, k: nat, d: nat)
    requires t.rollup && Agreeing(t.nodes) && k < |steps|
    ensures
      var after := Through(t, s, steps);
      Blocked(t, Outages(after.active), after.covers, d) <==> BlockedFrom(t, s, steps, k, d)
  {
    var last := |steps| - 1;
    assert steps[..last + 1] == steps;
    if m: nat :| k <= m && BlockedAfter(t, s, steps, m, d) {
      StaysBlocked(t, s, steps, m, last, d);
    }
    assert BlockedAfter(t, s, steps, last, d) ==> BlockedFrom(t, s, steps, k, d);
  }

  /** Within a tick the answer about a device asked at step k and remembered as uncovered is kept to
      the end, and is stale at some moment -- the device is blocked -- if and only if an outage on its
      chain opened at that step or later. Where the two topology reads agree it is then stale to the
      end: asked afresh, the device would be covered. */
  lemma UncoveredGoesStaleExactlyByAnOpening(t: Tick, s: Store, batch: seq<Occurrence>, k: nat, d: nat)
    requires t.rollup && Sound(t.nodes) && k < |BatchSteps(t, batch)|
    requires
      var steps := BatchSteps(t, batch);
      var asked := Through(t, s, steps[..k + 1]);
      d !in Through(t, s, steps[..k]).memo && d in asked.memo && asked.memo[d].Uncovered?
    ensures
      var steps, after := BatchSteps(t, batch), ApplyAll(t, s, batch);
      && d in after.memo && after.memo[d].Uncovered?
      && (BlockedFrom(t, s, steps, k, d) <==> OpensAboveFrom(t, s, steps, k, d))
      && (Agreeing(t.nodes) ==>
            (!UpstreamOutage(t, after.(memo := map[]), d).0.Uncovered? <==> OpensAboveFrom(t, s, steps, k, d)))
  {
    var steps, after := BatchSteps(t, batch), ApplyAll(t, s, batch);
    BatchStepsApply(t, s, batch);
    AskedAt(t, s, steps, k, d);
    BlockedFromExactlyByAnOpening(t, s, steps, k, d);
    if Agreeing(t.nodes) {
      BlockedToTheEnd(t, s, steps, k, d);
      FreshAnswer(t, after.(memo := map[]), d);
    }
  }

  /** Asked at step k and found uncovered: nothing blocked it then, and the answer is kept. */
  lemma AskedAt(t: Tick, s: Store, steps: seq<Step>, k: nat, d: nat)
    requires k < |steps| && d !in Through(t, s, steps[..k]).memo
    requires
      var asked := Through(t, s, steps[..k + 1]);
      d in asked.memo && asked.memo[d].Uncovered?
    ensures
      var before, after := Through(t, s, steps[..k]), Through(t, s, steps);
      && !Blocked(t, Outages(before.active), before.covers, d)
      && d in after.memo && after.memo[d].Uncovered?
  {
    ThroughOneMore(t, s, steps, k);
    RuleAsksOnly(t, Through(t, s, steps[..k]), steps[k].rule, steps[k].occ);
    ThroughFrom(t, s, steps, k + 1);
    MemoSurvivesSteps(t, Through(t, s, steps[..k + 1]), steps[k + 1..], d);
  }

  lemma ThroughOneMore(t: Tick, s: Store, steps: seq<Step>, k: nat)
    requires k < |steps|
    ensures Through(t, s, steps[..k + 1]) == ApplyRule(t, Through(t, s, steps[..k]), steps[k].rule, steps[k].occ)
  {
    assert steps[..k + 1][..k] == steps[..k];
  }

  lemma ThroughFrom(t: Tick, s: Store, steps: seq<Step>, k: nat)
    requires k <= |steps|
    ensures Through(t, s, steps) == Through(t, Through(t, s, steps[..k]), steps[k..])
  {
    assert steps == steps[..k] + steps[k..];
    ThroughSplits(t, s, steps[..k], steps[k..]);
  }

  // ------------------------------------------------------------- one such tick

  /** Once the outage rule has looked at a device, the tick remembers the answer: whether anything
      blocked it at that moment. */
  lemma {:induction false} OutageIsRemembered(t: Tick, s: Store, i: nat, n: nat, occ: Occurrence)
    requires t.rollup && Sound(t.nodes) && ReportsOutage(t, i, occ) && i < n <= |t.rules|
    requires occ.entity.id !in s.memo
    ensures
      var memo := ApplyRules(t, s, t.rules[..n], occ).memo;
      && occ.entity.id in memo
      && (memo[occ.entity.id].Uncovered? <==> !Blocked(t, Outages(s.active), s.covers, occ.entity.id))
  {
    assert t.rules[..n][..n - 1] == t.rules[..n - 1];
    var before := ApplyRules(t, s, t.rules[..n - 1], occ);
    if n - 1 == i {
      ApplyOneOutage(t, s, i, n - 1, occ);
      AskedAtTheOutageRule(t, s, i, occ, before);
    } else {
      OutageIsRemembered(t, s, i, n - 1, occ);
      RuleAsksOnly(t, before, t.rules[n - 1], occ);
    }
  }

  lemma AskedAtTheOutageRule(t: Tick, s: Store, i: nat, occ: Occurrence, before: Store)
    requires t.rollup && ReportsOutage(t, i, occ) && OutageProgress(t, s, i, i, occ.entity.id, before)
    ensures
      var memo, d := ApplyRule(t, before, t.rules[i], occ).memo, occ.entity.id;
      d in memo && (memo[d].Uncovered? <==> !Blocked(t, Outages(s.active), s.covers, d))
  {
    RuleAsksOnly(t, before, t.rules[i], occ);
    RuleKeepsWhatItAsked(t, before, t.rules[i], occ);
    SameCoversSameBlocked(t, Outages(s.active), s.covers, before.covers, occ.entity.id);
  }

  /** A device's outage, then its upstream's: the upstream's alone is open, and the tick still
      remembers the device as uncovered. */
  lemma OutageThenUpstream(t: Tick, i: nat, x: nat, a: nat, downX: Occurrence, downA: Occurrence)
    requires t.rollup && Sound(t.nodes) && t.handResolves == map[]
    requires ReportsOutage(t, i, downX) && ReportsOutage(t, i, downA)
    requires downX.entity == Device(x) && downA.entity == Device(a) && a in t.nodes.UpstreamChain(x)
    ensures
      var s := ApplyAll(t, Store(map[], map[], map[]), [downX, downA]);
      && Outages(s.active) == {a} && x in s.memo && s.memo[x] == Uncovered
      && !CoveredByHand(t, s.covers, x)
  {
    var s0 := Store(map[], map[], map[]);
    assert Outages(s0.active) == {};
    assert Beneath(t.nodes, x, a) && !Beneath(t.nodes, x, x) && !Beneath(t.nodes, a, a);
    TwoOutages(t, s0, i, downX, downA);
    assert OutageStep(t, {}, map[], x) == {x};
    assert OutageStep(t, {x}, map[], a) == {a};
    var s1, s := Apply(t, s0, downX), ApplyAll(t, s0, [downX, downA]);
    assert [downX, downA][..1] == [downX] && ApplyAll(t, s0, [downX][..0]) == s0 && [downX][0] == downX;
    assert t.rules[..|t.rules|] == t.rules;
    ApplyOneOutage(t, s0, i, |t.rules|, downX);
    OutageIsRemembered(t, s0, i, |t.rules|, downX);
    ApplyOneOutage(t, s1, i, |t.rules|, downA);
    MemoSurvives(t, s1, |t.rules|, downA, x);
  }

  /** A rollup child whose device is remembered as uncovered opens, whatever is open upstream;
      asked afresh with an upstream outage open, it does not. */
  lemma RememberedAnswerDecides(t: Tick, s: Store, i: nat, child: Rule, occ: Occurrence, x: nat)
    requires t.rollup && i < |t.rules| && DistinctKeys(t.rules)
    requires t.rules[i].key == DeviceDown && t.rules[i].kind == DeviceEvent
    requires RolledUpBy(child.key) == Some(DeviceDown) && Admits(child, occ, t.muted) && occ.entity == Device(x)
    requires DownKey(x) !in s.active && !CoveredByHand(t, s.covers, x)
    ensures x in s.memo && s.memo[x] == Uncovered ==> Key(child.key, Device(x)) in ApplyRule(t, s, child, occ).active
    ensures x !in s.memo && Blocked(t, Outages(s.active), s.covers, x) ==>
                ApplyRule(t, s, child, occ).active == s.active
  {
    EnabledRuleIsTheOne(t.rules, i);
    if x in s.memo && s.memo[x] == Uncovered {
      assert RollupParent(t, s, child, Device(x)) == (Uncovered, s);
      var (resolved, s2) := ParentOperatorResolved(t, s, child, Device(x));
      HandResolveQuestion(t, s, child, Device(x));
      assert !resolved;
      OwnKeySurvives(t, s2, child, occ);
    } else if x !in s.memo {
      FreshAnswer(t, s, x);
    }
  }

  /** An alert never absorbs itself: no rule is its own parent, and a device is not beneath itself. */
  lemma OwnKeySurvives(t: Tick, s: Store, rule: Rule, occ: Occurrence)
    requires RolledUpBy(rule.key) == Some(DeviceDown)
    ensures Key(rule.key, occ.entity) in OpenAndAbsorb(t, s, rule, occ).active
  {
  }

  /** Nothing blocks d, or so the tick remembers. */
  ghost predicate SeemsUnblocked(t: Tick, s: Store, d: nat) {
    if d in s.memo then s.memo[d].Uncovered? else !Blocked(t, Outages(s.active), s.covers, d)
  }

  /** When an alert that rolls up under its device's outage opens: exactly when the device's own outage
      is neither open nor resolved by hand and still true, and nothing on its upstream chain was when
      the tick first asked. */
  lemma ImpliedAlertOpensExactlyWhen(t: Tick, s: Store, rule: Rule, occ: Occurrence, parent: Rule, d: nat)
    requires t.rollup && Admits(rule, occ, t.muted) && Key(rule.key, occ.entity) !in s.active
    requires RolledUpBy(rule.key) == Some(DeviceDown) && EnabledRule(t.rules, DeviceDown) == Some(parent)
    requires !SameMetricPair(rule, parent) && ProbeOf(occ.entity) == Device(d)
    ensures
      Key(rule.key, occ.entity) in ApplyRule(t, s, rule, occ).active <==>
      DownKey(d) !in s.active && !CoveredByHand(t, s.covers, d) && SeemsUnblocked(t, s, d)
  {
    var (v, s1) := RollupParent(t, s, rule, occ.entity);
    QuestionsLeaveAlertsAlone(t, s, rule, occ.entity);
    if d !in s.memo {
      FreshAnswer(t, s, d);
    }
    if v.Uncovered? {
      var (resolved, s2) := ParentOperatorResolved(t, s1, rule, occ.entity);
      QuestionsLeaveAlertsAlone(t, s1, rule, occ.entity);
      assert resolved <==> CoveredByHand(t, s1.covers, d);
      OwnKeySurvives(t, s2, rule, occ);
    }
  }

  /** _upstream_outage assumes its answer cannot change within a tick. It can: when a device
      reports down, its upstream reports down, and then a rollup child of the device is
      applied, all in one tick, the remembered answer lets the child open although the
      upstream's outage is open; asked afresh, the child is suppressed. */
  lemma MemoGoesStale(t: Tick, i: nat, child: Rule, x: nat, a: nat,
                      downX: Occurrence, downA: Occurrence, childX: Occurrence)
    requires t.rollup && Sound(t.nodes) && t.handResolves == map[]
    requires ReportsOutage(t, i, downX) && ReportsOutage(t, i, downA) && t.rules[i].kind == DeviceEvent
    requires downX.entity == Device(x) && downA.entity == Device(a) && a in t.nodes.UpstreamChain(x)
    requires RolledUpBy(child.key) == Some(DeviceDown)
    requires Admits(child, childX, t.muted) && childX.entity == Device(x)
    ensures
      var s := ApplyAll(t, Store(map[], map[], map[]), [downX, downA]);
      && Outages(s.active) == {a}
      && Key(child.key, Device(x)) in ApplyRule(t, s, child, childX).active
      && ApplyRule(t, s.(memo := map[]), child, childX).active == s.active
  {
    OutageThenUpstream(t, i, x, a, downX, downA);
    var s := ApplyAll(t, Store(map[], map[], map[]), [downX, downA]);
    assert !Beneath(t.nodes, x, x) && Beneath(t.nodes, x, a);
    OutageKeys(s.active, x);
    RememberedAnswerDecides(t, s, i, child, childX, x);
    RememberedAnswerDecides(t, s.(memo := map[]), i, child, childX, x);
  }

  lemma {:induction false} MemoSurvives(t: Tick, s: Store, n: nat, occ: Occurrence, d: nat)
    requires n <= |t.rules| && d in s.memo
    ensures
      var after := ApplyRules(t, s, t.rules[..n], occ);
      d in after.memo && after.memo[d] == s.memo[d]
  {
    if n > 0 {
      assert t.rules[..n][..n - 1] == t.rules[..n - 1];
      MemoSurvives(t, s, n - 1, occ, d);
      RuleAsksOnly(t, ApplyRules(t, s, t.rules[..n - 1], occ), t.rules[n - 1], occ);
    }
  }
}
