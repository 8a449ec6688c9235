/**
 What the topology rollup makes of one rule, one occurrence and one batch: which
 outages a rule opens and which go, what it asks and remembers; and after an upstream
 recovers nothing beneath it that is still down is left without an alert that speaks
 for it.
 */
module RollupOrder {
  import opened Wrappers
  import opened RollupRules
  import opened Rollup
  import opened RollupExclusion

  // ------------------------------------------------------ topology contracts

  ghost predicate Beneath(n: Nodes, x: nat, a: nat) {
    x in n.DownstreamIds(a)
  }

  /** What the two topology reads promise of an acyclic topology: whatever is on a device's
      upstream chain has the device beneath it, and beneath is a strict order. */
  ghost predicate Sound(n: Nodes) {
    && (forall x, a :: a in n.UpstreamChain(x) ==> Beneath(n, x, a))
    && (forall x, b, a :: Beneath(n, x, b) && Beneath(n, b, a) ==> Beneath(n, x, a))
    && (forall a :: !Beneath(n, a, a))
  }

  /** The two reads agree on every pair of devices. */
  ghost predicate Agreeing(n: Nodes) {
    Sound(n) && forall x, a :: Beneath(n, x, a) ==> a in n.UpstreamChain(x)
  }

  /** The members of E with no other member upstream of them. */
  ghost function Tops(n: Nodes, E: set<nat>): set<nat> {
    set x | x in E && forall y :: y in E ==> !Beneath(n, x, y)
  }

  ghost predicate Antichain(n: Nodes, E: set<nat>) {
    forall x, y :: x in E && y in E ==> !Beneath(n, x, y)
  }

  ghost function AboveIn(n: Nodes, E: set<nat>, y: nat): set<nat> {
    set w | w in E && Beneath(n, y, w)
  }

  /** Above every member stands a topmost one. */
  lemma {:induction false} SomeTopAbove(n: Nodes, E: set<nat>, y: nat) returns (z: nat)
    requires Sound(n) && y in E
    ensures z in Tops(n, E) && (z == y || Beneath(n, y, z))
    decreases AboveIn(n, E, y)
  {
    if w :| w in E && Beneath(n, y, w) {
      assert w in AboveIn(n, E, y) && w !in AboveIn(n, E, w);
      assert AboveIn(n, E, w) <= AboveIn(n, E, y);
      z := SomeTopAbove(n, E, w);
    } else {
      z := y;
    }
  }

  // -------------------------------------------------- open outages and covers

  /** The devices with an open outage alert. */
  ghost function Outages(active: map<Key, Row>): set<nat> {
    set k | k in active && k.rule == DeviceDown && k.entity.Device? :: k.entity.id
  }

  lemma OutageKeys(active: map<Key, Row>, d: nat)
    ensures d in Outages(active) <==> DownKey(d) in active
  {
  }

  /** Device a's outage was resolved by hand and it is still down. */
  predicate CoveredByHand(t: Tick, covers: map<Key, real>, a: nat) {
    (DownKey(a) in t.handResolves || DownKey(a) in covers) && a in t.stillDown
  }

  ghost predicate SameCovers(t: Tick, c1: map<Key, real>, c2: map<Key, real>) {
    forall a :: CoveredByHand(t, c1, a) <==> CoveredByHand(t, c2, a)
  }

  /** Some device up the chain of d is out, or was resolved by hand while down. */
  ghost predicate Blocked(t: Tick, open: set<nat>, covers: map<Key, real>, d: nat) {
    exists a :: a in t.nodes.UpstreamChain(d) && (a in open || CoveredByHand(t, covers, a))
  }

  ghost predicate BlockedByHand(t: Tick, covers: map<Key, real>, d: nat) {
    Blocked(t, {}, covers, d)
  }

  /** What the upstream walk answers, and that it changes no cover that counts. */
  lemma {:induction false} WalkMeaning(t: Tick, active: map<Key, Row>, covers: map<Key, real>,
                                       chain: seq<nat>, covered: bool)
    ensures
      var (v, after) := WalkChain(t, active, covers, chain, covered);
      && (v.Uncovered? <==>
            !covered && forall a :: a in chain ==> DownKey(a) !in active && !CoveredByHand(t, covers, a))
      && (v.OpenAlert? ==> exists a :: a in chain && v.key == DownKey(a) && DownKey(a) in active)
      && SameCovers(t, covers, after)
    decreases |chain|
  {
    if chain != [] {
      var k := DownKey(chain[0]);
      assert chain == [chain[0]] + chain[1..];
      if k in active {
      } else if covered || (k !in t.handResolves && k !in covers) {
        WalkMeaning(t, active, covers, chain[1..], covered);
      } else if chain[0] in t.stillDown {
        WalkMeaning(t, active, if k in covers then covers else covers[k := CoverStart(t, k)], chain[1..], true);
      } else {
        WalkMeaning(t, active, covers - {k}, chain[1..], false);
      }
    }
  }

  /** The unmemoised answer is Uncovered exactly when nothing blocks the device. */
  lemma FreshAnswer(t: Tick, s: Store, d: nat)
    requires d !in s.memo
    ensures
      var (v, after) := UpstreamOutage(t, s, d);
      && (v.Uncovered? <==> !Blocked(t, Outages(s.active), s.covers, d))
      && SameCovers(t, s.covers, after.covers)
      && after == s.(covers := after.covers, memo := s.memo[d := v])
  {
    var chain := t.nodes.UpstreamChain(d);
    WalkMeaning(t, s.active, s.covers, chain, false);
    forall a {
      OutageKeys(s.active, a);
    }
  }

  // ------------------------------------------------- one rule, one occurrence

  /** Whether this rule newly opens an outage alert about the occurrence's device. */
  ghost predicate OpensOutage(t: Tick, s: Store, rule: Rule, occ: Occurrence) {
    && Admits(rule, occ, t.muted) && rule.key == DeviceDown && occ.entity.Device?
    && DownKey(occ.entity.id) !in s.active && RollupParent(t, s, rule, occ.entity).0.Uncovered?
  }

  ghost function Below(n: Nodes, d: nat): set<nat> {
    set x | x in n.DownstreamIds(d)
  }

  ghost predicate SameOutages(a: map<Key, Row>, b: map<Key, Row>) {
    forall x :: DownKey(x) in a <==> DownKey(x) in b
  }

  lemma SameOutagesSameSet(a: map<Key, Row>, b: map<Key, Row>)
    requires SameOutages(a, b)
    ensures Outages(a) == Outages(b)
  {
    forall x
      ensures x in Outages(a) <==> x in Outages(b)
    {
      OutageKeys(a, x);
      OutageKeys(b, x);
    }
  }

  /** Opening anything but a device's outage leaves the open outages alone: nothing rolls an
      outage up under another rule. */
  lemma OpeningAnotherAlert(t: Tick, s: Store, rule: Rule, occ: Occurrence)
    requires rule.key != DeviceDown || !occ.entity.Device? || DownKey(occ.entity.id) in s.active
    ensures Outages(OpenAndAbsorb(t, s, rule, occ).active) == Outages(s.active)
  {
  }

  /** Opening a device's outage removes exactly the outages beneath it. */
  lemma OpeningAnOutage(t: Tick, s: Store, rule: Rule, occ: Occurrence)
    requires t.rollup
    requires rule.key == DeviceDown && occ.entity.Device? && DownKey(occ.entity.id) !in s.active
    ensures Outages(OpenAndAbsorb(t, s, rule, occ).active) ==
            (Outages(s.active) + {occ.entity.id}) - Below(t.nodes, occ.entity.id)
  {
  }

  /** A rule touches the set of open outages only by opening one, and then removes exactly
      those beneath it. */
  lemma RuleChangesOutages(t: Tick, s: Store, rule: Rule, occ: Occurrence)
    requires t.rollup
    ensures Outages(ApplyRule(t, s, rule, occ).active) ==
      if OpensOutage(t, s, rule, occ)
      then (Outages(s.active) + {occ.entity.id}) - Below(t.nodes, occ.entity.id)
      else Outages(s.active)
  {
    if Admits(rule, occ, t.muted) {
      var (v, s1) := RollupParent(t, s, rule, occ.entity);
      var (resolved, s2) := ParentOperatorResolved(t, s1, rule, occ.entity);
      QuestionsLeaveAlertsAlone(t, s, rule, occ.entity);
      QuestionsLeaveAlertsAlone(t, s1, rule, occ.entity);
      if !v.Uncovered? {
        SameOutagesSameSet(ApplyRule(t, s, rule, occ).active, s.active);
      } else if OpensOutage(t, s, rule, occ) {
        OpeningAnOutage(t, s2, rule, occ);
      } else if !resolved {
        OpeningAnotherAlert(t, s2, rule, occ);
      }
    }
  }

  /** Two cover tables that agree on what counts block the same devices. */
  lemma SameCoversSameBlocked(t: Tick, open: set<nat>, c1: map<Key, real>, c2: map<Key, real>, d: nat)
    requires SameCovers(t, c1, c2)
    ensures Blocked(t, open, c1, d) <==> Blocked(t, open, c2, d)
  {
  }

  /** The only device a rule asks about is the occurrence's own, and it is answered from the
      outages open at that moment; within a tick no cover that counts comes or goes. */
  ghost predicate AsksOnly(t: Tick, s: Store, e: Entity, after: Store) {
    && SameCovers(t, s.covers, after.covers)
    && (forall d :: d in s.memo ==> d in after.memo && after.memo[d] == s.memo[d])
    && (forall d :: d in after.memo && d !in s.memo ==>
          ProbeOf(e) == Device(d) && (after.memo[d].Uncovered? <==> !Blocked(t, Outages(s.active), s.covers, d)))
  }

  lemma UpstreamQuestionAsksOnly(t: Tick, s: Store, e: Entity)
    requires ProbeOf(e).Device?
    ensures AsksOnly(t, s, e, UpstreamOutage(t, s, ProbeOf(e).id).1)
  {
    if ProbeOf(e).id !in s.memo {
      FreshAnswer(t, s, ProbeOf(e).id);
    }
  }

  /** Asking for the rollup parent asks about at most the entity's own device. */
  lemma ParentQuestion(t: Tick, s: Store, rule: Rule, e: Entity)
    ensures
      var after := RollupParent(t, s, rule, e).1;
      after == s || (ProbeOf(e).Device? && after == UpstreamOutage(t, s, ProbeOf(e).id).1)
  {
  }

  /** Looking up a hand resolve asks nothing and changes no cover that counts. */
  lemma HandResolveQuestion(t: Tick, s: Store, rule: Rule, e: Entity)
    ensures
      var after := ParentOperatorResolved(t, s, rule, e).1;
      after.memo == s.memo && SameCovers(t, s.covers, after.covers)
  {
  }

  /** Opening and absorbing change neither what was answered nor the covers. */
  lemma RuleKeepsWhatItAsked(t: Tick, s: Store, rule: Rule, occ: Occurrence)
    requires Admits(rule, occ, t.muted) && t.rollup
    ensures
      var (v, s1) := RollupParent(t, s, rule, occ.entity);
      var asked := if v.Uncovered? then ParentOperatorResolved(t, s1, rule, occ.entity).1 else s1;
      ApplyRule(t, s, rule, occ).memo == asked.memo && ApplyRule(t, s, rule, occ).covers == asked.covers
  {
  }

  lemma RuleAsksOnly(t: Tick, s: Store, rule: Rule, occ: Occurrence)
    ensures AsksOnly(t, s, occ.entity, ApplyRule(t, s, rule, occ))
  {
    if Admits(rule, occ, t.muted) && t.rollup {
      var s1 := RollupParent(t, s, rule, occ.entity).1;
      ParentQuestion(t, s, rule, occ.entity);
      if ProbeOf(occ.entity).Device? {
        UpstreamQuestionAsksOnly(t, s, occ.entity);
      }
      HandResolveQuestion(t, s1, rule, occ.entity);
      RuleKeepsWhatItAsked(t, s, rule, occ);
    }
  }

  // ------------------------------------------------------- outages in any order

  /** Where the outage rule stands among the enabled rules, and that it accepts `occ`. */
  ghost predicate ReportsOutage(t: Tick, i: nat, occ: Occurrence) {
    && i < |t.rules| && t.rules[i].key == DeviceDown && DistinctKeys(t.rules)
    && Admits(t.rules[i], occ, t.muted) && occ.entity.Device?
  }

  /** The set of open outages after one device reports down. */
  ghost function OutageStep(t: Tick, open: set<nat>, covers: map<Key, real>, d: nat): set<nat> {
    if d in open || Blocked(t, open, covers, d) then open
    else (open + {d}) - Below(t.nodes, d)
  }

  /** What the first n rules make of one `down` occurrence: nothing changes among the outages
      until the outage rule is reached, and what has been answered about the device is true. */
  ghost predicate OutageProgress(t: Tick, s: Store, i: nat, n: nat, d: nat, after: Store) {
    && SameCovers(t, s.covers, after.covers)
    && after.memo.Keys <= s.memo.Keys + {d}
    && Outages(after.active) == (if n <= i then Outages(s.active) else OutageStep(t, Outages(s.active), s.covers, d))
    && (n <= i && d in after.memo ==> (after.memo[d].Uncovered? <==> !Blocked(t, Outages(s.active), s.covers, d)))
  }

  /** At the outage rule itself: it opens exactly when nothing blocks the device. */
  lemma OutageRuleOpens(t: Tick, s: Store, i: nat, occ: Occurrence, before: Store)
    requires t.rollup && ReportsOutage(t, i, occ)
    requires OutageProgress(t, s, i, i, occ.entity.id, before)
    ensures OpensOutage(t, before, t.rules[i], occ) <==>
            occ.entity.id !in Outages(s.active) && !Blocked(t, Outages(s.active), s.covers, occ.entity.id)
  {
    var d := occ.entity.id;
    OutageKeys(before.active, d);
    SameCoversSameBlocked(t, Outages(s.active), s.covers, before.covers, d);
    if d !in before.memo {
      FreshAnswer(t, before, d);
    }
  }

  lemma OtherRuleProgress(t: Tick, s: Store, i: nat, n: nat, occ: Occurrence, before: Store)
    requires t.rollup && ReportsOutage(t, i, occ) && n < |t.rules| && n != i && occ.entity.id !in s.memo
    requires OutageProgress(t, s, i, n, occ.entity.id, before)
    ensures OutageProgress(t, s, i, n + 1, occ.entity.id, ApplyRule(t, before, t.rules[n], occ))
  {
    RuleChangesOutages(t, before, t.rules[n], occ);
    RuleAsksOnly(t, before, t.rules[n], occ);
    SameCoversSameBlocked(t, Outages(s.active), s.covers, before.covers, occ.entity.id);
  }

  lemma OutageRuleProgress(t: Tick, s: Store, i: nat, occ: Occurrence, before: Store)
    requires t.rollup && ReportsOutage(t, i, occ) && occ.entity.id !in s.memo
    requires OutageProgress(t, s, i, i, occ.entity.id, before)
    ensures OutageProgress(t, s, i, i + 1, occ.entity.id, ApplyRule(t, before, t.rules[i], occ))
  {
    RuleChangesOutages(t, before, t.rules[i], occ);
    RuleAsksOnly(t, before, t.rules[i], occ);
    OutageRuleOpens(t, s, i, occ, before);
  }

  /** One `down` occurrence, over the rules, for a device not yet asked about this tick. */
  lemma {:induction false} ApplyOneOutage(t: Tick, s: Store, i: nat, n: nat, occ: Occurrence)
    requires t.rollup && ReportsOutage(t, i, occ) && n <= |t.rules|
    requires occ.entity.id !in s.memo
    ensures OutageProgress(t, s, i, n, occ.entity.id, ApplyRules(t, s, t.rules[..n], occ))
  {
    if n > 0 {
      assert t.rules[..n][..n - 1] == t.rules[..n - 1];
      ApplyOneOutage(t, s, i, n - 1, occ);
      var before := ApplyRules(t, s, t.rules[..n - 1], occ);
      if n - 1 == i {
        OutageRuleProgress(t, s, i, occ, before);
      } else {
        OtherRuleProgress(t, s, i, n - 1, occ, before);
      }
    }
  }

  ghost predicate Topped(n: Nodes, E: set<nat>) {
    forall y :: y in E ==> y in Tops(n, E) || exists z :: z in Tops(n, E) && Beneath(n, y, z)
  }

  /** One more report keeps "exactly the topmost outages are open". */
  lemma OutageStepKeepsTops(t: Tick, E: set<nat>, covers: map<Key, real>, d: nat)
    requires Agreeing(t.nodes) && Topped(t.nodes, E)
    ensures OutageStep(t, Tops(t.nodes, E), covers, d) ==
            Tops(t.nodes, if BlockedByHand(t, covers, d) then E else E + {d})
  {
  }

  lemma AllTopped(n: Nodes, E: set<nat>)
    requires Sound(n)
    ensures Topped(n, E)
  {
    forall y | y in E
      ensures y in Tops(n, E) || exists z :: z in Tops(n, E) && Beneath(n, y, z)
    {
      var z := SomeTopAbove(n, E, y);
    }
  }

  lemma TopsOneMore(t: Tick, E: set<nat>, covers: map<Key, real>, d: nat)
    requires Agreeing(t.nodes)
    ensures OutageStep(t, Tops(t.nodes, E), covers, d) ==
            Tops(t.nodes, E + if BlockedByHand(t, covers, d) then {} else {d})
  {
    AllTopped(t.nodes, E);
    OutageStepKeepsTops(t, E, covers, d);
    assert E + {} == E;
  }

  /** The agreement of the two topology reads is needed: where one device is beneath another
      that its own chain does not reach, the two orders of their outages end differently. */
  lemma DisagreementMakesOrderMatter(t: Tick, i: nat, x: nat, a: nat, downX: Occurrence, downA: Occurrence)
    requires t.rollup && Sound(t.nodes) && t.handResolves == map[]
    requires ReportsOutage(t, i, downX) && ReportsOutage(t, i, downA)
    requires downX.entity == Device(x) && downA.entity == Device(a)
    requires Beneath(t.nodes, x, a) && a !in t.nodes.UpstreamChain(x)
    ensures
      var empty := Store(map[], map[], map[]);
      && Outages(ApplyAll(t, empty, [downA, downX]).active) == {a, x}
      && Outages(ApplyAll(t, empty, [downX, downA]).active) == {a}
  {
    var s := Store(map[], map[], map[]);
    assert Outages(s.active) == {};
    TwoOutages(t, s, i, downA, downX);
    TwoOutages(t, s, i, downX, downA);
    assert a !in t.nodes.UpstreamChain(a) && x !in t.nodes.UpstreamChain(x);
    assert !Beneath(t.nodes, a, x);
    NothingByHand(t, {}, a);
    NothingByHand(t, {}, x);
    NothingByHand(t, {a}, x);
    assert x !in t.nodes.UpstreamChain(a);
    NothingByHand(t, {x}, a);
    OpensBeside(t, {}, s.covers, a);
    OpensBeside(t, {}, s.covers, x);
    OpensBeside(t, {a}, s.covers, x);
    assert OutageStep(t, {x}, s.covers, a) == {a};
    assert {} + {a} == {a} && {} + {x} == {x} && {a} + {x} == {a, x};
  }

  lemma NothingByHand(t: Tick, open: set<nat>, d: nat)
    requires t.handResolves == map[] && forall a :: a in open ==> a !in t.nodes.UpstreamChain(d)
    ensures !Blocked(t, open, map[], d)
  {
  }

  lemma OpensBeside(t: Tick, open: set<nat>, covers: map<Key, real>, d: nat)
    requires Sound(t.nodes) && d !in open && !Blocked(t, open, covers, d) && forall y :: y in open ==>
                 !Beneath(t.nodes, y, d)
    ensures OutageStep(t, open, covers, d) == open + {d}
  {
    forall y | y in open + {d} ensures y !in Below(t.nodes, d) {
      assert !Beneath(t.nodes, d, d);
      assert y in open ==> !Beneath(t.nodes, y, d);
    }
  }

  lemma TwoOutages(t: Tick, s: Store, i: nat, first: Occurrence, second: Occurrence)
    requires t.rollup && Sound(t.nodes) && s.memo == map[]
    requires ReportsOutage(t, i, first) && ReportsOutage(t, i, second) && first.entity != second.entity
    ensures
      var after := OutageStep(t, Outages(s.active), s.covers, first.entity.id);
      Outages(ApplyAll(t, s, [first, second]).active) == OutageStep(t, after, s.covers, second.entity.id)
  {
    assert t.rules[..|t.rules|] == t.rules;
    assert [first, second][..1] == [first] && [first][..0] == [];
    assert ApplyAll(t, s, [first][..0]) == s;
    assert [first][0] == first;
    ApplyOneOutage(t, s, i, |t.rules|, first);
    var s1 := ApplyAll(t, s, [first]);
    assert s1 == Apply(t, s, first);
    ApplyOneOutage(t, s1, i, |t.rules|, second);
    SameCoversSameBlocked(t, Outages(s1.active), s.covers, s1.covers, second.entity.id);
  }

  // --------------------------------------------------------- nothing left silent

  /** An open alert speaks for x: its own outage, or that of a device it is beneath -- or an
      upstream outage an operator resolved by hand while it is still true. */
  ghost predicate SpokenFor(t: Tick, s: Store, x: nat) {
    DownKey(x) in s.active ||
    exists a :: Beneath(t.nodes, x, a) && (DownKey(a) in s.active || CoveredByHand(t, s.covers, a))
  }

  /** Every remembered "covered" answer is still true of the current alerts. */
  ghost predicate MemoTrue(t: Tick, s: Store) {
    forall d :: d in s.memo && !s.memo[d].Uncovered? ==> SpokenFor(t, s, d)
  }

  /** What is spoken for stays spoken for through one rule: an outage is only ever removed in
      favour of one upstream of it. */
  lemma RuleKeepsSpokenFor(t: Tick, s: Store, rule: Rule, occ: Occurrence, x: nat)
    requires t.rollup && Sound(t.nodes) && SpokenFor(t, s, x)
    ensures SpokenFor(t, ApplyRule(t, s, rule, occ), x)
  {
    var after := ApplyRule(t, s, rule, occ);
    RuleChangesOutages(t, s, rule, occ);
    RuleAsksOnly(t, s, rule, occ);
    if OpensOutage(t, s, rule, occ) {
      OutageKeys(after.active, occ.entity.id);
      assert !Beneath(t.nodes, occ.entity.id, occ.entity.id);
    }
    forall y {:trigger DownKey(y)}
      ensures DownKey(y) in s.active && DownKey(y) !in after.active ==>
              OpensOutage(t, s, rule, occ) && Beneath(t.nodes, y, occ.entity.id)
    {
      OutageKeys(s.active, y);
      OutageKeys(after.active, y);
    }
  }

  /** A memoised answer of "covered" never goes stale within a tick. */
  lemma RuleKeepsMemoTrue(t: Tick, s: Store, rule: Rule, occ: Occurrence)
    requires t.rollup && Sound(t.nodes) && MemoTrue(t, s)
    ensures MemoTrue(t, ApplyRule(t, s, rule, occ))
  {
    var after := ApplyRule(t, s, rule, occ);
    RuleAsksOnly(t, s, rule, occ);
    forall d | d in after.memo && !after.memo[d].Uncovered?
      ensures SpokenFor(t, after, d)
    {
      if d !in s.memo {
        var a :| a in t.nodes.UpstreamChain(d) && (a in Outages(s.active) || CoveredByHand(t, s.covers, a));
        OutageKeys(s.active, a);
        assert SpokenFor(t, s, d);
      }
      RuleKeepsSpokenFor(t, s, rule, occ, d);
    }
  }

  /** Applying the outage rule to a device's own `down` leaves the device spoken for. */
  lemma OutageRuleSpeaks(t: Tick, s: Store, i: nat, occ: Occurrence)
    requires t.rollup && Sound(t.nodes) && MemoTrue(t, s) && ReportsOutage(t, i, occ)
    ensures SpokenFor(t, ApplyRule(t, s, t.rules[i], occ), occ.entity.id)
  {
    var d := occ.entity.id;
    var after := ApplyRule(t, s, t.rules[i], occ);
    RuleChangesOutages(t, s, t.rules[i], occ);
    OutageKeys(s.active, d);
    OutageKeys(after.active, d);
    if !OpensOutage(t, s, t.rules[i], occ) && DownKey(d) !in s.active {
      if d !in s.memo {
        FreshAnswer(t, s, d);
        var a :| a in t.nodes.UpstreamChain(d) && (a in Outages(s.active) || CoveredByHand(t, s.covers, a));
        OutageKeys(s.active, a);
      }
      assert SpokenFor(t, s, d);
      RuleKeepsSpokenFor(t, s, t.rules[i], occ, d);
    }
  }

  lemma {:induction false} ApplySpeaks(t: Tick, s: Store, n: nat, occ: Occurrence, x: nat)
    requires t.rollup && Sound(t.nodes) && MemoTrue(t, s) && n <= |t.rules|
    ensures MemoTrue(t, ApplyRules(t, s, t.rules[..n], occ))
    ensures SpokenFor(t, s, x) || (occ.entity == Device(x) && exists i: nat :: i < n && ReportsOutage(t, i, occ))
            ==> SpokenFor(t, ApplyRules(t, s, t.rules[..n], occ), x)
  {
    if n > 0 {
      assert t.rules[..n][..n - 1] == t.rules[..n - 1];
      ApplySpeaks(t, s, n - 1, occ, x);
      var before := ApplyRules(t, s, t.rules[..n - 1], occ);
      var rule := t.rules[n - 1];
      RuleKeepsMemoTrue(t, before, rule, occ);
      if SpokenFor(t, before, x) {
        RuleKeepsSpokenFor(t, before, rule, occ, x);
      } else if occ.entity == Device(x) && ReportsOutage(t, n - 1, occ) {
        OutageRuleSpeaks(t, before, n - 1, occ);
      }
    }
  }

  ghost predicate ReportedIn(t: Tick, i: nat, batch: seq<Occurrence>, x: nat) {
    exists j :: 0 <= j < |batch| && batch[j].entity == Device(x) && ReportsOutage(t, i, batch[j])
  }

  /** Over a whole batch: whatever device reported down anywhere in it ends up spoken for. */
  lemma {:induction false} BatchSpeaks(t: Tick, s: Store, i: nat, batch: seq<Occurrence>, x: nat)
    requires t.rollup && Sound(t.nodes) && MemoTrue(t, s)
    ensures MemoTrue(t, ApplyAll(t, s, batch))
    ensures SpokenFor(t, s, x) || ReportedIn(t, i, batch, x) ==> SpokenFor(t, ApplyAll(t, s, batch), x)
  {
    if batch != [] {
      var last := batch[|batch| - 1];
      BatchSpeaks(t, s, i, batch[..|batch| - 1], x);
      assert t.rules[..|t.rules|] == t.rules;
      ApplySpeaks(t, ApplyAll(t, s, batch[..|batch| - 1]), |t.rules|, last, x);
    }
  }

  // ----------------------------------------------------------------- recovery

  /** The device rows recovery reads. */
  datatype DeviceRow = DeviceRow(enabled: bool, isDown: bool, name: string, ip: string)

  predicate Replayed(devices: map<nat, DeviceRow>, c: nat) {
    c in devices && devices[c].enabled && devices[c].isDown
  }

  function ReplayOf(t: Tick, devices: map<nat, DeviceRow>, child: nat): Occurrence
    requires child in devices
  {
    Occurrence(DeviceEvent, "down", Device(child), t.now, None, devices[child].name, devices[child].ip, false, false,
               None)
  }

  /** The devices _replay_downstream_outages reports again, in order. */
  function Replays(t: Tick, devices: map<nat, DeviceRow>, ids: seq<nat>): seq<Occurrence> {
    if ids == [] then []
    else
      var c := ids[|ids| - 1];
      Replays(t, devices, ids[..|ids| - 1]) +
      if Replayed(devices, c) then [ReplayOf(t, devices, c)] else []
  }

  /** _replay_downstream_outages: one `down` occurrence for each device beneath d that is enabled and
      still down, in the order of the walk, and no other. */
  method ReplayDownstreamOutages(t: Tick, devices: map<nat, DeviceRow>, d: nat) returns (out: seq<Occurrence>)
    ensures out == Replays(t, devices, t.nodes.DownstreamIds(d))
    ensures forall x :: x in out <==>
              exists c :: c in t.nodes.DownstreamIds(d) && c in devices && devices[c].enabled && devices[c].isDown
                          && x == Occurrence(DeviceEvent, "down", Device(c), t.now, None, devices[c].name,
                                             devices[c].ip, false, false, None)
  {
    var ids := t.nodes.DownstreamIds(d);
    out := [];
    for i := 0 to |ids|
      invariant out == Replays(t, devices, ids[..i])
    {
      assert ids[..i + 1][..i] == ids[..i];
      var child := ids[i];
      if child in devices && devices[child].enabled && devices[child].isDown {
        out := out + [ReplayOf(t, devices, child)];
      }
    }
    assert ids[..|ids|] == ids;
    forall x {
      ReplayedExactly(t, devices, ids, x);
    }
  }

  lemma {:induction false} ReplayedExactly(t: Tick, devices: map<nat, DeviceRow>, ids: seq<nat>, x: Occurrence)
    ensures x in Replays(t, devices, ids) <==>
            exists c :: c in ids && Replayed(devices, c) && x == ReplayOf(t, devices, c)
  {
    if ids != [] {
      var init, last := ids[..|ids| - 1], ids[|ids| - 1];
      assert ids == init + [last];
      ReplayedExactly(t, devices, init, x);
    }
  }

  lemma {:induction false} EveryDownDeviceReplayed(t: Tick, devices: map<nat, DeviceRow>, ids: seq<nat>, x: nat)
    requires x in ids && x in devices && devices[x].enabled && devices[x].isDown
    ensures ReplayOf(t, devices, x) in Replays(t, devices, ids)
  {
    var n := |ids| - 1;
    if ids[n] != x {
      assert ids == ids[..n] + [ids[n]];
      EveryDownDeviceReplayed(t, devices, ids[..n], x);
    }
  }

  /** Draining an upstream's `up` event: its outage is resolved, and what is still down
      beneath it is reported again. */
  function Recover(t: Tick, devices: map<nat, DeviceRow>, s: Store, u: nat): (Store, seq<Occurrence>) {
    (if RuleKnown(t, DeviceDown) then s.(active := s.active - {DownKey(u)}) else s,
     Replays(t, devices, t.nodes.DownstreamIds(u)))
  }

  /** After an upstream's recovery is drained and the tick's batch applied -- whatever else the
      batch holds, before or after the replays, and with the per-tick memo as the code keeps
      it -- every enabled device beneath it that is still down is spoken for. */
  lemma RecoveryLeavesNothingSilent(t: Tick, devices: map<nat, DeviceRow>, s: Store, i: nat, u: nat,
                                    before: seq<Occurrence>, after: seq<Occurrence>, x: nat)
    requires t.rollup && Sound(t.nodes) && s.memo == map[]
    requires Beneath(t.nodes, x, u) && x in devices && devices[x].enabled && devices[x].isDown
    requires ReportsOutage(t, i, ReplayOf(t, devices, x))
    ensures
      var (recovered, replays) := Recover(t, devices, s, u);
      SpokenFor(t, ApplyAll(t, recovered, before + replays + after), x)
  {
    var (recovered, replays) := Recover(t, devices, s, u);
    var batch := before + replays + after;
    EveryDownDeviceReplayed(t, devices, t.nodes.DownstreamIds(u), x);
    var j :| 0 <= j < |replays| && replays[j] == ReplayOf(t, devices, x);
    assert batch[|before| + j] == ReplayOf(t, devices, x);
    BatchSpeaks(t, recovered, i, batch, x);
  }
}
