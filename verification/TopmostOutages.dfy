/**
 The order theorem over whole batches. Whatever else a batch holds -- thresholds, traps,
 port and sensor events, repeats -- its `down` reports leave open exactly the topmost
 outages, unless a device was asked about while nothing above it was out, an outage
 above it was reported next, and only then its own. Exactly which batches come out right
 in every order.
 */
module TopmostOutages {
  import opened Wrappers
  import opened RollupRules
  import opened Rollup
  import opened RollupExclusion
  import opened RollupOrder
  import opened RollupMemo

  /** Rule i is the outage rule. */
  ghost predicate OutageRule(t: Tick, i: nat) {
    i < |t.rules| && t.rules[i].key == DeviceDown && DistinctKeys(t.rules)
  }

  ghost predicate ReportsDown(t: Tick, i: nat, occ: Occurrence, d: nat) {
    ReportsOutage(t, i, occ) && occ.entity == Device(d)
  }

  // ----------------------------------------------------- one report, whatever was asked

  /** What the tick remembers about d, if anything, is so. */
  ghost predicate AnswerTrue(t: Tick, s: Store, d: nat) {
    d in s.memo ==> (s.memo[d].Uncovered? <==> !Blocked(t, Outages(s.active), s.covers, d))
  }

  /** The tick remembers about d what is so in `s`, and the rest as before. */
  ghost predicate Remembered(t: Tick, s: Store, d: nat, after: Store) {
    && after.memo.Keys == s.memo.Keys + {d} && (forall x :: x in s.memo ==> after.memo[x] == s.memo[x])
    && (after.memo[d].Uncovered? <==> !Blocked(t, Outages(s.active), s.covers, d))
  }

  /** What the tick remembers about a device reported again decides whether its outage opens again. */
  ghost predicate RepeatProgress(t: Tick, s: Store, i: nat, n: nat, d: nat, after: Store) {
    && d in s.memo && SameCovers(t, s.covers, after.covers) && after.memo == s.memo
    && Outages(after.active) ==
       if i < n && s.memo[d].Uncovered? && d !in Outages(s.active) then (Outages(s.active) + {d}) - Below(t.nodes, d)
       else Outages(s.active)
  }

  lemma RepeatStep(t: Tick, s: Store, i: nat, n: nat, occ: Occurrence, before: Store)
    requires t.rollup && Sound(t.nodes) && ReportsOutage(t, i, occ) && n < |t.rules|
    requires RepeatProgress(t, s, i, n, occ.entity.id, before)
    ensures RepeatProgress(t, s, i, n + 1, occ.entity.id, ApplyRule(t, before, t.rules[n], occ))
  {
    var d, rule := occ.entity.id, t.rules[n];
    RuleChangesOutages(t, before, rule, occ);
    RuleAsksOnly(t, before, rule, occ);
    OutageKeys(before.active, d);
    RepeatKeepsMemo(t, before, rule, occ);
    if n == i {
      OutageRuleRemembers(t, before, rule, d);
    }
  }

  lemma OutageRuleRemembers(t: Tick, s: Store, rule: Rule, d: nat)
    requires rule.key == DeviceDown && d in s.memo
    ensures RollupParent(t, s, rule, Device(d)).0 == s.memo[d]
  {
  }

  lemma RepeatKeepsMemo(t: Tick, s: Store, rule: Rule, occ: Occurrence)
    requires occ.entity.Device? && occ.entity.id in s.memo
    ensures ApplyRule(t, s, rule, occ).memo == s.memo
  {
    RuleAsksOnly(t, s, rule, occ);
  }

  lemma {:induction false} ApplyRepeat(t: Tick, s: Store, i: nat, n: nat, occ: Occurrence)
    requires t.rollup && Sound(t.nodes) && ReportsOutage(t, i, occ) && n <= |t.rules| && occ.entity.id in s.memo
    ensures RepeatProgress(t, s, i, n, occ.entity.id, ApplyRules(t, s, t.rules[..n], occ))
  {
    if n > 0 {
      assert t.rules[..n][..n - 1] == t.rules[..n - 1];
      ApplyRepeat(t, s, i, n - 1, occ);
      RepeatStep(t, s, i, n - 1, occ, ApplyRules(t, s, t.rules[..n - 1], occ));
    }
  }

  /** A `down` report, of a device about which nothing false is remembered. */
  lemma ApplyReport(t: Tick, s: Store, i: nat, occ: Occurrence)
    requires t.rollup && Sound(t.nodes) && ReportsOutage(t, i, occ) && AnswerTrue(t, s, occ.entity.id)
    ensures
      var d, after := occ.entity.id, Apply(t, s, occ);
      && Outages(after.active) == OutageStep(t, Outages(s.active), s.covers, d)
      && SameCovers(t, s.covers, after.covers) && Remembered(t, s, d, after)
  {
    assert t.rules[..|t.rules|] == t.rules;
    if occ.entity.id in s.memo {
      ApplyRepeat(t, s, i, |t.rules|, occ);
    } else {
      ApplyOneOutage(t, s, i, |t.rules|, occ);
      OutageIsRemembered(t, s, i, |t.rules|, occ);
      forall x | x in s.memo ensures x in Apply(t, s, occ).memo && Apply(t, s, occ).memo[x] == s.memo[x] {
        MemoSurvives(t, s, |t.rules|, occ, x);
      }
    }
  }

  // -------------------------------------------------------------- any other occurrence

  /** The rule asks whether d's outage, or one above it, already covers the occurrence. */
  ghost predicate RuleAsks(t: Tick, rule: Rule, occ: Occurrence, d: nat) {
    && Admits(rule, occ, t.muted) && TakesPartInRollup(occ.entity) && RolledUpBy(rule.key) == Some(DeviceDown)
    && EnabledRule(t.rules, DeviceDown).Some?
    && ParentEntity(rule, EnabledRule(t.rules, DeviceDown).value, occ.entity) == Device(d)
  }

  ghost predicate AsksAbout(t: Tick, occ: Occurrence, d: nat) {
    exists n :: 0 <= n < |t.rules| && RuleAsks(t, t.rules[n], occ, d)
  }

  /** The first n rules leave the open outages alone, and remember of a device only what is so. */
  ghost predicate OtherProgress(t: Tick, s: Store, occ: Occurrence, after: Store) {
    && Outages(after.active) == Outages(s.active) && SameCovers(t, s.covers, after.covers)
    && (forall d :: d in s.memo ==> d in after.memo && after.memo[d] == s.memo[d])
    && (forall d :: d in after.memo && d !in s.memo ==>
          && (after.memo[d].Uncovered? <==> !Blocked(t, Outages(s.active), s.covers, d))
          && d !in Outages(s.active) && AsksAbout(t, occ, d))
  }

  /** Who is asked about: the outage rule asks about its own device, the rules beneath it about a device
      whose outage is not open. */
  lemma RuleAsksWhom(t: Tick, s: Store, rule: Rule, occ: Occurrence, d: nat)
    requires t.rollup && d in ApplyRule(t, s, rule, occ).memo && d !in s.memo
    ensures Admits(rule, occ, t.muted)
    ensures (rule.key == DeviceDown && occ.entity.Device?) || (RuleAsks(t, rule, occ, d) && DownKey(d) !in s.active)
  {
    RuleKeepsWhatItAsked(t, s, rule, occ);
    HandResolveQuestion(t, RollupParent(t, s, rule, occ.entity).1, rule, occ.entity);
  }

  /** Only the outage rule is the outage rule. */
  lemma OtherIsNoReport(t: Tick, i: nat, n: nat, occ: Occurrence)
    requires OutageRule(t, i) && !ReportsOutage(t, i, occ) && n < |t.rules|
    ensures !(Admits(t.rules[n], occ, t.muted) && t.rules[n].key == DeviceDown && occ.entity.Device?)
  {
    assert n != i ==> t.rules[n].key != DeviceDown;
  }

  lemma NewAnswer(t: Tick, s: Store, i: nat, n: nat, occ: Occurrence, before: Store, d: nat)
    requires t.rollup && OutageRule(t, i) && !ReportsOutage(t, i, occ) && n < |t.rules|
    requires Outages(before.active) == Outages(s.active) && SameCovers(t, s.covers, before.covers)
    requires d in ApplyRule(t, before, t.rules[n], occ).memo && d !in before.memo
    ensures d !in Outages(s.active) && AsksAbout(t, occ, d)
    ensures ApplyRule(t, before, t.rules[n], occ).memo[d].Uncovered? <==> !Blocked(t, Outages(s.active), s.covers, d)
  {
    OtherIsNoReport(t, i, n, occ);
    RuleAsksWhom(t, before, t.rules[n], occ, d);
    RuleAsksOnly(t, before, t.rules[n], occ);
    OutageKeys(before.active, d);
    SameCoversSameBlocked(t, Outages(s.active), s.covers, before.covers, d);
  }

  lemma OtherStep(t: Tick, s: Store, i: nat, n: nat, occ: Occurrence, before: Store)
    requires t.rollup && OutageRule(t, i) && !ReportsOutage(t, i, occ) && n < |t.rules|
    requires OtherProgress(t, s, occ, before)
    ensures OtherProgress(t, s, occ, ApplyRule(t, before, t.rules[n], occ))
  {
    var after := ApplyRule(t, before, t.rules[n], occ);
    OtherIsNoReport(t, i, n, occ);
    RuleChangesOutages(t, before, t.rules[n], occ);
    RuleAsksOnly(t, before, t.rules[n], occ);
    forall d | d in after.memo && d !in before.memo
      ensures d !in Outages(s.active) && AsksAbout(t, occ, d)
      ensures after.memo[d].Uncovered? <==> !Blocked(t, Outages(s.active), s.covers, d)
    {
      NewAnswer(t, s, i, n, occ, before, d);
    }
  }

  lemma {:induction false} ApplyOther(t: Tick, s: Store, i: nat, n: nat, occ: Occurrence)
    requires t.rollup && OutageRule(t, i) && !ReportsOutage(t, i, occ) && n <= |t.rules|
    ensures OtherProgress(t, s, occ, ApplyRules(t, s, t.rules[..n], occ))
  {
    if n > 0 {
      assert t.rules[..n][..n - 1] == t.rules[..n - 1];
      ApplyOther(t, s, i, n - 1, occ);
      OtherStep(t, s, i, n - 1, occ, ApplyRules(t, s, t.rules[..n - 1], occ));
    }
  }

  // ------------------------------------------------------------ what a batch reports

  /** The devices a batch reports down. */
  ghost function Reported(t: Tick, i: nat, batch: seq<Occurrence>): set<nat> {
    set x | x in batch && ReportsOutage(t, i, x) :: x.entity.id
  }

  /** The devices open at the start and those reported with no hand-resolved outage above them. */
  ghost function Expected(t: Tick, s: Store, i: nat, batch: seq<Occurrence>): set<nat> {
    Outages(s.active) + set d | d in Reported(t, i, batch) && !BlockedByHand(t, s.covers, d)
  }

  lemma ExpectedOneMore(t: Tick, s: Store, i: nat, init: seq<Occurrence>, last: Occurrence)
    ensures
      Expected(t, s, i, init + [last]) ==
      Expected(t, s, i, init) +
      if ReportsOutage(t, i, last) && !BlockedByHand(t, s.covers, last.entity.id) then {last.entity.id} else {}
  {
    assert forall x :: x in init + [last] <==> x in init || x == last;
  }

  /** The occurrence can make the tick remember an answer about d: it reports d, or asks about it while d
      is not out when the batch begins. */
  ghost predicate Remembers(t: Tick, s: Store, i: nat, occ: Occurrence, d: nat) {
    ReportsDown(t, i, occ, d) || (!ReportsOutage(t, i, occ) && d !in Outages(s.active) && AsksAbout(t, occ, d))
  }

  /** Nothing above d is excused, open at the start, or reported in `done`. */
  ghost predicate NothingAbove(t: Tick, s: Store, i: nat, done: seq<Occurrence>, d: nat) {
    !BlockedByHand(t, s.covers, d) && forall y :: y in Expected(t, s, i, done) ==> !Beneath(t.nodes, d, y)
  }

  /** At position j the batch asks about d while nothing above it is out. */
  ghost predicate AskedInTheClear(t: Tick, s: Store, i: nat, batch: seq<Occurrence>, j: nat, d: nat) {
    j < |batch| && Remembers(t, s, i, batch[j], d) && NothingAbove(t, s, i, batch[..j], d)
  }

  /** Whoever asked in the clear about a device finds it still in the clear when its own report comes. */
  ghost predicate Undisturbed(t: Tick, s: Store, i: nat, batch: seq<Occurrence>) {
    forall j: nat, k: nat, d: nat ::
      j < k < |batch| && AskedInTheClear(t, s, i, batch, j, d) && ReportsDown(t, i, batch[k], d) ==>
      NothingAbove(t, s, i, batch[..k], d)
  }

  lemma UndisturbedPrefix(t: Tick, s: Store, i: nat, init: seq<Occurrence>, last: Occurrence)
    requires Undisturbed(t, s, i, init + [last])
    ensures Undisturbed(t, s, i, init)
  {
    var batch := init + [last];
    forall j: nat, k: nat, d: nat |
      j < k < |init| && AskedInTheClear(t, s, i, init, j, d) && ReportsDown(t, i, init[k], d)
      ensures NothingAbove(t, s, i, init[..k], d)
    {
      SamePrefix(init, last, j);
      SamePrefix(init, last, k);
      assert AskedInTheClear(t, s, i, batch, j, d);
    }
  }

  lemma SamePrefix(init: seq<Occurrence>, last: Occurrence, j: nat)
    requires j <= |init|
    ensures (init + [last])[..j] == init[..j]
  {
  }

  // ----------------------------------------------------------------- the order theorem

  /** After a leading part of a batch: the topmost outages are open, a remembered "covered" is true, and a
      remembered "uncovered" was given in the clear. */
  ghost predicate Standing(t: Tick, s: Store, i: nat, done: seq<Occurrence>, after: Store) {
    && Outages(after.active) == Tops(t.nodes, Expected(t, s, i, done)) && SameCovers(t, s.covers, after.covers)
    && (forall d :: d in after.memo && !after.memo[d].Uncovered? ==>
          Blocked(t, Outages(after.active), after.covers, d))
    && (forall d :: d in after.memo && after.memo[d].Uncovered? ==> GivenInTheClear(t, s, i, done, d))
  }

  ghost predicate GivenInTheClear(t: Tick, s: Store, i: nat, done: seq<Occurrence>, d: nat) {
    exists j: nat :: AskedInTheClear(t, s, i, done, j, d)
  }

  lemma StillInTheClear(t: Tick, s: Store, i: nat, init: seq<Occurrence>, last: Occurrence, d: nat)
    requires GivenInTheClear(t, s, i, init, d)
    ensures GivenInTheClear(t, s, i, init + [last], d)
  {
    var j: nat :| AskedInTheClear(t, s, i, init, j, d);
    SamePrefix(init, last, j);
    assert AskedInTheClear(t, s, i, init + [last], j, d);
  }

  lemma NowInTheClear(t: Tick, s: Store, i: nat, init: seq<Occurrence>, last: Occurrence, d: nat)
    requires Remembers(t, s, i, last, d) && NothingAbove(t, s, i, init, d)
    ensures GivenInTheClear(t, s, i, init + [last], d)
  {
    SamePrefix(init, last, |init|);
    assert AskedInTheClear(t, s, i, init + [last], |init|, d);
  }

  lemma BlockedFromAbove(t: Tick, E: set<nat>, covers: map<Key, real>, d: nat, y: nat)
    requires Agreeing(t.nodes) && y in E && Beneath(t.nodes, d, y)
    ensures Blocked(t, Tops(t.nodes, E), covers, d)
  {
    var z := SomeTopAbove(t.nodes, E, y);
    assert Beneath(t.nodes, d, z);
  }

  /** With the topmost outages open, a device is unblocked exactly when nothing stands above it. */
  lemma UnblockedMeans(t: Tick, s: Store, i: nat, done: seq<Occurrence>, before: Store, d: nat)
    requires Agreeing(t.nodes) && SameCovers(t, s.covers, before.covers)
    requires Outages(before.active) == Tops(t.nodes, Expected(t, s, i, done))
    ensures !Blocked(t, Outages(before.active), before.covers, d) <==> NothingAbove(t, s, i, done, d)
  {
    var E := Expected(t, s, i, done);
    SameCoversSameBlocked(t, {}, s.covers, before.covers, d);
    if NothingAbove(t, s, i, done, d) {
      forall a | a in t.nodes.UpstreamChain(d) ensures a !in Tops(t.nodes, E) {
        assert Beneath(t.nodes, d, a);
      }
    } else if !BlockedByHand(t, s.covers, d) {
      var y :| y in E && Beneath(t.nodes, d, y);
      BlockedFromAbove(t, E, before.covers, d, y);
    }
  }

  /** What is blocked stays blocked through the rules of one occurrence. */
  lemma {:induction false} ApplyKeepsBlocked(t: Tick, s: Store, n: nat, occ: Occurrence, d: nat)
    requires t.rollup && Agreeing(t.nodes) && n <= |t.rules| && Blocked(t, Outages(s.active), s.covers, d)
    ensures
      var after := ApplyRules(t, s, t.rules[..n], occ);
      Blocked(t, Outages(after.active), after.covers, d)
  {
    if n > 0 {
      assert t.rules[..n][..n - 1] == t.rules[..n - 1];
      ApplyKeepsBlocked(t, s, n - 1, occ, d);
      RuleKeepsBlocked(t, ApplyRules(t, s, t.rules[..n - 1], occ), t.rules[n - 1], occ, d);
    }
  }

  /** A report finds a true answer about its device. */
  lemma ReportFindsTruth(t: Tick, s: Store, i: nat, init: seq<Occurrence>, last: Occurrence, before: Store)
    requires Agreeing(t.nodes) && ReportsOutage(t, i, last) && Undisturbed(t, s, i, init + [last])
    requires Standing(t, s, i, init, before)
    ensures AnswerTrue(t, before, last.entity.id)
  {
    var d, batch := last.entity.id, init + [last];
    if d in before.memo && before.memo[d].Uncovered? {
      var j: nat :| AskedInTheClear(t, s, i, init, j, d);
      SamePrefix(init, last, j);
      SamePrefix(init, last, |init|);
      assert AskedInTheClear(t, s, i, batch, j, d) && ReportsDown(t, i, batch[|init|], d);
      UnblockedMeans(t, s, i, init, before, d);
    }
  }

  lemma ReportKeepsStanding(t: Tick, s: Store, i: nat, init: seq<Occurrence>, last: Occurrence, before: Store)
    requires t.rollup && Agreeing(t.nodes) && ReportsOutage(t, i, last) && Undisturbed(t, s, i, init + [last])
    requires Standing(t, s, i, init, before)
    ensures Standing(t, s, i, init + [last], Apply(t, before, last))
  {
    var d, after := last.entity.id, Apply(t, before, last);
    ReportFindsTruth(t, s, i, init, last, before);
    ApplyReport(t, before, i, last);
    ReportOpensTops(t, s, i, init, last, before);
    UnblockedMeans(t, s, i, init, before, d);
    assert t.rules[..|t.rules|] == t.rules;
    forall x | x in after.memo
      ensures !after.memo[x].Uncovered? ==> Blocked(t, Outages(after.active), after.covers, x)
      ensures after.memo[x].Uncovered? ==> GivenInTheClear(t, s, i, init + [last], x)
    {
      if !after.memo[x].Uncovered? {
        ApplyKeepsBlocked(t, before, |t.rules|, last, x);
      } else if x == d {
        NowInTheClear(t, s, i, init, last, x);
      } else {
        StillInTheClear(t, s, i, init, last, x);
      }
    }
  }

  lemma ReportOpensTops(t: Tick, s: Store, i: nat, init: seq<Occurrence>, last: Occurrence, before: Store)
    requires t.rollup && Agreeing(t.nodes) && ReportsOutage(t, i, last) && SameCovers(t, s.covers, before.covers)
    requires Outages(before.active) == Tops(t.nodes, Expected(t, s, i, init))
    ensures OutageStep(t, Outages(before.active), before.covers, last.entity.id) ==
            Tops(t.nodes, Expected(t, s, i, init + [last]))
  {
    TopsOneMore(t, Expected(t, s, i, init), before.covers, last.entity.id);
    ExpectedOneMore(t, s, i, init, last);
    SameCoversSameBlocked(t, {}, s.covers, before.covers, last.entity.id);
  }

  lemma OtherKeepsStanding(t: Tick, s: Store, i: nat, init: seq<Occurrence>, last: Occurrence, before: Store)
    requires t.rollup && Agreeing(t.nodes) && OutageRule(t, i) && !ReportsOutage(t, i, last)
    requires Standing(t, s, i, init, before)
    ensures Standing(t, s, i, init + [last], Apply(t, before, last))
  {
    var after := Apply(t, before, last);
    assert t.rules[..|t.rules|] == t.rules;
    ApplyOther(t, before, i, |t.rules|, last);
    ExpectedOneMore(t, s, i, init, last);
    forall x | x in after.memo
      ensures !after.memo[x].Uncovered? ==> Blocked(t, Outages(after.active), after.covers, x)
      ensures after.memo[x].Uncovered? ==> GivenInTheClear(t, s, i, init + [last], x)
    {
      if !after.memo[x].Uncovered? {
        ApplyKeepsBlocked(t, before, |t.rules|, last, x);
      } else if x in before.memo {
        StillInTheClear(t, s, i, init, last, x);
      } else {
        OtherAsksInTheClear(t, s, i, init, last, before, x);
      }
    }
  }

  lemma OtherAsksInTheClear(t: Tick, s: Store, i: nat, init: seq<Occurrence>, last: Occurrence, before: Store, d: nat)
    requires Agreeing(t.nodes) && !ReportsOutage(t, i, last) && Standing(t, s, i, init, before)
    requires !Blocked(t, Outages(before.active), before.covers, d) && d !in Outages(before.active)
    requires AsksAbout(t, last, d)
    ensures GivenInTheClear(t, s, i, init + [last], d)
  {
    UnblockedMeans(t, s, i, init, before, d);
    assert d !in Tops(t.nodes, Expected(t, s, i, init));
    assert d !in Expected(t, s, i, init);
    NowInTheClear(t, s, i, init, last, d);
  }

  lemma {:induction false} StandingThroughout(t: Tick, s: Store, i: nat, batch: seq<Occurrence>)
    requires t.rollup && Agreeing(t.nodes) && OutageRule(t, i) && s.memo == map[]
    requires Antichain(t.nodes, Outages(s.active)) && Undisturbed(t, s, i, batch)
    ensures Standing(t, s, i, batch, ApplyAll(t, s, batch))
  {
    if batch == [] {
      assert Expected(t, s, i, []) == Outages(s.active);
    } else {
      var init, last := batch[..|batch| - 1], batch[|batch| - 1];
      assert batch == init + [last];
      UndisturbedPrefix(t, s, i, init, last);
      StandingThroughout(t, s, i, init);
      if ReportsOutage(t, i, last) {
        ReportKeepsStanding(t, s, i, init, last, ApplyAll(t, s, init));
      } else {
        OtherKeepsStanding(t, s, i, init, last, ApplyAll(t, s, init));
      }
    }
  }

  /** Applying any batch, whatever occurrences stand between its `down` reports, leaves open exactly the
      topmost devices among those already open and those reported with no hand-resolved outage above
      them -- as long as whoever was asked about in the clear is still in the clear when reported. The
      order of the batch does not appear in the answer. */
  lemma ExactlyTheTopmostOutagesStayOpen(t: Tick, s: Store, i: nat, batch: seq<Occurrence>)
    requires t.rollup && Agreeing(t.nodes) && OutageRule(t, i) && s.memo == map[]
    requires Antichain(t.nodes, Outages(s.active)) && Undisturbed(t, s, i, batch)
    ensures
      var after := ApplyAll(t, s, batch);
      && Outages(after.active) == Tops(t.nodes, Expected(t, s, i, batch)) && SameCovers(t, s.covers, after.covers)
  {
    StandingThroughout(t, s, i, batch);
  }

  /** Two such batches that report the same devices, among whatever else, leave the same outages open. */
  lemma OutageOrderDoesNotMatter(t: Tick, s: Store, i: nat, one: seq<Occurrence>, other: seq<Occurrence>)
    requires t.rollup && Agreeing(t.nodes) && OutageRule(t, i) && s.memo == map[]
    requires Antichain(t.nodes, Outages(s.active)) && Reported(t, i, one) == Reported(t, i, other)
    requires Undisturbed(t, s, i, one) && Undisturbed(t, s, i, other)
    ensures Outages(ApplyAll(t, s, one).active) == Outages(ApplyAll(t, s, other).active)
  {
    ExactlyTheTopmostOutagesStayOpen(t, s, i, one);
    ExactlyTheTopmostOutagesStayOpen(t, s, i, other);
    assert Expected(t, s, i, one) == Expected(t, s, i, other);
  }

  // ------------------------------------------------- which batches survive every order

  /** x and y are two occurrences of the batch. */
  ghost predicate TwoOf(m: multiset<Occurrence>, x: Occurrence, y: Occurrence) {
    x in m && y in m - multiset{x}
  }

  /** An outage above d is excused or open from the start, or nothing above it is reported. */
  ghost predicate Sheltered(t: Tick, s: Store, i: nat, m: multiset<Occurrence>, d: nat) {
    || BlockedByHand(t, s.covers, d) || (exists y :: y in Outages(s.active) && Beneath(t.nodes, d, y))
    || forall w :: w in m && ReportsOutage(t, i, w) ==> !Beneath(t.nodes, d, w.entity.id)
  }

  /** Every device that one occurrence of the batch can make the tick remember and another reports down is
      sheltered. */
  ghost predicate HarmlessQuestions(t: Tick, s: Store, i: nat, m: multiset<Occurrence>) {
    forall x, y, d: nat ::
      TwoOf(m, x, y) && Remembers(t, s, i, x, d) && ReportsDown(t, i, y, d) ==> Sheltered(t, s, i, m, d)
  }

  lemma TwoPositions(batch: seq<Occurrence>, j: nat, k: nat)
    requires j < k < |batch|
    ensures TwoOf(multiset(batch), batch[j], batch[k])
  {
    assert batch == batch[..k] + [batch[k]] + batch[k + 1..];
    assert batch[..k][j] == batch[j];
    assert batch[j] in multiset(batch[..k]);
  }

  lemma HarmlessIsUndisturbed(t: Tick, s: Store, i: nat, batch: seq<Occurrence>)
    requires HarmlessQuestions(t, s, i, multiset(batch))
    ensures Undisturbed(t, s, i, batch)
  {
    forall j: nat, k: nat, d: nat |
      j < k < |batch| && AskedInTheClear(t, s, i, batch, j, d) && ReportsDown(t, i, batch[k], d)
      ensures NothingAbove(t, s, i, batch[..k], d)
    {
      TwoPositions(batch, j, k);
      assert Sheltered(t, s, i, multiset(batch), d);
      ShelteredStaysClear(t, s, i, batch, j, k, d);
    }
  }

  lemma ShelteredStaysClear(t: Tick, s: Store, i: nat, batch: seq<Occurrence>, j: nat, k: nat, d: nat)
    requires j < k < |batch| && Sheltered(t, s, i, multiset(batch), d) && NothingAbove(t, s, i, batch[..j], d)
    ensures NothingAbove(t, s, i, batch[..k], d)
  {
    forall y | y in Outages(s.active) ensures !Beneath(t.nodes, d, y) {
      assert y in Expected(t, s, i, batch[..j]);
    }
    forall y | y in Reported(t, i, batch[..k]) ensures !Beneath(t.nodes, d, y) {
      var w :| w in batch[..k] && ReportsOutage(t, i, w) && w.entity.id == y;
      assert w in multiset(batch);
    }
  }

  lemma {:induction false} AskerRemembers(t: Tick, s: Store, i: nat, n: nat, m: nat, occ: Occurrence, d: nat)
    requires t.rollup && OutageRule(t, i) && !ReportsOutage(t, i, occ) && n < m <= |t.rules|
    requires RuleAsks(t, t.rules[n], occ, d) && d !in Outages(s.active)
    ensures d in ApplyRules(t, s, t.rules[..m], occ).memo
  {
    assert t.rules[..m][..m - 1] == t.rules[..m - 1];
    var before := ApplyRules(t, s, t.rules[..m - 1], occ);
    if n < m - 1 {
      AskerRemembers(t, s, i, n, m - 1, occ, d);
      RuleAsksOnly(t, before, t.rules[m - 1], occ);
    } else {
      ApplyOther(t, s, i, n, occ);
      OutageKeys(before.active, d);
      RuleRemembers(t, before, t.rules[n], occ, d);
    }
  }

  lemma RuleRemembers(t: Tick, s: Store, rule: Rule, occ: Occurrence, d: nat)
    requires t.rollup && RuleAsks(t, rule, occ, d) && DownKey(d) !in s.active
    ensures d in ApplyRule(t, s, rule, occ).memo
  {
    RuleKeepsWhatItAsked(t, s, rule, occ);
    var (v, s1) := RollupParent(t, s, rule, occ.entity);
    assert EnabledRule(t.rules, DeviceDown).value.key == DeviceDown;
    assert (v, s1) == UpstreamOutage(t, s, d);
    HandResolveQuestion(t, s1, rule, occ.entity);
  }

  /** Applied first, with nothing over d, an occurrence that asks about d leaves it remembered as
      uncovered. */
  lemma FirstAsked(t: Tick, s: Store, i: nat, occ: Occurrence, d: nat)
    requires t.rollup && Sound(t.nodes) && OutageRule(t, i) && s.memo == map[] && Remembers(t, s, i, occ, d)
    requires !Blocked(t, Outages(s.active), s.covers, d)
    ensures d in Apply(t, s, occ).memo && Apply(t, s, occ).memo[d].Uncovered?
  {
    assert t.rules[..|t.rules|] == t.rules;
    if ReportsOutage(t, i, occ) {
      ApplyReport(t, s, i, occ);
    } else {
      var n :| 0 <= n < |t.rules| && RuleAsks(t, t.rules[n], occ, d);
      AskerRemembers(t, s, i, n, |t.rules|, occ, d);
      ApplyOther(t, s, i, |t.rules|, occ);
    }
  }

  lemma MemoSurvivesBatch(t: Tick, s: Store, batch: seq<Occurrence>, d: nat)
    requires d in s.memo
    ensures d in ApplyAll(t, s, batch).memo && ApplyAll(t, s, batch).memo[d] == s.memo[d]
  {
    BatchStepsApply(t, s, batch);
    MemoSurvivesSteps(t, s, BatchSteps(t, batch), d);
  }

  lemma {:induction false} ApplyAllSplits(t: Tick, s: Store, a: seq<Occurrence>, b: seq<Occurrence>)
    ensures ApplyAll(t, s, a + b) == ApplyAll(t, ApplyAll(t, s, a), b)
  {
    if b == [] {
      assert a + b == a;
    } else {
      assert (a + b)[..|a + b| - 1] == a + b[..|b| - 1];
      ApplyAllSplits(t, s, a, b[..|b| - 1]);
    }
  }

  lemma ApplyAllOne(t: Tick, s: Store, occ: Occurrence)
    ensures ApplyAll(t, s, [occ]) == Apply(t, s, occ)
  {
    assert [occ][..0] == [];
    assert ApplyAll(t, s, []) == s;
  }

  /** A device asked about first, while nothing is over it, and reported last, ends with its outage open
      -- whatever was reported in between. */
  lemma AskedFirstReportedLastIsOpen(t: Tick, s: Store, i: nat, first: Occurrence, middle: seq<Occurrence>,
                                     last: Occurrence, d: nat)
    requires t.rollup && Sound(t.nodes) && OutageRule(t, i) && s.memo == map[]
    requires Remembers(t, s, i, first, d) && ReportsDown(t, i, last, d)
    requires !Blocked(t, Outages(s.active), s.covers, d)
    ensures d in Outages(ApplyAll(t, s, [first] + middle + [last]).active)
  {
    FirstAsked(t, s, i, first, d);
    ApplyAllOne(t, s, first);
    ApplyAllSplits(t, s, [first], middle);
    ApplyAllSplits(t, s, [first] + middle, [last]);
    var s1 := Apply(t, s, first);
    MemoSurvivesBatch(t, s1, middle, d);
    var s2 := ApplyAll(t, s1, middle);
    ApplyAllOne(t, s2, last);
    assert t.rules[..|t.rules|] == t.rules;
    ApplyRepeat(t, s2, i, |t.rules|, last);
    assert !Beneath(t.nodes, d, d);
  }

  /** A batch rearranged so that one occurrence comes first and another last. */
  lemma FirstAndLast(batch: seq<Occurrence>, x: Occurrence, y: Occurrence) returns (middle: seq<Occurrence>)
    requires TwoOf(multiset(batch), x, y)
    ensures multiset([x] + middle + [y]) == multiset(batch)
  {
    var without := Without(batch, x);
    middle := Without(without, y);
  }

  lemma Without(batch: seq<Occurrence>, x: Occurrence) returns (rest: seq<Occurrence>)
    requires x in multiset(batch)
    ensures multiset(rest) == multiset(batch) - multiset{x} && multiset(rest) + multiset{x} == multiset(batch)
  {
    var j :| 0 <= j < |batch| && batch[j] == x;
    rest := batch[..j] + batch[j + 1..];
    assert batch == batch[..j] + [x] + batch[j + 1..];
  }

  lemma SameExpected(t: Tick, s: Store, i: nat, one: seq<Occurrence>, other: seq<Occurrence>)
    requires multiset(one) == multiset(other)
    ensures Expected(t, s, i, one) == Expected(t, s, i, other)
  {
    forall x ensures x in one <==> x in other {
      assert x in multiset(one) <==> x in multiset(other);
    }
    assert Reported(t, i, one) == Reported(t, i, other);
  }

  /** What excuses a device excuses everything beneath it. */
  lemma ExcusedFromAbove(t: Tick, covers: map<Key, real>, d: nat, y: nat)
    requires Agreeing(t.nodes) && Beneath(t.nodes, d, y)
    ensures BlockedByHand(t, covers, y) ==> BlockedByHand(t, covers, d)
  {
    forall a | a in t.nodes.UpstreamChain(y) ensures a in t.nodes.UpstreamChain(d) {
      assert Beneath(t.nodes, y, a);
    }
  }

  /** A question that does harm: some arrangement of the batch leaves a device's outage open under another. */
  lemma HarmfulQuestionGoesWrong(t: Tick, s: Store, i: nat, batch: seq<Occurrence>) returns (other: seq<Occurrence>)
    requires t.rollup && Agreeing(t.nodes) && OutageRule(t, i) && s.memo == map[]
    requires !HarmlessQuestions(t, s, i, multiset(batch))
    ensures multiset(other) == multiset(batch)
    ensures Outages(ApplyAll(t, s, other).active) != Tops(t.nodes, Expected(t, s, i, batch))
  {
    var m := multiset(batch);
    var x, y, d: nat :|
      TwoOf(m, x, y) && Remembers(t, s, i, x, d) && ReportsDown(t, i, y, d) && !Sheltered(t, s, i, m, d);
    var middle := FirstAndLast(batch, x, y);
    other := [x] + middle + [y];
    UnshelteredIsUnblocked(t, s, i, m, d);
    AskedFirstReportedLastIsOpen(t, s, i, x, middle, y, d);
    UnshelteredIsNoTop(t, s, i, batch, d);
  }

  lemma UnshelteredIsNoTop(t: Tick, s: Store, i: nat, batch: seq<Occurrence>, d: nat)
    requires Agreeing(t.nodes) && !Sheltered(t, s, i, multiset(batch), d)
    ensures d !in Tops(t.nodes, Expected(t, s, i, batch))
  {
    var w :| w in multiset(batch) && ReportsOutage(t, i, w) && Beneath(t.nodes, d, w.entity.id);
    ExcusedFromAbove(t, s.covers, d, w.entity.id);
    assert w in batch;
    assert w.entity.id in Expected(t, s, i, batch);
  }

  lemma UnshelteredIsUnblocked(t: Tick, s: Store, i: nat, m: multiset<Occurrence>, d: nat)
    requires Sound(t.nodes) && !Sheltered(t, s, i, m, d)
    ensures !Blocked(t, Outages(s.active), s.covers, d)
  {
    forall a | a in t.nodes.UpstreamChain(d) ensures a !in Outages(s.active) {
      assert Beneath(t.nodes, d, a);
    }
  }

  ghost predicate EveryArrangementTops(t: Tick, s: Store, i: nat, batch: seq<Occurrence>) {
    forall other :: multiset(other) == multiset(batch) ==>
      Outages(ApplyAll(t, s, other).active) == Tops(t.nodes, Expected(t, s, i, batch))
  }

  /** Exactly when order does not matter: every arrangement of a batch -- of any occurrences -- leaves the
      topmost outages open if and only if its questions are harmless. */
  lemma OrderSurvivesExactlyHarmlessQuestions(t: Tick, s: Store, i: nat, batch: seq<Occurrence>)
    requires t.rollup && Agreeing(t.nodes) && OutageRule(t, i) && s.memo == map[]
    requires Antichain(t.nodes, Outages(s.active))
    ensures HarmlessQuestions(t, s, i, multiset(batch)) <==> EveryArrangementTops(t, s, i, batch)
  {
    if HarmlessQuestions(t, s, i, multiset(batch)) {
      forall other | multiset(other) == multiset(batch)
        ensures Outages(ApplyAll(t, s, other).active) == Tops(t.nodes, Expected(t, s, i, batch))
      {
        HarmlessIsUndisturbed(t, s, i, other);
        ExactlyTheTopmostOutagesStayOpen(t, s, i, other);
        SameExpected(t, s, i, other, batch);
      }
    } else {
      var other := HarmfulQuestionGoesWrong(t, s, i, batch);
    }
  }

  // ------------------------------------------------------------- the shortest bad batches

  /** A device, its upstream, and the device again. Replaying the outages under two recovered upstreams in
      one drain can report a device twice. */
  lemma RepeatReopensBesideItsUpstream(t: Tick, i: nat, x: nat, a: nat, downX: Occurrence, downA: Occurrence)
    requires t.rollup && Sound(t.nodes) && t.handResolves == map[]
    requires ReportsDown(t, i, downX, x) && ReportsDown(t, i, downA, a) && a in t.nodes.UpstreamChain(x)
    ensures Outages(ApplyAll(t, Store(map[], map[], map[]), [downX, downA, downX]).active) == {a, x}
  {
    var s := Store(map[], map[], map[]);
    ApplyReport(t, s, i, downX);
    assert Outages(s.active) == {} && !Blocked(t, {}, map[], x);
    ReopensBeside(t, i, Apply(t, s, downX), x, a, downX, downA);
    ThreeApplied(t, s, downX, downA, downX);
  }

  lemma ThreeApplied(t: Tick, s: Store, p: Occurrence, q: Occurrence, r: Occurrence)
    ensures ApplyAll(t, s, [p, q, r]) == Apply(t, Apply(t, Apply(t, s, p), q), r)
  {
    ApplyAllOne(t, s, p);
    assert [p, q, r][..2] == [p, q] && [p, q][..1] == [p];
  }

  /** x is remembered as uncovered, nothing was resolved by hand, and at most x is out: then its upstream's
      report and its own leave both open. */
  lemma ReopensBeside(t: Tick, i: nat, s: Store, x: nat, a: nat, downX: Occurrence, downA: Occurrence)
    requires t.rollup && Sound(t.nodes) && Outages(s.active) <= {x} && x in s.memo && s.memo[x].Uncovered?
    requires ReportsDown(t, i, downX, x) && ReportsDown(t, i, downA, a) && a in t.nodes.UpstreamChain(x)
    requires forall y :: !CoveredByHand(t, s.covers, y)
    requires s.memo.Keys == {x}
    ensures Outages(Apply(t, Apply(t, s, downA), downX).active) == {a, x}
  {
    assert Beneath(t.nodes, x, a) && !Beneath(t.nodes, x, x) && !Beneath(t.nodes, a, a) && !Beneath(t.nodes, a, x);
    assert x !in t.nodes.UpstreamChain(a);
    assert a !in t.nodes.UpstreamChain(a);
    ApplyReport(t, s, i, downA);
    var s1 := Apply(t, s, downA);
    assert OutageStep(t, Outages(s.active), s.covers, a) == {a};
    assert t.rules[..|t.rules|] == t.rules;
    ApplyRepeat(t, s1, i, |t.rules|, downX);
    assert ({a} + {x}) - Below(t.nodes, x) == {a, x};
  }

  /** Each device reported down once: an occurrence that asks about x -- a poll overrun of it, say, or a
      threshold on one of its ports -- then x's upstream, then x, leaves both outages open; with the
      upstream first, the upstream's alone. */
  lemma QuestionThenReportOpensBeside(t: Tick, i: nat, x: nat, a: nat, asks: Occurrence, downA: Occurrence,
                                      downX: Occurrence)
    requires t.rollup && Sound(t.nodes) && t.handResolves == map[]
    requires ReportsDown(t, i, downX, x) && ReportsDown(t, i, downA, a) && a in t.nodes.UpstreamChain(x)
    requires !ReportsOutage(t, i, asks) && AsksAbout(t, asks, x)
    ensures
      var empty := Store(map[], map[], map[]);
      && Outages(ApplyAll(t, empty, [asks, downA, downX]).active) == {a, x}
      && Outages(ApplyAll(t, empty, [downA, asks, downX]).active) == {a}
  {
    var s := Store(map[], map[], map[]);
    assert Outages(s.active) == {} && !Blocked(t, {}, map[], x);
    assert t.rules[..|t.rules|] == t.rules;
    ApplyOther(t, s, i, |t.rules|, asks);
    FirstAsked(t, s, i, asks, x);
    OneDeviceAskedAbout(t, asks, x);
    ReopensBeside(t, i, Apply(t, s, asks), x, a, downX, downA);
    ThreeApplied(t, s, asks, downA, downX);
    UpstreamFirst(t, i, x, a, asks, downA, downX);
    ThreeApplied(t, s, downA, asks, downX);
  }

  lemma OneDeviceAskedAbout(t: Tick, occ: Occurrence, x: nat)
    requires AsksAbout(t, occ, x)
    ensures forall y :: AsksAbout(t, occ, y) ==> y == x
  {
  }

  lemma UpstreamFirst(t: Tick, i: nat, x: nat, a: nat, asks: Occurrence, downA: Occurrence, downX: Occurrence)
    requires t.rollup && Sound(t.nodes) && t.handResolves == map[]
    requires ReportsDown(t, i, downX, x) && ReportsDown(t, i, downA, a) && a in t.nodes.UpstreamChain(x)
    requires !ReportsOutage(t, i, asks)
    ensures
      var empty := Store(map[], map[], map[]);
      Outages(Apply(t, Apply(t, Apply(t, empty, downA), asks), downX).active) == {a}
  {
    var s := Store(map[], map[], map[]);
    assert Outages(s.active) == {};
    assert !Beneath(t.nodes, a, a) && Beneath(t.nodes, x, a);
    ApplyReport(t, s, i, downA);
    assert !Blocked(t, {}, map[], a);
    var s1 := Apply(t, s, downA);
    assert Outages(s1.active) == {a};
    assert t.rules[..|t.rules|] == t.rules;
    ApplyOther(t, s1, i, |t.rules|, asks);
    var s2 := Apply(t, s1, asks);
    SameCoversSameBlocked(t, {a}, s1.covers, s2.covers, x);
    ApplyReport(t, s2, i, downX);
  }
}
