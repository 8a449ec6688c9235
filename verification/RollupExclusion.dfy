/**
 Rollup exclusion over whole runs: with rollup on and the rules fixed, an alert
 and the alert that makes it redundant are never both open, whatever is applied
 or closed and in whatever order. One family of pairs escapes, and exactly that
 family: a sensor's alert under its device's outage.
 */
module RollupExclusion {
  import opened Wrappers
  import opened RollupRules
  import opened Rollup

  /** No two enabled rules share a key. */
  ghost predicate DistinctKeys(rules: seq<Rule>) {
    forall i, j :: 0 <= i < j < |rules| && rules[i].key == rules[j].key ==> rules[i].key == OtherRule("")
  }

  /** The row of a known rule, enabled or not. */
  function RuleRow(t: Tick, key: RuleKey): Rule
    requires RuleKnown(t, key)
  {
    var enabled := EnabledRule(t.rules, key);
    if enabled.Some? then enabled.value else t.catalog[key]
  }

  /** `c` and `p` are a child and its parent about one matching entity: the same entity, or
      a port under its device where the parent is the device's outage. */
  predicate Pair(t: Tick, c: Key, p: Key) {
    && RolledUpBy(c.rule) == Some(p.rule)
    && EnabledRule(t.rules, p.rule).Some? && RuleKnown(t, c.rule)
    && TakesPartInRollup(c.entity)
    && if SameMetricPair(RuleRow(t, c.rule), EnabledRule(t.rules, p.rule).value) then c.entity == p.entity
       else if p.rule == DeviceDown then p.entity.Device? && Sweeps(p.entity, c.entity)
       else c.entity == p.entity && ProbeOf(c.entity) == c.entity
  }

  ghost predicate Exclusive(t: Tick, active: map<Key, Row>) {
    forall c, p :: c in active && p in active ==> !Pair(t, c, p)
  }

  lemma EnabledRuleIsTheOne(rules: seq<Rule>, i: nat)
    requires i < |rules| && DistinctKeys(rules) && rules[i].key != OtherRule("")
    ensures EnabledRule(rules, rules[i].key) == Some(rules[i])
  {
  }

  /** Opening an alert under no parent, then absorbing what it implies, keeps exclusion. */
  lemma OpenKeepsExclusion(t: Tick, s: Store, rule: Rule, occ: Occurrence)
    requires t.rollup && Exclusive(t, s.active)
    requires forall p :: p in s.active ==> !Pair(t, Key(rule.key, occ.entity), p)
    ensures Exclusive(t, OpenAndAbsorb(t, s, rule, occ).active)
  {
    var k := Key(rule.key, occ.entity);
    var after := OpenAndAbsorb(t, s, rule, occ).active;
    if k !in s.active {
      forall c | c in s.active && Pair(t, c, k)
        ensures c !in after
      {
        RollsUpInverts(rule.key, c.rule);
        assert Sweeps(k.entity, c.entity);
        assert c in Subordinates(t, OpenOrIncrement(s.active, k, occ.ts), rule.key, occ.entity);
      }
    }
  }

  /** An open parent always covers the child that asks about it. */
  lemma OpenParentCovers(t: Tick, s: Store, i: nat, e: Entity, p: Key)
    requires DistinctKeys(t.rules) && i < |t.rules|
    requires p in s.active && Pair(t, Key(t.rules[i].key, e), p)
    ensures RollupParent(t, s, t.rules[i], e).0 == OpenAlert(p)
  {
  }

  /** Asking about parents, and looking up hand resolves, opens and closes nothing. */
  lemma QuestionsLeaveAlertsAlone(t: Tick, s: Store, rule: Rule, e: Entity)
    ensures RollupParent(t, s, rule, e).1.active == s.active
    ensures ParentOperatorResolved(t, s, rule, e).1.active == s.active
  {
  }

  lemma ApplyRuleKeepsExclusion(t: Tick, s: Store, i: nat, occ: Occurrence)
    requires t.rollup && DistinctKeys(t.rules) && i < |t.rules| && Exclusive(t, s.active)
    ensures Exclusive(t, ApplyRule(t, s, t.rules[i], occ).active)
  {
    var rule := t.rules[i];
    var (verdict, s1) := RollupParent(t, s, rule, occ.entity);
    var (resolved, s2) := ParentOperatorResolved(t, s1, rule, occ.entity);
    QuestionsLeaveAlertsAlone(t, s, rule, occ.entity);
    QuestionsLeaveAlertsAlone(t, s1, rule, occ.entity);
    if Admits(rule, occ, t.muted) && verdict.Uncovered? && !resolved {
      forall p | p in s.active
        ensures !Pair(t, Key(rule.key, occ.entity), p)
      {
        if Pair(t, Key(rule.key, occ.entity), p) {
          OpenParentCovers(t, s, i, occ.entity, p);
        }
      }
      OpenKeepsExclusion(t, s2, rule, occ);
    }
  }

  lemma {:induction false} ApplyKeepsExclusion(t: Tick, s: Store, n: nat, occ: Occurrence)
    requires t.rollup && DistinctKeys(t.rules) && n <= |t.rules| && Exclusive(t, s.active)
    ensures Exclusive(t, ApplyRules(t, s, t.rules[..n], occ).active)
  {
    if n > 0 {
      assert t.rules[..n][..n - 1] == t.rules[..n - 1];
      ApplyKeepsExclusion(t, s, n - 1, occ);
      ApplyRuleKeepsExclusion(t, ApplyRules(t, s, t.rules[..n - 1], occ), n - 1, occ);
    }
  }

  // -------------------------------------------------------------- whole runs

  /** What can happen to the alert store: a tick begins, an occurrence is applied during a
      tick, or alerts are closed by any means (a clear, an expiry, a hand resolve). */
  datatype Event = NewTick | Applied(tick: Tick, occ: Occurrence) | Closed(keys: set<Key>)

  function Next(s: Store, e: Event): Store {
    match e
    case NewTick => s.(memo := map[])
    case Applied(t, occ) => Apply(t, s, occ)
    case Closed(keys) => s.(active := s.active - keys)
  }

  function Run(s: Store, events: seq<Event>): Store {
    if events == [] then s else Next(Run(s, events[..|events| - 1]), events[|events| - 1])
  }

  /** Every tick of the run sees the rules of `t`, with rollup on. Topology, hand resolves,
      device states and mutes may differ from tick to tick. */
  ghost predicate RulesFixed(t: Tick, events: seq<Event>) {
    forall i :: 0 <= i < |events| && events[i].Applied? ==>
      events[i].tick.rules == t.rules && events[i].tick.catalog == t.catalog && events[i].tick.rollup
  }

  /** No reachable state holds a child and its parent open together. */
  lemma {:induction false} ExclusionHoldsInEveryReachableState(t: Tick, s: Store, events: seq<Event>)
    requires DistinctKeys(t.rules) && RulesFixed(t, events) && Exclusive(t, s.active)
    ensures Exclusive(t, Run(s, events).active)
  {
    if events != [] {
      var n := |events| - 1;
      ExclusionHoldsInEveryReachableState(t, s, events[..n]);
      var before := Run(s, events[..n]);
      match events[n]
      case NewTick =>
      case Closed(keys) =>
      case Applied(u, occ) =>
        assert forall c, p :: Pair(u, c, p) <==> Pair(t, c, p);
        ApplyKeepsExclusion(u, before, |u.rules|, occ);
        assert u.rules[..|u.rules|] == u.rules;
    }
  }

  // ------------------------------------------------- the pairs that escape

  /** When a device's outage newly opens, an open child about the device, one of its ports or
      one of its sensors stays open if and only if it is about a sensor: sensors are suppressed
      under an open outage like ports, but not absorbed by a late one. */
  lemma OnlySensorsOutliveTheOutage(t: Tick, s: Store, rule: Rule, occ: Occurrence, c: Key)
    requires t.rollup && rule.key == DeviceDown && occ.entity.Device?
    requires DownKey(occ.entity.id) !in s.active && c in s.active
    requires RolledUpBy(c.rule) == Some(DeviceDown) && RuleKnown(t, c.rule)
    requires ProbeOf(c.entity) == occ.entity
    ensures c in OpenAndAbsorb(t, s, rule, occ).active <==> c.entity.Sensor?
  {
  }

  /** A rule with nothing open above it, no hand resolve and no cover opens its alert. */
  lemma UncoveredRuleOpens(t: Tick, s: Store, rule: Rule, occ: Occurrence)
    requires t.rollup && t.handResolves == map[] && t.nodes == Nodes(map[], map[]) && s.covers == map[]
    requires Admits(rule, occ, t.muted) && s.memo == map[]
    requires RolledUpBy(rule.key) == None || forall k :: k in s.active ==> RolledUpBy(rule.key) != Some(k.rule)
    ensures exists memo :: ApplyRule(t, s, rule, occ) == OpenAndAbsorb(t, s.(memo := memo), rule, occ)
  {
  }

  /** A failed power supply, and two ticks later its device stops answering: both end up open. */
  lemma SensorPairBothOpen(t: Tick, psuRule: Rule, downRule: Rule, psu: Occurrence, down: Occurrence)
    requires t.rollup && t.handResolves == map[] && t.nodes == Nodes(map[], map[]) && t.rules == [psuRule, downRule]
    requires psuRule.key == PsuFailed && downRule.key == DeviceDown
    requires psu.entity == Sensor(7, 1) && down.entity == Device(7)
    requires Admits(psuRule, psu, t.muted) && !Admits(downRule, psu, t.muted)
    requires Admits(downRule, down, t.muted) && !Admits(psuRule, down, t.muted)
    ensures
      var end := Run(Store(map[], map[], map[]), [Applied(t, psu), NewTick, Applied(t, down)]);
      Key(PsuFailed, Sensor(7, 1)) in end.active && DownKey(7) in end.active
  {
    var s0 := Store(map[], map[], map[]);
    RunThree(s0, Applied(t, psu), NewTick, Applied(t, down));
    SensorAlertOpens(t, psuRule, psu);
    OutageLeavesTheSensor(t, Apply(t, s0, psu).(memo := map[]), downRule, down);
  }

  lemma SensorAlertOpens(t: Tick, psuRule: Rule, psu: Occurrence)
    requires t.rollup && t.handResolves == map[] && t.nodes == Nodes(map[], map[])
    requires |t.rules| == 2 && t.rules[0] == psuRule && !Admits(t.rules[1], psu, t.muted)
    requires psuRule.key == PsuFailed && psu.entity == Sensor(7, 1) && Admits(psuRule, psu, t.muted)
    ensures
      var s := Apply(t, Store(map[], map[], map[]), psu);
      s.active.Keys == {Key(PsuFailed, Sensor(7, 1))} && s.covers == map[]
  {
    OneRuleApplies(t, Store(map[], map[], map[]), psu);
    UncoveredRuleOpens(t, Store(map[], map[], map[]), psuRule, psu);
  }

  lemma OutageLeavesTheSensor(t: Tick, s: Store, downRule: Rule, down: Occurrence)
    requires t.rollup && t.handResolves == map[] && t.nodes == Nodes(map[], map[])
    requires |t.rules| == 2 && t.rules[0].key == PsuFailed && t.rules[1] == downRule
    requires downRule.key == DeviceDown && down.entity == Device(7)
    requires Admits(downRule, down, t.muted) && !Admits(t.rules[0], down, t.muted)
    requires s.active.Keys == {Key(PsuFailed, Sensor(7, 1))} && s.covers == map[] && s.memo == map[]
    ensures
      var end := Apply(t, s, down);
      Key(PsuFailed, Sensor(7, 1)) in end.active && DownKey(7) in end.active
  {
    OneRuleApplies(t, s, down);
    UncoveredRuleOpens(t, s, downRule, down);
    var memo :| ApplyRule(t, s, downRule, down) == OpenAndAbsorb(t, s.(memo := memo), downRule, down);
    OnlySensorsOutliveTheOutage(t, s.(memo := memo), downRule, down, Key(PsuFailed, Sensor(7, 1)));
  }

  lemma RunThree(s: Store, a: Event, b: Event, c: Event)
    ensures Run(s, [a, b, c]) == Next(Next(Next(s, a), b), c)
  {
    var events := [a, b, c];
    assert events[..2][..1] == [a] && [a][..0] == [] && events[..2][1] == b;
    assert Run(s, [a]) == Next(s, a);
    assert Run(s, events[..2]) == Next(Run(s, [a]), b);
  }

  lemma OneRuleApplies(t: Tick, s: Store, occ: Occurrence)
    requires |t.rules| == 2
    ensures !Admits(t.rules[1], occ, t.muted) ==> Apply(t, s, occ) == ApplyRule(t, s, t.rules[0], occ)
    ensures !Admits(t.rules[0], occ, t.muted) ==> Apply(t, s, occ) == ApplyRule(t, s, t.rules[1], occ)
  {
    assert t.rules[..1][..0] == [] && t.rules[..1][0] == t.rules[0];
    assert ApplyRules(t, s, t.rules[..1], occ) == ApplyRule(t, s, t.rules[0], occ);
  }
}
