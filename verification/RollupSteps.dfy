/**
 One rule applied to one occurrence inside the rollup table, in the columns of rules,
 alerts and resolves: what a newly opened outage removes and what it leaves, what a
 suppressed one does, and when the child of a parent other than a device's outage opens.
 */
module RollupSteps {
  import opened Wrappers
  import opened RollupRules
  import opened Rollup
  import opened RollupExclusion
  import opened RollupOrder
  import opened RollupMemo
  import opened RuleGates

  /** A rule is running under this key, or the rule table has one. */
  ghost predicate RuleExists(t: Tick, key: RuleKey) {
    (exists r :: r in t.rules && r.key == key) || key in t.catalog
  }

  lemma {:induction false} FoundMeans(rules: seq<Rule>, key: RuleKey)
    requires key != OtherRule("")
    ensures EnabledRule(rules, key).Some? <==> exists r :: r in rules && r.key == key
  {
    if rules != [] {
      var init, last := rules[..|rules| - 1], rules[|rules| - 1];
      assert rules == init + [last];
      FoundMeans(init, key);
    }
  }

  // -------------------------------------------------------------- what an outage removes

  /** The alert is implied by device c's outage and goes with it: of a rule that rolls up under it, about
      the device itself or one of its ports. */
  ghost predicate GoesWith(t: Tick, k: Key, c: nat) {
    && RolledUpBy(k.rule) == Some(DeviceDown) && RuleExists(t, k.rule)
    && (k.entity == Device(c) || exists i: nat :: k.entity == Interface(c, i))
  }

  lemma GoesWithMeans(t: Tick, active: map<Key, Row>, k: Key, c: nat)
    ensures k in Subordinates(t, active, DeviceDown, Device(c)) <==> k in active && GoesWith(t, k, c)
  {
    if RolledUpBy(k.rule).Some? {
      FoundMeans(t.rules, k.rule);
    }
  }

  /** When a device's outage newly opens exactly these alerts go: those it implies, the outages of devices
      beneath it, and those such an outage implies. All others stay as they were. */
  lemma OpeningOutageLeavesExactly(t: Tick, s: Store, rule: Rule, occ: Occurrence, d: nat, k: Key)
    requires t.rollup && rule.key == DeviceDown && occ.entity == Device(d)
    requires DownKey(d) !in s.active && !Beneath(t.nodes, d, d) && k != DownKey(d)
    ensures
      var after := OpenAndAbsorb(t, s, rule, occ).active;
      && after[DownKey(d)] == Row(occ.ts, occ.ts, 1)
      && (k in after ==> k in s.active && after[k] == s.active[k])
      && (k in s.active ==>
            (k !in after <==>
             GoesWith(t, k, d) || exists c :: c in t.nodes.DownstreamIds(d) && DownKey(c) in s.active
                                           && (k == DownKey(c) || GoesWith(t, k, c))))
  {
    var grown := OpenOrIncrement(s.active, DownKey(d), occ.ts);
    var rest := grown - Subordinates(t, grown, DeviceDown, Device(d));
    RollsUpInverts(DeviceDown, CpuHigh);
    forall x, c ensures x in Subordinates(t, grown, DeviceDown, Device(c)) <==> x in grown && GoesWith(t, x, c) {
      GoesWithMeans(t, grown, x, c);
    }
    forall x, c ensures x in Subordinates(t, rest, DeviceDown, Device(c)) <==> x in rest && GoesWith(t, x, c) {
      GoesWithMeans(t, rest, x, c);
    }
    forall c: nat ensures DownKey(c) in rest <==> DownKey(c) in grown {
      assert !GoesWith(t, DownKey(c), d);
    }
  }

  /** An outage report that is suppressed opens nothing, but still takes with it what that outage implies. */
  lemma SuppressedOutageSweepsToo(t: Tick, s: Store, rule: Rule, occ: Occurrence, d: nat, k: Key)
    requires t.rollup && Admits(rule, occ, t.muted) && rule.key == DeviceDown && occ.entity == Device(d)
    requires !SeemsUnblocked(t, s, d)
    ensures k in ApplyRule(t, s, rule, occ).active <==> k in s.active && !GoesWith(t, k, d)
  {
    if d !in s.memo {
      FreshAnswer(t, s, d);
    }
    GoesWithMeans(t, s.active, k, d);
  }

  // ------------------------------------------------------------- children of other parents

  /** What a child asks its parent's alert about: the same entity when both are threshold rules over one
      metric; otherwise, for a port or a sensor, its device. */
  function AskedAbout(child: Rule, parent: Rule, e: Entity): Entity {
    if child.kind == ThresholdKind && parent.kind == ThresholdKind
       && child.sourceKind == parent.sourceKind && child.sourceKind != "" then e
    else match e
      case Interface(d, _) => Device(d)
      case Sensor(d, _) => Device(d)
      case _ => e
  }

  /** The parent's alert was resolved by hand inside its window, at or after the child's breach began. */
  predicate ResolvedAbove(t: Tick, parent: Key, rule: Rule, e: Entity) {
    && parent in t.handResolves && (rule.id, e) in t.runStart
    && t.runStart[(rule.id, e)] <= t.handResolves[parent]
  }

  /** The child of a running parent other than the outage rule opens exactly when the parent's alert is not
      open, and no hand resolve of it came during the child's own breach. */
  lemma ChildOfOtherParentOpensExactly(t: Tick, s: Store, rule: Rule, occ: Occurrence, i: nat)
    requires t.rollup && Admits(rule, occ, t.muted) && Key(rule.key, occ.entity) !in s.active
    requires DistinctKeys(t.rules) && i < |t.rules| && RolledUpBy(rule.key) == Some(t.rules[i].key)
    requires t.rules[i].key != DeviceDown && !occ.entity.OtherEntity?
    ensures
      var parent := Key(t.rules[i].key, AskedAbout(rule, t.rules[i], occ.entity));
      Key(rule.key, occ.entity) in ApplyRule(t, s, rule, occ).active <==>
      parent !in s.active && !ResolvedAbove(t, parent, rule, occ.entity)
  {
    EveryParentIsNamed(rule.key);
    EnabledRuleIsTheOne(t.rules, i);
    NoRuleIsItsOwnParent(rule.key);
    OpenedStays(t, s, rule, occ);
  }

  lemma EveryParentIsNamed(k: RuleKey)
    ensures RolledUpBy(k) != Some(OtherRule(""))
  {
  }

  lemma OpenedStays(t: Tick, s: Store, rule: Rule, occ: Occurrence)
    requires RolledUpBy(rule.key).Some?
    ensures Key(rule.key, occ.entity) in OpenAndAbsorb(t, s, rule, occ).active
  {
    NoRuleIsItsOwnParent(rule.key);
  }

  /** With rollup off a rule opens its alert whatever else is open, and removes nothing. */
  lemma WithoutRollup(t: Tick, s: Store, rule: Rule, occ: Occurrence, k: Key)
    requires !t.rollup && Admits(rule, occ, t.muted)
    ensures TakenUp(s, ApplyRule(t, s, rule, occ), rule, occ)
    ensures k != Key(rule.key, occ.entity) ==>
              (k in ApplyRule(t, s, rule, occ).active <==> k in s.active)
  {
  }
}
