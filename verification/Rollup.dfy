/**
 The rollup half of the alert engine's apply path (netpath/alertengine.py):
 which open alert already says what an occurrence is about to say, what a
 newly opened alert makes redundant, and the apply step itself. The pure
 functions state what each operation does to the engine's state; the class
 AlertEngine does it in place, loop by loop.
 */
module Rollup {
  import opened Wrappers
  import opened RollupRules

  /** The device-topology reads of the nodes database: ids above a device, nearest
      first, and ids beneath it. */
  datatype Nodes = Nodes(chain: map<nat, seq<nat>>, down: map<nat, seq<nat>>) {
    function UpstreamChain(d: nat): seq<nat> {
      if d in chain then chain[d] else []
    }

    function DownstreamIds(d: nat): seq<nat> {
      if d in down then down[d] else []
    }
  }

  /** An active (open or acknowledged) alert row. */
  datatype Row = Row(openedTs: real, lastTs: real, count: nat)

  /** The answer to "which outage already covers this". */
  datatype Verdict = Uncovered | OpenAlert(key: Key) | Suppressed

  /** What one tick reads once: enabled rules, the whole rule table, the topology, the
      hand resolves still inside their window, which devices still fail the down
      condition, and the start of each threshold rule's current breach run. */
  datatype Tick = Tick(
    rules: seq<Rule>, catalog: map<RuleKey, Rule>, nodes: Nodes,
    handResolves: map<Key, real>, stillDown: set<nat>, now: real,
    muted: set<(nat, RuleKey)>, runStart: map<(int, Entity), real>, rollup: bool)

  /** The engine state the apply path reads and writes; `memo` is the per-tick cache of
      _upstream_outage, one entry per device asked about. */
  datatype Store = Store(active: map<Key, Row>, covers: map<Key, real>, memo: map<nat, Verdict>)

  // ----------------------------------------------------------- rule lookup

  /** _rules_by_key: the last enabled rule with this key. */
  function EnabledRule(rules: seq<Rule>, key: RuleKey): (r: Option<Rule>)
    ensures r.Some? ==> r.value in rules && r.value.key == key
    ensures r.None? ==> forall i :: 0 <= i < |rules| ==> rules[i].key != key || key == OtherRule("")
  {
    if rules == [] || key == OtherRule("") then None
    else if rules[|rules| - 1].key == key then Some(rules[|rules| - 1])
    else EnabledRule(rules[..|rules| - 1], key)
  }

  /** _rule_by_key finds a rule: enabled, or known to the database though disabled. */
  predicate RuleKnown(t: Tick, key: RuleKey) {
    EnabledRule(t.rules, key).Some? || key in t.catalog
  }

  // ------------------------------------------------------ upstream outages

  function CoverStart(t: Tick, k: Key): real
    requires k in t.handResolves
  {
    if t.handResolves[k] != 0.0 then t.handResolves[k] else t.now
  }

  /** The walk of _upstream_outage_uncached over the rest of a chain. */
  function WalkChain(t: Tick, active: map<Key, Row>, covers: map<Key, real>,
                     chain: seq<nat>, covered: bool): (Verdict, map<Key, real>)
    decreases |chain|
  {
    if chain == [] then (if covered then Suppressed else Uncovered, covers)
    else
      var k := DownKey(chain[0]);
      if k in active then (OpenAlert(k), covers)
      else if covered || (k !in t.handResolves && k !in covers) then
        WalkChain(t, active, covers, chain[1..], covered)
      else if chain[0] in t.stillDown then
        WalkChain(t, active, if k in covers then covers else covers[k := CoverStart(t, k)], chain[1..], true)
      else
        WalkChain(t, active, covers - {k}, chain[1..], false)
  }

  /** _upstream_outage: the memoised answer, or the walk's. */
  function UpstreamOutage(t: Tick, s: Store, d: nat): (Verdict, Store) {
    if d in s.memo then (s.memo[d], s)
    else
      var (v, covers) := WalkChain(t, s.active, s.covers, t.nodes.UpstreamChain(d), false);
      (v, s.(covers := covers, memo := s.memo[d := v]))
  }

  // --------------------------------------------------------- rollup parents

  /** _device_probe: a port or sensor asks about its device. */
  function ProbeOf(e: Entity): Entity {
    match e
    case Interface(d, _) => Device(d)
    case Sensor(d, _) => Device(d)
    case _ => e
  }

  /** The entity a child asks its parent's alert about. */
  function ParentEntity(child: Rule, parent: Rule, e: Entity): Entity {
    if SameMetricPair(child, parent) then e else ProbeOf(e)
  }

  function RollupParent(t: Tick, s: Store, rule: Rule, e: Entity): (Verdict, Store) {
    if !TakesPartInRollup(e) then (Uncovered, s)
    else
      match RolledUpBy(rule.key)
      case Some(parentKey) =>
        (match EnabledRule(t.rules, parentKey)
         case None => (Uncovered, s)
         case Some(parent) =>
           var probe := ParentEntity(rule, parent, e);
           var k := Key(parentKey, probe);
           if k in s.active then (OpenAlert(k), s)
           else if parentKey == DeviceDown && probe.Device? then UpstreamOutage(t, s, probe.id)
           else (Uncovered, s))
      case None =>
        if rule.key == DeviceDown && e.Device? then UpstreamOutage(t, s, e.id) else (Uncovered, s)
  }

  /** _parent_operator_resolved: an operator's resolve of the parent covers the child
      for as long as the parent's condition holds. */
  function ParentOperatorResolved(t: Tick, s: Store, rule: Rule, e: Entity): (bool, Store) {
    if RolledUpBy(rule.key).None? || !TakesPartInRollup(e) then (false, s)
    else
      var parentKey := RolledUpBy(rule.key).value;
      match EnabledRule(t.rules, parentKey)
      case None => (false, s)
      case Some(parent) =>
        var probe := ParentEntity(rule, parent, e);
        var k := Key(parentKey, probe);
        if parentKey == DeviceDown then
          if k !in t.handResolves && k !in s.covers then (false, s)
          else if !(probe.Device? && probe.id in t.stillDown) then (false, s.(covers := s.covers - {k}))
          else (true, if k in s.covers then s else s.(covers := s.covers[k := CoverStart(t, k)]))
        else if k !in t.handResolves then (false, s)
        else ((rule.id, e) in t.runStart && t.runStart[(rule.id, e)] <= t.handResolves[k], s)
  }

  // -------------------------------------------------------------- absorption

  /** The entities _absorb_one sweeps for an outage of `e`: itself and, for a device, its ports. */
  predicate Sweeps(e: Entity, f: Entity) {
    f == e || (e.Device? && f.Interface? && f.device == e.id)
  }

  /** The active keys an alert of rule `parent` about `e` makes redundant. */
  function Subordinates(t: Tick, active: map<Key, Row>, parent: RuleKey, e: Entity): set<Key> {
    set k | k in active && RolledUpBy(k.rule) == Some(parent) && RuleKnown(t, k.rule) && Sweeps(e, k.entity)
  }

  /** `k` goes when an outage upstream of the devices `ids` opens: it is the outage alert of
      one of them, or had rolled up under one that had an outage alert. */
  predicate ImpliedDownstream(t: Tick, active: map<Key, Row>, ids: seq<nat>, k: Key) {
    exists c :: c in ids && DownKey(c) in active &&
                (k == DownKey(c) || k in Subordinates(t, active, DeviceDown, Device(c)))
  }

  function DownstreamAlerts(t: Tick, active: map<Key, Row>, ids: seq<nat>): set<Key> {
    set k | k in active && ImpliedDownstream(t, active, ids, k)
  }

  function AbsorbSubordinates(t: Tick, active: map<Key, Row>, parent: RuleKey, e: Entity): map<Key, Row> {
    var rest := active - Subordinates(t, active, parent, e);
    if parent == DeviceDown && e.Device? then
      rest - DownstreamAlerts(t, rest, t.nodes.DownstreamIds(e.id))
    else rest
  }

  /** The active keys of the rules `children` that an outage of `e` sweeps. */
  function SweptAlerts(active: map<Key, Row>, children: seq<RuleKey>, e: Entity): set<Key> {
    set k | k in active && k.rule in children && Sweeps(e, k.entity)
  }

  lemma SweepOneMore(a: map<Key, Row>, known: seq<RuleKey>, c: RuleKey, e: Entity)
    ensures
      var before := a - SweptAlerts(a, known, e);
      a - SweptAlerts(a, known + [c], e) == before - SweptAlerts(before, [c], e)
  {
  }

  lemma SweepIsSubordinates(t: Tick, a: map<Key, Row>, known: seq<RuleKey>, parent: RuleKey, e: Entity)
    requires forall c :: c in known <==> c in RollsUp(parent) && RuleKnown(t, c)
    ensures SweptAlerts(a, known, e) == Subordinates(t, a, parent, e)
  {
    forall k | k in a {
      RollsUpInverts(parent, k.rule);
    }
  }

  // ------------------------------------------------------------------ apply

  /** open_or_increment. */
  function OpenOrIncrement(active: map<Key, Row>, k: Key, ts: real): map<Key, Row> {
    if k in active then active[k := active[k].(lastTs := ts, count := active[k].count + 1)]
    else active[k := Row(ts, ts, 1)]
  }

  function OpenAndAbsorb(t: Tick, s: Store, rule: Rule, occ: Occurrence): Store {
    var k := Key(rule.key, occ.entity);
    var active := OpenOrIncrement(s.active, k, occ.ts);
    s.(active := if k !in s.active && t.rollup && RollsUp(rule.key) != []
                 then AbsorbSubordinates(t, active, rule.key, occ.entity) else active)
  }

  /** One rule of _apply's loop. */
  function ApplyRule(t: Tick, s: Store, rule: Rule, occ: Occurrence): Store {
    if !Admits(rule, occ, t.muted) then s
    else if !t.rollup then OpenAndAbsorb(t, s, rule, occ)
    else
      var (verdict, s1) := RollupParent(t, s, rule, occ.entity);
      if !verdict.Uncovered? then
        if rule.key == DeviceDown
        then s1.(active := s1.active - Subordinates(t, s1.active, DeviceDown, occ.entity))
        else s1
      else
        var (resolved, s2) := ParentOperatorResolved(t, s1, rule, occ.entity);
        if resolved then s2 else OpenAndAbsorb(t, s2, rule, occ)
  }

  function ApplyRules(t: Tick, s: Store, rules: seq<Rule>, occ: Occurrence): Store {
    if rules == [] then s
    else ApplyRule(t, ApplyRules(t, s, rules[..|rules| - 1], occ), rules[|rules| - 1], occ)
  }

  function Apply(t: Tick, s: Store, occ: Occurrence): Store {
    ApplyRules(t, s, t.rules, occ)
  }

  /** The apply loop of one tick over a batch. */
  function ApplyAll(t: Tick, s: Store, batch: seq<Occurrence>): Store {
    if batch == [] then s
    else Apply(t, ApplyAll(t, s, batch[..|batch| - 1]), batch[|batch| - 1])
  }

  // ------------------------------------------------------------- the engine

  class AlertEngine {
    var active: map<Key, Row>
    var covers: map<Key, real>
    var memo: map<nat, Verdict>

    constructor ()
      ensures State() == Store(map[], map[], map[])
    {
      active, covers, memo := map[], map[], map[];
    }

    function State(): Store
      reads this
    {
      Store(active, covers, memo)
    }

    /** _upstream_outage with _upstream_outage_uncached's walk. */
    method UpstreamOutageOf(t: Tick, d: nat) returns (v: Verdict)
      modifies this`covers, this`memo
      ensures (v, State()) == UpstreamOutage(t, old(State()), d)
    {
      if d in memo {
        return memo[d];
      }
      var chain := t.nodes.UpstreamChain(d);
      var covered := false;
      ghost var answer := WalkChain(t, active, covers, chain, false);
      var i := 0;
      while i < |chain|
        invariant i <= |chain| && memo == old(memo)
        invariant WalkChain(t, active, covers, chain[i..], covered) == answer
      {
        var k := DownKey(chain[i]);
        assert chain[i..][0] == chain[i] && chain[i..][1..] == chain[i + 1..];
        if k in active {
          v := OpenAlert(k);
          memo := memo[d := v];
          return;
        }
        if !covered && (k in t.handResolves || k in covers) {
          if chain[i] in t.stillDown {
            if k !in covers {
              covers := covers[k := CoverStart(t, k)];
            }
            covered := true;
          } else {
            covers := covers - {k};
          }
        }
        i := i + 1;
      }
      assert chain[i..] == [];
      v := if covered then Suppressed else Uncovered;
      memo := memo[d := v];
    }

    method RollupParentOf(t: Tick, rule: Rule, e: Entity) returns (v: Verdict)
      modifies this`covers, this`memo
      ensures (v, State()) == RollupParent(t, old(State()), rule, e)
    {
      v := Uncovered;
      if !TakesPartInRollup(e) {
        return;
      }
      var parentKey := RolledUpBy(rule.key);
      if parentKey.Some? {
        var parent := EnabledRule(t.rules, parentKey.value);
        if parent.None? {
          return;
        }
        var probe := ParentEntity(rule, parent.value, e);
        var k := Key(parentKey.value, probe);
        if k in active {
          v := OpenAlert(k);
        } else if parentKey.value == DeviceDown && probe.Device? {
          v := UpstreamOutageOf(t, probe.id);
        }
      } else if rule.key == DeviceDown && e.Device? {
        v := UpstreamOutageOf(t, e.id);
      }
    }

    method ParentWasResolvedByHand(t: Tick, rule: Rule, e: Entity) returns (b: bool)
      modifies this`covers
      ensures (b, State()) == ParentOperatorResolved(t, old(State()), rule, e)
    {
      b := false;
      var parentKey := RolledUpBy(rule.key);
      if parentKey.None? || !TakesPartInRollup(e) {
        return;
      }
      var parent := EnabledRule(t.rules, parentKey.value);
      if parent.None? {
        return;
      }
      var probe := ParentEntity(rule, parent.value, e);
      var k := Key(parentKey.value, probe);
      if parentKey.value == DeviceDown {
        if k !in t.handResolves && k !in covers {
          return;
        }
        if !(probe.Device? && probe.id in t.stillDown) {
          covers := covers - {k};
          return;
        }
        if k !in covers {
          covers := covers[k := CoverStart(t, k)];
        }
        b := true;
      } else if k in t.handResolves {
        b := (rule.id, e) in t.runStart && t.runStart[(rule.id, e)] <= t.handResolves[k];
      }
    }

    /** _absorb_one: the entity's own alert and, for a device, each of its ports'. */
    method AbsorbOne(child: RuleKey, e: Entity)
      modifies this`active
      ensures active == old(active) - SweptAlerts(old(active), [child], e)
    {
      active := active - {Key(child, e)};
      if e.Device? {
        active := active - set k | k in active && k.rule == child && k.entity.Interface? && k.entity.device == e.id;
      }
    }

    /** _absorb_children_of, and the loop over ROLLS_UP of _absorb_subordinates. */
    method AbsorbChildren(t: Tick, parent: RuleKey, e: Entity)
      modifies this`active
      ensures active == old(active) - Subordinates(t, old(active), parent, e)
    {
      var children := RollsUp(parent);
      ghost var known := [];
      for i := 0 to |children|
        invariant forall c :: c in known <==> c in children[..i] && RuleKnown(t, c)
        invariant active == old(active) - SweptAlerts(old(active), known, e)
      {
        if RuleKnown(t, children[i]) {
          SweepOneMore(old(active), known, children[i], e);
          AbsorbOne(children[i], e);
          known := known + [children[i]];
        }
      }
      SweepIsSubordinates(t, old(active), known, parent, e);
    }

    /** _absorb_downstream. */
    method AbsorbDownstream(t: Tick, d: nat)
      modifies this`active
      ensures active == old(active) - DownstreamAlerts(t, old(active), t.nodes.DownstreamIds(d))
    {
      var ids := t.nodes.DownstreamIds(d);
      for i := 0 to |ids|
        invariant active == old(active) - DownstreamAlerts(t, old(active), ids[..i])
      {
        DownstreamStep(t, old(active), ids[..i], ids[i]);
        assert ids[..i + 1] == ids[..i] + [ids[i]];
        if DownKey(ids[i]) in active {
          active := active - {DownKey(ids[i])};
          AbsorbChildren(t, DeviceDown, Device(ids[i]));
        }
      }
      assert ids[..|ids|] == ids;
    }

    method AbsorbUnder(t: Tick, parent: RuleKey, e: Entity)
      modifies this`active
      ensures active == AbsorbSubordinates(t, old(active), parent, e)
    {
      AbsorbChildren(t, parent, e);
      if parent == DeviceDown && e.Device? {
        AbsorbDownstream(t, e.id);
      }
    }

    /** The body of _apply's loop, for one rule. */
    method ApplyOne(t: Tick, rule: Rule, occ: Occurrence)
      modifies this
      ensures State() == ApplyRule(t, old(State()), rule, occ)
    {
      if !Admits(rule, occ, t.muted) {
        return;
      }
      if t.rollup {
        var parent := RollupParentOf(t, rule, occ.entity);
        if !parent.Uncovered? {
          if rule.key == DeviceDown {
            AbsorbChildren(t, DeviceDown, occ.entity);
          }
          return;
        }
        var resolved := ParentWasResolvedByHand(t, rule, occ.entity);
        if resolved {
          return;
        }
      }
      var k := Key(rule.key, occ.entity);
      var isNew := k !in active;
      active := OpenOrIncrement(active, k, occ.ts);
      if isNew && t.rollup && RollsUp(rule.key) != [] {
        AbsorbUnder(t, rule.key, occ.entity);
      }
    }

    /** _apply: every enabled rule, one occurrence. */
    method ApplyOccurrence(t: Tick, occ: Occurrence)
      modifies this
      ensures State() == Apply(t, old(State()), occ)
    {
      for i := 0 to |t.rules|
        invariant State() == ApplyRules(t, old(State()), t.rules[..i], occ)
      {
        assert t.rules[..i + 1][..i] == t.rules[..i];
        ApplyOne(t, t.rules[i], occ);
      }
      assert t.rules[..|t.rules|] == t.rules;
    }

    /** The apply loop of _tick. */
    method ApplyBatch(t: Tick, batch: seq<Occurrence>)
      modifies this
      ensures State() == ApplyAll(t, old(State()), batch)
    {
      for i := 0 to |batch|
        invariant State() == ApplyAll(t, old(State()), batch[..i])
      {
        assert batch[..i + 1][..i] == batch[..i];
        ApplyOccurrence(t, batch[i]);
      }
      assert batch[..|batch|] == batch;
    }
  }

  /** Absorbing one more downstream device, one id at a time, in any order. */
  lemma DownstreamStep(t: Tick, a: map<Key, Row>, ids: seq<nat>, c: nat)
    ensures
      var before := a - DownstreamAlerts(t, a, ids);
      a - DownstreamAlerts(t, a, ids + [c]) ==
      if DownKey(c) in before
      then var own := before - {DownKey(c)}; own - Subordinates(t, own, DeviceDown, Device(c))
      else before
  {
  }
}
