/**
 A parent cover outlives the resolve window: once an operator has resolved a
 device's outage by hand and the cover has taken effect, no alert that outage
 implies opens again until the device is observed not down, however many ticks
 pass and whatever has become of the resolve itself.
 */
module ParentCover {
  import opened Wrappers
  import opened RollupRules
  import opened Rollup
  import opened RollupExclusion

  /** The alerts device d's outage implies: a rule that rolls up under the outage rule, about
      d itself, one of its ports or one of its sensors, unless it shares a metric with it. */
  ghost predicate ImpliedByOutage(t: Tick, d: nat, k: Key) {
    && RolledUpBy(k.rule) == Some(DeviceDown) && ProbeOf(k.entity) == Device(d)
    && EnabledRule(t.rules, DeviceDown).Some? && EnabledRule(t.rules, DeviceDown).value.kind != ThresholdKind
  }

  /** Nothing of device d's outage is newly open in `after`. */
  ghost predicate NothingImpliedOpened(t: Tick, d: nat, before: map<Key, Row>, after: map<Key, Row>) {
    forall k :: ImpliedByOutage(t, d, k) && k in after ==> k in before
  }

  /** A cover on a device that is still down survives every walk up a chain. */
  lemma {:induction false} WalkKeepsCover(t: Tick, active: map<Key, Row>, covers: map<Key, real>,
                                          chain: seq<nat>, covered: bool, d: nat)
    requires DownKey(d) in covers && d in t.stillDown
    ensures
      var after := WalkChain(t, active, covers, chain, covered).1;
      DownKey(d) in after && after[DownKey(d)] == covers[DownKey(d)]
    decreases |chain|
  {
    if chain != [] {
      var k := DownKey(chain[0]);
      if k in active {
      } else if covered || (k !in t.handResolves && k !in covers) {
        WalkKeepsCover(t, active, covers, chain[1..], covered, d);
      } else if chain[0] in t.stillDown {
        WalkKeepsCover(t, active, if k in covers then covers else covers[k := CoverStart(t, k)], chain[1..], true, d);
      } else {
        WalkKeepsCover(t, active, covers - {k}, chain[1..], false, d);
      }
    }
  }

  lemma QuestionsKeepCover(t: Tick, s: Store, rule: Rule, e: Entity, d: nat)
    requires DownKey(d) in s.covers && d in t.stillDown
    ensures DownKey(d) in RollupParent(t, s, rule, e).1.covers
    ensures DownKey(d) in ParentOperatorResolved(t, s, rule, e).1.covers
  {
    var probe := ProbeOf(e);
    if probe.Device? {
      WalkKeepsCover(t, s.active, s.covers, t.nodes.UpstreamChain(probe.id), false, d);
    }
  }

  /** Under a cover, an implied rule that finds no open parent finds the cover. */
  lemma CoverAnswers(t: Tick, s: Store, rule: Rule, e: Entity, d: nat)
    requires DownKey(d) in s.covers && d in t.stillDown && ImpliedByOutage(t, d, Key(rule.key, e))
    ensures ParentOperatorResolved(t, s, rule, e).0
  {
  }

  lemma RuleOpensNothingUnderCover(t: Tick, s: Store, rule: Rule, occ: Occurrence, d: nat)
    requires t.rollup && DownKey(d) in s.covers && d in t.stillDown
    ensures DownKey(d) in ApplyRule(t, s, rule, occ).covers
    ensures NothingImpliedOpened(t, d, s.active, ApplyRule(t, s, rule, occ).active)
  {
    if Admits(rule, occ, t.muted) {
      var (v, s1) := RollupParent(t, s, rule, occ.entity);
      var (resolved, s2) := ParentOperatorResolved(t, s1, rule, occ.entity);
      QuestionsKeepCover(t, s, rule, occ.entity, d);
      QuestionsKeepCover(t, s1, rule, occ.entity, d);
      QuestionsLeaveAlertsAlone(t, s, rule, occ.entity);
      QuestionsLeaveAlertsAlone(t, s1, rule, occ.entity);
      if ImpliedByOutage(t, d, Key(rule.key, occ.entity)) {
        CoverAnswers(t, s1, rule, occ.entity, d);
      }
    }
  }

  lemma {:induction false} ApplyOpensNothingUnderCover(t: Tick, s: Store, n: nat, occ: Occurrence, d: nat)
    requires t.rollup && DownKey(d) in s.covers && d in t.stillDown && n <= |t.rules|
    ensures DownKey(d) in ApplyRules(t, s, t.rules[..n], occ).covers
    ensures NothingImpliedOpened(t, d, s.active, ApplyRules(t, s, t.rules[..n], occ).active)
  {
    if n > 0 {
      assert t.rules[..n][..n - 1] == t.rules[..n - 1];
      ApplyOpensNothingUnderCover(t, s, n - 1, occ, d);
      RuleOpensNothingUnderCover(t, ApplyRules(t, s, t.rules[..n - 1], occ), t.rules[n - 1], occ, d);
    }
  }

  /** Every tick of the run still finds device d down, with rollup on and the rules of `t`.
      Nothing is asked of the hand resolves a tick reads: they may have left their window. */
  ghost predicate StaysDown(t: Tick, events: seq<Event>, d: nat) {
    && RulesFixed(t, events)
    && forall i :: 0 <= i < |events| && events[i].Applied? ==> d in events[i].tick.stillDown
  }

  /** Through any run in which the device stays down, the cover stands and no alert its outage
      implies opens. */
  lemma {:induction false} CoverHoldsUntilTheDeviceAnswers(t: Tick, s: Store, events: seq<Event>, d: nat)
    requires DownKey(d) in s.covers && StaysDown(t, events, d)
    ensures DownKey(d) in Run(s, events).covers
    ensures NothingImpliedOpened(t, d, s.active, Run(s, events).active)
  {
    if events != [] {
      var n := |events| - 1;
      CoverHoldsUntilTheDeviceAnswers(t, s, events[..n], d);
      if events[n].Applied? {
        var u := events[n].tick;
        assert forall k :: ImpliedByOutage(u, d, k) <==> ImpliedByOutage(t, d, k);
        assert u.rules[..|u.rules|] == u.rules;
        ApplyOpensNothingUnderCover(u, Run(s, events[..n]), |u.rules|, events[n].occ, d);
      }
    }
  }

  /** How a cover begins: a child suppressed by a hand resolve of the device's outage, while
      the device is still down, leaves the cover behind, dated from the resolve. */
  lemma SuppressionEstablishesCover(t: Tick, s: Store, rule: Rule, e: Entity, d: nat)
    requires ImpliedByOutage(t, d, Key(rule.key, e)) && TakesPartInRollup(e)
    requires DownKey(d) in t.handResolves && d in t.stillDown
    ensures
      var (suppressed, after) := ParentOperatorResolved(t, s, rule, e);
      && suppressed
      && after.covers == if DownKey(d) in s.covers then s.covers
                         else s.covers[DownKey(d) := if t.handResolves[DownKey(d)] == 0.0 then t.now
                                                     else t.handResolves[DownKey(d)]]
  {
  }

  /** And how it ends: at the first question after the device answers, which then suppresses nothing. */
  lemma AnswerEndsCover(t: Tick, s: Store, rule: Rule, e: Entity, d: nat)
    requires ImpliedByOutage(t, d, Key(rule.key, e)) && TakesPartInRollup(e) && d !in t.stillDown
    ensures
      var (suppressed, after) := ParentOperatorResolved(t, s, rule, e);
      !suppressed && after == s.(covers := s.covers - {DownKey(d)})
  {
  }

  /** The walk up a chain ends covers likewise: of the first device it has to ask about, when that one has
      answered. */
  lemma WalkEndsCover(t: Tick, s: Store, chain: seq<nat>)
    requires chain != [] && DownKey(chain[0]) !in s.active && chain[0] !in t.stillDown
    ensures
      WalkChain(t, s.active, s.covers, chain, false) ==
      WalkChain(t, s.active, s.covers - {DownKey(chain[0])}, chain[1..], false)
  {
    if DownKey(chain[0]) !in s.covers {
      assert s.covers - {DownKey(chain[0])} == s.covers;
    }
  }
}
