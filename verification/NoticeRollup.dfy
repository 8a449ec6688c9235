/**
 The rollup questions the notice sweep asks, answered by the rollup itself: no first
 notice goes out about an alert whose parent is open, or whose device stands under an
 outage.
 */
module NoticeRollup {
  import opened Wrappers
  import R = Rollup
  import RollupRules
  import RollupOrder
  import opened Notices
  import opened NoticeRuns

  /** What the sweep asks about one alert: the parent _apply would find, then a hand resolve of it. */
  function RolledUpNow(t: R.Tick, s: R.Store, rule: RollupRules.Rule, e: RollupRules.Entity): bool {
    var (v, s1) := R.RollupParent(t, s, rule, e);
    !v.Uncovered? || R.ParentOperatorResolved(t, s1, rule, e).0
  }

  /** An alert's rule and entity, and the alert store as its question finds it. */
  datatype Asked = Asked(rule: RollupRules.Rule, entity: RollupRules.Entity, store: R.Store)

  /** The answers come from the rollup: each question may change what is remembered, never what is open. */
  ghost predicate Answered(t: R.Tick, active: map<RollupRules.Key, R.Row>, facts: map<nat, Facts>,
                           asked: map<nat, Asked>) {
    forall id :: id in facts ==>
      && id in asked && asked[id].store.active == active
      && facts[id].rolledUp == RolledUpNow(t, asked[id].store, asked[id].rule, asked[id].entity)
  }

  /** The alert's rollup parent is open. */
  ghost predicate ParentOpen(t: R.Tick, active: map<RollupRules.Key, R.Row>, x: Asked) {
    && RollupRules.TakesPartInRollup(x.entity) && RollupRules.RolledUpBy(x.rule.key).Some?
    && var parent := R.EnabledRule(t.rules, RollupRules.RolledUpBy(x.rule.key).value);
       parent.Some? && RollupRules.Key(parent.value.key, R.ParentEntity(x.rule, parent.value, x.entity)) in active
  }

  /** The alert rolls up under the outage of device d. */
  ghost predicate UnderDevice(t: R.Tick, x: Asked, d: nat) {
    && RollupRules.RolledUpBy(x.rule.key) == Some(RollupRules.DeviceDown)
        && R.ProbeOf(x.entity) == RollupRules.Device(d)
    && var parent := R.EnabledRule(t.rules, RollupRules.DeviceDown);
       parent.Some? && !RollupRules.SameMetricPair(x.rule, parent.value)
  }

  /** The alert is the outage of device d itself. */
  predicate OwnOutage(x: Asked, d: nat) {
    x.rule.key == RollupRules.DeviceDown && x.entity == RollupRules.Device(d)
  }

  /** Nothing up the device's chain is out, or resolved by hand while still true -- or that is what the tick
      remembers having found. */
  ghost predicate UpstreamClear(t: R.Tick, x: Asked, d: nat) {
    if d in x.store.memo then x.store.memo[d].Uncovered?
    else !RollupOrder.Blocked(t, RollupOrder.Outages(x.store.active), x.store.covers, d)
  }

  /** And nothing on the device itself. */
  ghost predicate DeviceClear(t: R.Tick, x: Asked, d: nat) {
    && RollupRules.DownKey(d) !in x.store.active && !RollupOrder.CoveredByHand(t, x.store.covers, d)
    && UpstreamClear(t, x, d)
  }

  lemma RolledUpMeans(t: R.Tick, x: Asked)
    requires t.rollup
    ensures ParentOpen(t, x.store.active, x) ==> RolledUpNow(t, x.store, x.rule, x.entity)
    ensures forall d :: UnderDevice(t, x, d) ==> (RolledUpNow(t, x.store, x.rule, x.entity) <==> !DeviceClear(t, x, d))
    ensures forall d :: OwnOutage(x, d) ==> (RolledUpNow(t, x.store, x.rule, x.entity) <==> !UpstreamClear(t, x, d))
  {
    forall d | UnderDevice(t, x, d)
      ensures RolledUpNow(t, x.store, x.rule, x.entity) <==> !DeviceClear(t, x, d)
    {
      UpstreamQuestion(t, x, d);
      DeviceQuestion(t, x, d);
    }
    forall d | OwnOutage(x, d)
      ensures RolledUpNow(t, x.store, x.rule, x.entity) <==> !UpstreamClear(t, x, d)
    {
      UpstreamQuestion(t, x, d);
    }
  }

  lemma UpstreamQuestion(t: R.Tick, x: Asked, d: nat)
    ensures
      var (v, after) := R.UpstreamOutage(t, x.store, d);
      (v.Uncovered? <==> UpstreamClear(t, x, d)) && RollupOrder.SameCovers(t, x.store.covers, after.covers)
  {
    if d !in x.store.memo {
      RollupOrder.FreshAnswer(t, x.store, d);
    }
  }

  lemma DeviceQuestion(t: R.Tick, x: Asked, d: nat)
    requires t.rollup && UnderDevice(t, x, d)
    ensures
      var (v, s1) := R.RollupParent(t, x.store, x.rule, x.entity);
      && (v.Uncovered? <==> RollupRules.DownKey(d) !in x.store.active && R.UpstreamOutage(t, x.store, d).0.Uncovered?)
      && (R.ParentOperatorResolved(t, s1, x.rule, x.entity).0 <==> RollupOrder.CoveredByHand(t, x.store.covers, d))
  {
    UpstreamQuestion(t, x, d);
  }

  /** In every run with rollup on, a first notice goes out only about an alert whose parent is not open
      at that moment. When it rolls up under a device's outage there is none on the device or up its
      chain either; when it is a device's outage itself there is none up its chain. */
  lemma NoFirstNoticeUnderAnOpenParent(st: Settings, books: seq<Book>, events: seq<Timed>, i: nat, id: nat, c: Channel,
                                       t: R.Tick, active: map<RollupRules.Key, R.Row>, asked: map<nat, Asked>)
    requires HoldOn(st) && Run(st, books, events) && i < |events| && st.rollup && t.rollup
    requires Submitted(id, FirstNotice, c) in books[i + 1].log && Submitted(id, FirstNotice, c) !in books[i].log
    requires events[i].event.Sweeps? ==> Answered(t, active, events[i].event.known, asked)
    ensures events[i].event.Sweeps? && id in asked && !ParentOpen(t, active, asked[id])
    ensures forall d :: UnderDevice(t, asked[id], d) ==> DeviceClear(t, asked[id], d)
    ensures forall d :: OwnOutage(asked[id], d) ==> UpstreamClear(t, asked[id], d)
  {
    FirstNoticesWaitForTheSweep(st, books, events, i, id, c);
    RolledUpMeans(t, asked[id]);
  }
}
