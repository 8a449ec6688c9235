/**
 Recovery past the cap of the walk down. A device suppressed under an upstream that
 does not list it among its two thousand is not reported again when that upstream
 recovers: it stays down with no alert that speaks for it.
 */
module RecoveryGap {
  import opened Wrappers
  import opened RollupRules
  import opened Rollup
  import opened RollupOrder
  import opened Topology

  /** x is down, as is u above it, and nothing else above x is down or was resolved by hand. */
  ghost predicate OnlyUpstreamOut(t: Tick, devices: map<nat, DeviceRow>, s: Store, above: seq<nat>, u: nat, x: nat) {
    && x in devices && devices[x].enabled && devices[x].isDown && x !in above && u in above
    && (forall b :: b in above ==> !CoveredByHand(t, s.covers, b) && !(b in devices && devices[b].isDown && b != u))
    && (forall b :: (b == x || b in above) && b != u ==> b !in Outages(s.active))
  }

  /** The open outages among x and what is above it. */
  ghost predicate SpeaksFor(s: Store, above: seq<nat>, x: nat) {
    exists b :: (b == x || b in above) && b in Outages(s.active)
  }

  /** The devices some occurrences are about. */
  ghost function Named(batch: seq<Occurrence>): set<nat> {
    set x | x in batch && x.entity.Device? :: x.entity.id
  }

  lemma NamedOneMore(init: seq<Occurrence>, last: Occurrence, d: nat)
    requires last.entity.Device?
    ensures d in Named(init + [last]) <==> d in Named(init) || last.entity.id == d
  {
    assert forall x :: x in init + [last] <==> x in init || x == last;
  }

  /** Part of the replays applied: nothing above x is out, and x is if it was among them. */
  ghost predicate ReplayedSoFar(t: Tick, s: Store, above: seq<nat>, x: nat, done: seq<Occurrence>, after: Store) {
    && SameCovers(t, s.covers, after.covers) && after.memo.Keys <= Named(done)
    && (forall b :: b in above ==> b !in Outages(after.active))
    && (x in Outages(after.active) <==> x in Named(done))
  }

  lemma OneReplay(t: Tick, s: Store, i: nat, above: seq<nat>, x: nat, done: seq<Occurrence>, before: Store,
                  occ: Occurrence)
    requires t.rollup && ReportsOutage(t, i, occ) && ReplayedSoFar(t, s, above, x, done, before)
    requires occ.entity.id !in Named(done) && occ.entity.id !in above && x !in above
    requires (forall b :: b in t.nodes.UpstreamChain(x) ==> b in above) && forall b :: b in above ==>
                 !CoveredByHand(t, s.covers, b)
    requires !Beneath(t.nodes, x, occ.entity.id)
    ensures ReplayedSoFar(t, s, above, x, done + [occ], Apply(t, before, occ))
  {
    var d := occ.entity.id;
    assert t.rules[..|t.rules|] == t.rules;
    ApplyOneOutage(t, before, i, |t.rules|, occ);
    NamedOneMore(done, occ, x);
    forall y ensures y in Named(done + [occ]) <==> y in Named(done) || y == d {
      NamedOneMore(done, occ, y);
    }
    if d == x {
      assert !Blocked(t, Outages(before.active), before.covers, x);
    }
  }

  lemma ReplaysOneMore(t: Tick, devices: map<nat, DeviceRow>, init: seq<nat>, c: nat)
    ensures Replays(t, devices, init + [c]) ==
            if Replayed(devices, c) then Replays(t, devices, init) + [ReplayOf(t, devices, c)]
                else Replays(t, devices, init)
  {
    assert (init + [c])[..|init|] == init;
    assert Replays(t, devices, init) + [] == Replays(t, devices, init);
  }

  lemma {:induction false} ReplaysName(t: Tick, devices: map<nat, DeviceRow>, ids: seq<nat>, y: nat)
    ensures y in Named(Replays(t, devices, ids)) <==> y in ids && Replayed(devices, y)
  {
    if ids != [] {
      var init, c := ids[..|ids| - 1], ids[|ids| - 1];
      assert ids == init + [c];
      ReplaysName(t, devices, init, y);
      ReplaysOneMore(t, devices, init, c);
      if Replayed(devices, c) {
        NamedOneMore(Replays(t, devices, init), ReplayOf(t, devices, c), y);
      }
    }
  }

  /** What the replays may be about: devices x is not beneath unless they are above it, all accepted. */
  ghost predicate Replayable(t: Tick, devices: map<nat, DeviceRow>, i: nat, above: seq<nat>, x: nat, ids: seq<nat>) {
    && Distinct(ids) && !Beneath(t.nodes, x, x)
    && (forall b :: b in t.nodes.UpstreamChain(x) ==> b in above)
    && (forall c :: c in ids && Beneath(t.nodes, x, c) ==> c in above)
    && (forall c :: c in ids && Replayed(devices, c) ==> c !in above && ReportsOutage(t, i, ReplayOf(t, devices, c)))
  }

  /** Neither x nor anything above it is out, or was resolved by hand. */
  ghost predicate AllClear(t: Tick, s: Store, above: seq<nat>, x: nat) {
    && s.memo == map[] && x !in above && x !in Outages(s.active)
    && forall b :: b in above ==> !CoveredByHand(t, s.covers, b) && b !in Outages(s.active)
  }

  lemma {:induction false} ReplaysApplied(t: Tick, devices: map<nat, DeviceRow>, s: Store, i: nat, above: seq<nat>,
                                          x: nat, ids: seq<nat>)
    requires t.rollup && AllClear(t, s, above, x) && Replayable(t, devices, i, above, x, ids)
    ensures ReplayedSoFar(t, s, above, x, Replays(t, devices, ids), ApplyAll(t, s, Replays(t, devices, ids)))
  {
    if ids != [] {
      var init, c := ids[..|ids| - 1], ids[|ids| - 1];
      assert ids == init + [c];
      ReplaysApplied(t, devices, s, i, above, x, init);
      ReplaysOneMore(t, devices, init, c);
      if Replayed(devices, c) {
        ReplaysName(t, devices, init, c);
        OneReplay(t, s, i, above, x, Replays(t, devices, init), ApplyAll(t, s, Replays(t, devices, init)),
                  ReplayOf(t, devices, c));
        ApplyAllOneMore(t, s, Replays(t, devices, init), ReplayOf(t, devices, c));
      }
    }
  }

  lemma ApplyAllOneMore(t: Tick, s: Store, done: seq<Occurrence>, occ: Occurrence)
    ensures ApplyAll(t, s, done + [occ]) == Apply(t, ApplyAll(t, s, done), occ)
  {
    assert (done + [occ])[..|done|] == done;
  }

  /** After the upstream's recovery is drained and the replays applied, an alert speaks for the device
      exactly when the capped walk down lists it. */
  lemma RecoverySpeaksExactlyForTheListed(t: Tick, devices: map<nat, DeviceRow>, s: Store, i: nat,
                                          up: map<nat, nat>, level: map<nat, nat>, u: nat, x: nat)
    requires t.rollup && s.memo == map[] && Serves(t.nodes, up, level) && x in level && RuleKnown(t, DeviceDown)
    requires OnlyUpstreamOut(t, devices, s, Ancestors(up, level, x), u, x)
    requires forall c :: c in t.nodes.DownstreamIds(u) && c in devices ==> ReportsOutage(t, i, ReplayOf(t, devices, c))
    ensures
      var (recovered, replays) := Recover(t, devices, s, u);
      SpeaksFor(ApplyAll(t, recovered, replays), Ancestors(up, level, x), x) <==> Beneath(t.nodes, x, u)
  {
    var recovered := Recover(t, devices, s, u).0;
    var above, ids := Ancestors(up, level, x), t.nodes.DownstreamIds(u);
    RecoveredOutages(t, devices, s, u);
    ListedAreReplayable(t, devices, i, s, up, level, u, x);
    ReplaysApplied(t, devices, recovered, i, above, x, ids);
    ReplaysName(t, devices, ids, x);
  }

  lemma ListedAreReplayable(t: Tick, devices: map<nat, DeviceRow>, i: nat, s: Store, up: map<nat, nat>,
                            level: map<nat, nat>, u: nat, x: nat)
    requires Serves(t.nodes, up, level) && x in level && OnlyUpstreamOut(t, devices, s, Ancestors(up, level, x), u, x)
    requires forall c :: c in t.nodes.DownstreamIds(u) && c in devices ==> ReportsOutage(t, i, ReplayOf(t, devices, c))
    ensures Replayable(t, devices, i, Ancestors(up, level, x), x, t.nodes.DownstreamIds(u))
  {
    var above, ids := Ancestors(up, level, x), t.nodes.DownstreamIds(u);
    forall b | b in t.nodes.UpstreamChain(x) ensures b in above {
      ServedChain(t.nodes, up, level, x, b);
    }
    forall c | Beneath(t.nodes, x, c) ensures c in above {
      assert x in Elements(t.nodes.DownstreamIds(c));
    }
    forall c | c in ids ensures c != u {
      assert c in Elements(ids);
      NoneAboveItself(up, level, c);
    }
    NoneAboveItself(up, level, x);
  }

  lemma RecoveredOutages(t: Tick, devices: map<nat, DeviceRow>, s: Store, u: nat)
    requires RuleKnown(t, DeviceDown)
    ensures Outages(Recover(t, devices, s, u).0.active) == Outages(s.active) - {u}
  {
    var after := Recover(t, devices, s, u).0;
    forall d ensures d in Outages(after.active) <==> d in Outages(s.active) && d != u {
      OutageKeys(after.active, d);
      OutageKeys(s.active, d);
    }
  }

  lemma NoneAboveItself(up: map<nat, nat>, level: map<nat, nat>, x: nat)
    requires Levelled(up, level) && x in level
    ensures x !in Ancestors(up, level, x)
  {
    var above := Ancestors(up, level, x);
    forall i | 0 <= i < |above| ensures above[i] != x {
      assert level[above[i]] == level[x] - 1 - i;
    }
  }
}
