/**
 The two topology reads of netpath/nodesdb.py over the operator's upstream_id
 column, and when they agree: the walk up is capped at eight levels, the walk
 down at two thousand devices.
 */
module Topology {
  import opened Wrappers
  import opened Rollup
  import opened RollupOrder

  const MAX_DEPTH: nat := 8
  const MAX_TOTAL: nat := 2000

  // --------------------------------------------------------------- the walk up

  /** The walk of upstream_chain from `current`: it ends at a device with no upstream, at a
      repeat, or when the depth runs out. */
  function Climb(up: map<nat, nat>, current: nat, seen: set<nat>, depth: nat): seq<nat>
    decreases depth
  {
    if depth == 0 || current !in up || up[current] in seen then []
    else [up[current]] + Climb(up, up[current], seen + {up[current]}, depth - 1)
  }

  method UpstreamChain(up: map<nat, nat>, d: nat, maxDepth: nat) returns (chain: seq<nat>)
    ensures chain == Climb(up, d, {d}, maxDepth)
  {
    chain := [];
    var seen, current, depth := {d}, d, maxDepth;
    while depth > 0
      invariant chain + Climb(up, current, seen, depth) == Climb(up, d, {d}, maxDepth)
    {
      if current !in up || up[current] in seen {
        return;
      }
      var parent := up[current];
      seen := seen + {parent};
      assert chain + ([parent] + Climb(up, parent, seen, depth - 1)) ==
             (chain + [parent]) + Climb(up, parent, seen, depth - 1);
      chain := chain + [parent];
      current := parent;
      depth := depth - 1;
    }
  }

  /** Each device of the chain is upstream of the one before it. */
  predicate Links(up: map<nat, nat>, line: seq<nat>) {
    forall i :: 0 <= i < |line| - 1 ==> line[i] in up && line[i + 1] == up[line[i]]
  }

  /** The walk up, whatever the topology: link by link, nobody twice and never back to one seen, as far as the
      depth allows -- and it stops short of that only at a device with no upstream, or one seen already. */
  lemma {:induction false} ClimbExactly(up: map<nat, nat>, current: nat, seen: set<nat>, depth: nat)
    ensures
      var chain := Climb(up, current, seen, depth);
      var line := [current] + chain;
      && |chain| <= depth && Links(up, line)
      && (forall i :: 0 <= i < |chain| ==> chain[i] !in seen)
      && (forall i, j :: 0 <= i < j < |chain| ==> chain[i] != chain[j])
      && (|chain| < depth ==>
            line[|chain|] !in up || up[line[|chain|]] in seen || up[line[|chain|]] in chain)
    decreases depth
  {
    if !(depth == 0 || current !in up || up[current] in seen) {
      var rest := Climb(up, up[current], seen + {up[current]}, depth - 1);
      var line := [up[current]] + rest;
      ClimbExactly(up, up[current], seen + {up[current]}, depth - 1);
      assert [current] + Climb(up, current, seen, depth) == [current] + line;
    }
  }

  /** An acyclic topology: `level` counts the devices above each device. */
  ghost predicate Levelled(up: map<nat, nat>, level: map<nat, nat>) {
    && (forall d :: d in up ==> d in level && up[d] in level && level[d] == level[up[d]] + 1)
    && (forall d :: d in level && d !in up ==> level[d] == 0)
  }

  /** Everything above a device, nearest first. */
  ghost function Ancestors(up: map<nat, nat>, level: map<nat, nat>, d: nat): (above: seq<nat>)
    requires Levelled(up, level) && d in level
    ensures |above| == level[d]
    ensures forall i :: 0 <= i < |above| ==> above[i] in level && level[above[i]] == level[d] - 1 - i
    decreases level[d]
  {
    if d !in up then [] else [up[d]] + Ancestors(up, level, up[d])
  }

  lemma {:induction false} ClimbIsAncestorPrefix(up: map<nat, nat>, level: map<nat, nat>, d: nat, seen: set<nat>,
                                                 depth: nat)
    requires Levelled(up, level) && d in level
    requires forall s :: s in seen ==> s in level && level[d] <= level[s]
    ensures Climb(up, d, seen, depth) == Ancestors(up, level, d)[..if depth < level[d] then depth else level[d]]
    decreases depth
  {
    if depth > 0 && d in up {
      assert up[d] !in seen;
      ClimbIsAncestorPrefix(up, level, up[d], seen + {up[d]}, depth - 1);
      assert Climb(up, d, seen, depth) == [up[d]] + Climb(up, up[d], seen + {up[d]}, depth - 1);
      TakeAfterFirst(up[d], Ancestors(up, level, up[d]), if depth < level[d] then depth else level[d]);
    }
  }

  lemma TakeAfterFirst(first: nat, rest: seq<nat>, k: nat)
    requires 0 < k <= |rest| + 1
    ensures ([first] + rest)[..k] == [first] + rest[..k - 1]
  {
  }

  lemma {:induction false} AncestorsCompose(up: map<nat, nat>, level: map<nat, nat>, x: nat, b: nat, a: nat)
    requires Levelled(up, level) && x in level
    requires b in Ancestors(up, level, x) && a in Ancestors(up, level, b)
    ensures a in Ancestors(up, level, x)
    decreases level[x]
  {
    if b != up[x] {
      AncestorsCompose(up, level, up[x], b, a);
    }
  }

  // -------------------------------------------------------------- the walk down

  /** The device n levels above x. */
  function Above(up: map<nat, nat>, x: nat, n: nat): Option<nat>
    decreases n
  {
    if n == 0 then Some(x)
    else if x !in up then None
    else Above(up, up[x], n - 1)
  }

  /** x is beneath a, however deep; an operator's mistake may make the topology cyclic. */
  ghost predicate Descends(up: map<nat, nat>, x: nat, a: nat) {
    exists n: nat :: n > 0 && Above(up, x, n) == Some(a)
  }

  /** What a capped walk down promises: distinct devices beneath `a`, no more than the cap, and all of
      them unless the cap was reached. */
  ghost predicate CappedBelow(out: seq<nat>, below: set<nat>, cap: nat) {
    && Distinct(out) && Elements(out) <= below && |out| <= cap
    && (|out| < cap ==> Elements(out) == below)
  }

  ghost function BelowIn(ids: seq<nat>, up: map<nat, nat>, d: nat): set<nat> {
    set x | x in ids && x != d && Descends(up, x, d)
  }

  /** What the walk has so far. */
  ghost predicate Walked(ids: seq<nat>, up: map<nat, nat>, d: nat, seen: set<nat>, out: seq<nat>, cap: nat) {
    && Distinct(out) && seen == Elements(out) + {d} && d !in out && |out| <= cap
    && Elements(out) <= BelowIn(ids, up, d)
  }

  /** Every row under a seen device that is not waiting to be expanded is seen. */
  ghost predicate ClosedBut(ids: seq<nat>, up: map<nat, nat>, seen: set<nat>, waiting: seq<nat>) {
    forall x :: x in ids && x in up && up[x] in seen && up[x] !in waiting ==> x in seen
  }

  lemma ChildDescends(up: map<nat, nat>, x: nat, d: nat)
    requires x in up && (up[x] == d || Descends(up, up[x], d))
    ensures Descends(up, x, d)
  {
    if up[x] == d {
      assert Above(up, up[x], 0) == Some(d);
      assert Above(up, x, 1) == Some(d);
    } else {
      var n: nat :| n > 0 && Above(up, up[x], n) == Some(d);
      assert Above(up, x, n + 1) == Some(d);
    }
  }

  /** A set that contains d and every row under its members contains everything beneath d. */
  lemma {:induction false} ClosedHoldsAll(ids: seq<nat>, up: map<nat, nat>, seen: set<nat>, d: nat, x: nat, n: nat)
    requires d in seen && ClosedBut(ids, up, seen, []) && (forall y :: y in up ==> y in ids)
    requires x in ids && Above(up, x, n) == Some(d)
    ensures x in seen
    decreases n
  {
    if n > 0 {
      if n > 1 {
        ClosedHoldsAll(ids, up, seen, d, up[x], n - 1);
      }
    }
  }

  /** One row of a query for the children of `batch`. */
  lemma OneChildMore(ids: seq<nat>, up: map<nat, nat>, d: nat, seen: set<nat>, out: seq<nat>, cap: nat, child: nat)
    requires Walked(ids, up, d, seen, out, cap) && |out| < cap
    requires child in ids && child in up && up[child] in seen && child !in seen
    ensures Walked(ids, up, d, seen + {child}, out + [child], cap)
  {
    assert Elements(out + [child]) == Elements(out) + {child};
    if up[child] != d {
      assert up[child] in Elements(out);
    }
    ChildDescends(up, child, d);
  }

  /** downstream_ids: level by level, each level in batches, until nothing new is found or the cap is
      reached. `ids` are the device rows, in id order. */
  method DownstreamIds(ids: seq<nat>, up: map<nat, nat>, d: nat, maxTotal: nat, batchSize: nat) returns (out: seq<nat>)
    requires batchSize > 0 && forall y :: y in up ==> y in ids
    ensures CappedBelow(out, BelowIn(ids, up, d), maxTotal)
  {
    out := [];
    var seen, frontier := {d}, [d];
    while frontier != [] && |out| < maxTotal
      invariant Walked(ids, up, d, seen, out, maxTotal) && Elements(frontier) <= seen
      invariant |out| < maxTotal ==> ClosedBut(ids, up, seen, frontier)
      decreases Elements(ids) - seen, |frontier|
    {
      ghost var before := seen;
      out, seen, frontier := ExpandLevel(ids, up, d, seen, out, frontier, maxTotal, batchSize);
      if frontier != [] {
        assert frontier[0] in Elements(frontier);
        assert frontier[0] in Elements(ids) - before;
      } else {
        assert seen == before;
      }
    }
    if |out| < maxTotal {
      forall x | x in BelowIn(ids, up, d) ensures x in out {
        var n: nat :| n > 0 && Above(up, x, n) == Some(d);
        ClosedHoldsAll(ids, up, seen, d, x, n);
      }
    }
  }

  /** The children of one level, found batch by batch. */
  method ExpandLevel(ids: seq<nat>, up: map<nat, nat>, ghost d: nat, seen0: set<nat>, out0: seq<nat>,
                     frontier: seq<nat>, maxTotal: nat, batchSize: nat)
      returns (out: seq<nat>, seen: set<nat>, found: seq<nat>)
    requires batchSize > 0 && frontier != [] && |out0| < maxTotal
    requires Walked(ids, up, d, seen0, out0, maxTotal) && Elements(frontier) <= seen0
    requires ClosedBut(ids, up, seen0, frontier)
    ensures Walked(ids, up, d, seen, out, maxTotal) && Elements(found) <= seen
    ensures |out| < maxTotal ==> ClosedBut(ids, up, seen, found)
    ensures seen == seen0 + Elements(found) && Elements(found) <= Elements(ids) && Elements(found) !! seen0
  {
    out, seen, found := out0, seen0, [];
    var k := 0;
    while k < |frontier| && |out| < maxTotal
      invariant k <= |frontier| && Walked(ids, up, d, seen, out, maxTotal)
      invariant seen == seen0 + Elements(found) && Elements(found) <= Elements(ids) && Elements(found) !! seen0
      invariant |out| < maxTotal ==> Expanded(ids, up, seen, seen0, frontier, k)
    {
      var end := if k + batchSize < |frontier| then k + batchSize else |frontier|;
      var more;
      ghost var seen1 := seen;
      out, seen, more := ExpandBatch(ids, up, d, seen, out, frontier[k..end], maxTotal);
      if |out| < maxTotal {
        BatchExpanded(ids, up, seen, seen1, seen0, frontier, k, end);
      }
      assert Elements(found + more) == Elements(found) + Elements(more);
      found := found + more;
      k := end;
    }
    if |out| < maxTotal {
      LevelClosed(ids, up, seen, seen0, frontier, found);
    }
  }

  /** The children of the first k members of the frontier, and of all expanded before, are seen. */
  ghost predicate Expanded(ids: seq<nat>, up: map<nat, nat>, seen: set<nat>, seen0: set<nat>, frontier: seq<nat>,
                           k: nat)
    requires k <= |frontier|
  {
    forall x :: x in ids && x in up && up[x] in seen0 && up[x] !in frontier[k..] ==> x in seen
  }

  lemma BatchExpanded(ids: seq<nat>, up: map<nat, nat>, seen: set<nat>, seen1: set<nat>, seen0: set<nat>,
                      frontier: seq<nat>, k: nat, end: nat)
    requires k <= end <= |frontier| && Expanded(ids, up, seen1, seen0, frontier, k) && seen1 <= seen
    requires forall x :: x in ids && x in up && up[x] in frontier[k..end] ==> x in seen
    ensures Expanded(ids, up, seen, seen0, frontier, end)
  {
    assert frontier[k..] == frontier[k..end] + frontier[end..];
  }

  lemma LevelClosed(ids: seq<nat>, up: map<nat, nat>, seen: set<nat>, seen0: set<nat>, frontier: seq<nat>,
                    found: seq<nat>)
    requires Expanded(ids, up, seen, seen0, frontier, |frontier|) && seen == seen0 + Elements(found)
    ensures ClosedBut(ids, up, seen, found)
  {
    forall x | x in ids && x in up && up[x] in seen && up[x] !in found ensures x in seen {
      assert up[x] !in Elements(found);
    }
  }

  /** One query: the rows under a batch of devices, in id order, less those already seen. */
  method ExpandBatch(ids: seq<nat>, up: map<nat, nat>, ghost d: nat, seen0: set<nat>, out0: seq<nat>,
                     batch: seq<nat>, maxTotal: nat)
      returns (out: seq<nat>, seen: set<nat>, found: seq<nat>)
    requires Walked(ids, up, d, seen0, out0, maxTotal) && Elements(batch) <= seen0 && |out0| < maxTotal
    ensures Walked(ids, up, d, seen, out, maxTotal)
    ensures seen == seen0 + Elements(found) && Elements(found) <= Elements(ids) && Elements(found) !! seen0
    ensures |out| < maxTotal ==> forall x :: x in ids && x in up && up[x] in batch ==> x in seen
  {
    out, seen, found := out0, seen0, [];
    for r := 0 to |ids|
      invariant Walked(ids, up, d, seen, out, maxTotal) && |out| < maxTotal
      invariant seen == seen0 + Elements(found) && Elements(found) <= Elements(ids) && Elements(found) !! seen0
      invariant forall m :: 0 <= m < r && ids[m] in up && up[ids[m]] in batch ==> ids[m] in seen
    {
      var child := ids[r];
      if child !in up || up[child] !in batch || child in seen {
        continue;
      }
      assert up[child] in Elements(batch);
      OneChildMore(ids, up, d, seen, out, maxTotal, child);
      assert Elements(found + [child]) == Elements(found) + {child};
      out, seen, found := out + [child], seen + {child}, found + [child];
      if |out| >= maxTotal {
        return;
      }
    }
  }

  // ------------------------------------------------------- acyclic topologies

  /** Everything beneath a device. */
  ghost function Descendants(up: map<nat, nat>, level: map<nat, nat>, a: nat): set<nat>
    requires Levelled(up, level)
  {
    set x | x in level && a in Ancestors(up, level, x)
  }

  lemma {:induction false} AncestorsDescend(up: map<nat, nat>, level: map<nat, nat>, x: nat, a: nat)
    requires Levelled(up, level) && x in level
    ensures a in Ancestors(up, level, x) <==> Descends(up, x, a)
    decreases level[x]
  {
    if x in up {
      AncestorsDescend(up, level, up[x], a);
      if a in Ancestors(up, level, x) {
        ChildDescends(up, x, a);
      }
      if Descends(up, x, a) {
        var n: nat :| n > 0 && Above(up, x, n) == Some(a);
        assert Above(up, up[x], n - 1) == Some(a);
      }
    }
  }

  /** The walk down an acyclic topology keeps its promise about all devices beneath. */
  lemma WalkedDownAcyclic(ids: seq<nat>, up: map<nat, nat>, level: map<nat, nat>, d: nat)
    requires Levelled(up, level) && Elements(ids) == level.Keys
    ensures BelowIn(ids, up, d) == Descendants(up, level, d)
  {
    forall x | x in level
      ensures x in ids && (IsAbove(up, level, d, x) <==> x != d && Descends(up, x, d))
    {
      assert x in Elements(ids);
      AncestorsDescend(up, level, x, d);
    }
    forall x | x in ids ensures x in level {
      assert x in Elements(ids);
    }
  }

  ghost predicate IsAbove(up: map<nat, nat>, level: map<nat, nat>, d: nat, x: nat)
    requires Levelled(up, level) && x in level
  {
    d in Ancestors(up, level, x)
  }

  /** The reads of the nodes database over this topology: the chain as upstream_chain walks it, and
      beneath a device what downstream_ids promises. */
  ghost predicate Serves(n: Nodes, up: map<nat, nat>, level: map<nat, nat>) {
    && Levelled(up, level)
    && n.chain.Keys == level.Keys
    && (forall d :: d in level ==> n.chain[d] == Climb(up, d, {d}, MAX_DEPTH))
    && (forall a ::
          CappedBelow(if a in n.down then n.down[a] else [], Descendants(up, level, a), MAX_TOTAL))
  }

  lemma ServedChain(n: Nodes, up: map<nat, nat>, level: map<nat, nat>, x: nat, a: nat)
    requires Serves(n, up, level)
    ensures a in n.UpstreamChain(x) <==>
            x in level && a in Ancestors(up, level, x) && level[a] + MAX_DEPTH >= level[x]
  {
    if x in level {
      ClimbIsAncestorPrefix(up, level, x, {x}, MAX_DEPTH);
      var above := Ancestors(up, level, x);
      var chain := n.UpstreamChain(x);
      assert chain == above[..|chain|];
      if a in above && level[a] + MAX_DEPTH >= level[x] {
        var i :| 0 <= i < |above| && above[i] == a;
        assert chain[i] == a;
      }
    }
  }

  lemma {:induction false} ElementsCount(ids: seq<nat>)
    requires Distinct(ids)
    ensures |Elements(ids)| == |ids|
  {
    if ids != [] {
      var init, last := ids[..|ids| - 1], ids[|ids| - 1];
      ElementsCount(init);
      assert Elements(ids) == Elements(init) + {last};
    } else {
      assert Elements(ids) == {};
    }
  }

  lemma {:induction false} SubsetCount(a: set<nat>, b: set<nat>)
    requires a <= b
    ensures |a| <= |b| && (|a| == |b| ==> a == b)
  {
    if a != {} {
      var x :| x in a;
      SubsetCount(a - {x}, b - {x});
    } else if |b| == 0 {
      assert b == {};
    }
  }

  /** A capped walk reaches everything exactly when everything fits under the cap. */
  lemma CapReachesAllExactly(out: seq<nat>, below: set<nat>, cap: nat)
    requires CappedBelow(out, below, cap)
    ensures Elements(out) == below <==> |below| <= cap
  {
    ElementsCount(out);
    SubsetCount(Elements(out), below);
  }

  /** At most two thousand devices beneath any one. */
  ghost predicate WithinCap(up: map<nat, nat>, level: map<nat, nat>)
    requires Levelled(up, level)
  {
    forall a :: |Descendants(up, level, a)| <= 2000
  }

  ghost predicate BeneathIsDescent(n: Nodes, up: map<nat, nat>, level: map<nat, nat>)
    requires Levelled(up, level)
  {
    forall x, a :: Beneath(n, x, a) <==> x in Descendants(up, level, a)
  }

  lemma WithinCapMeans(n: Nodes, up: map<nat, nat>, level: map<nat, nat>)
    requires Serves(n, up, level)
    ensures WithinCap(up, level) <==> BeneathIsDescent(n, up, level)
  {
    forall a ensures |Descendants(up, level, a)| <= MAX_TOTAL <==>
        Elements(n.DownstreamIds(a)) == Descendants(up, level, a) {
      CapReachesAllExactly(n.DownstreamIds(a), Descendants(up, level, a), MAX_TOTAL);
    }
    if BeneathIsDescent(n, up, level) {
      forall a ensures Elements(n.DownstreamIds(a)) == Descendants(up, level, a) {
        assert forall x :: x in Elements(n.DownstreamIds(a)) <==> Beneath(n, x, a);
      }
    }
    if WithinCap(up, level) {
      forall x, a ensures Beneath(n, x, a) <==> x in Descendants(up, level, a) {
        assert x in Elements(n.DownstreamIds(a)) <==> Beneath(n, x, a);
      }
    }
  }

  /** In sound reads everything above a device has it beneath: hop by hop. */
  lemma {:induction false} SoundReachesAll(n: Nodes, up: map<nat, nat>, level: map<nat, nat>, x: nat, a: nat)
    requires Serves(n, up, level) && Sound(n) && x in level && a in Ancestors(up, level, x)
    ensures Beneath(n, x, a)
    decreases level[x]
  {
    ServedChain(n, up, level, x, up[x]);
    assert up[x] in n.UpstreamChain(x);
    if a != up[x] {
      SoundReachesAll(n, up, level, up[x], a);
    }
  }

  /** Over an acyclic topology the two reads are sound exactly when no device has more than two thousand
      beneath it: past the cap, some device has an upstream on its chain that does not list it. */
  lemma SoundExactlyWithinCap(n: Nodes, up: map<nat, nat>, level: map<nat, nat>)
    requires Serves(n, up, level)
    ensures Sound(n) <==> WithinCap(up, level)
  {
    WithinCapMeans(n, up, level);
    if WithinCap(up, level) {
      WithinCapIsSound(n, up, level);
    }
    if Sound(n) {
      forall x, a ensures Beneath(n, x, a) <==> x in Descendants(up, level, a) {
        if x in Descendants(up, level, a) {
          SoundReachesAll(n, up, level, x, a);
        }
        assert Beneath(n, x, a) ==> x in Elements(n.DownstreamIds(a));
      }
    }
  }

  lemma WithinCapIsSound(n: Nodes, up: map<nat, nat>, level: map<nat, nat>)
    requires Serves(n, up, level) && BeneathIsDescent(n, up, level)
    ensures Sound(n)
  {
    forall x, a | a in n.UpstreamChain(x)
      ensures Beneath(n, x, a)
    {
      ServedChain(n, up, level, x, a);
    }
    forall x, b, a | Beneath(n, x, b) && Beneath(n, b, a)
      ensures Beneath(n, x, a)
    {
      AncestorsCompose(up, level, x, b, a);
    }
  }

  /** They agree exactly when besides no device has more than eight devices above it. */
  lemma AgreementIsDepthEightWithinCap(n: Nodes, up: map<nat, nat>, level: map<nat, nat>)
    requires Serves(n, up, level)
    ensures Agreeing(n) <==> WithinCap(up, level) && forall d :: d in level ==> level[d] <= 8
  {
    SoundExactlyWithinCap(n, up, level);
    WithinCapMeans(n, up, level);
    if Sound(n) {
      AgreementIsDepthEight(n, up, level);
    }
  }

  lemma AgreementIsDepthEight(n: Nodes, up: map<nat, nat>, level: map<nat, nat>)
    requires Serves(n, up, level) && Sound(n) && BeneathIsDescent(n, up, level)
    ensures Agreeing(n) <==> forall d :: d in level ==> level[d] <= MAX_DEPTH
  {
    if forall d :: d in level ==> level[d] <= MAX_DEPTH {
      forall x, a | Beneath(n, x, a)
        ensures a in n.UpstreamChain(x)
      {
        ServedChain(n, up, level, x, a);
      }
    } else {
      var d :| d in level && level[d] > MAX_DEPTH;
      var a := Ancestors(up, level, d)[MAX_DEPTH];
      ServedChain(n, up, level, d, a);
      assert Beneath(n, d, a) && a !in n.UpstreamChain(d);
    }
  }
}
