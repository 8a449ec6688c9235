/**
 The queue of occurrences the application raises about itself: appended from any
 thread, snapshotted without removal by a tick's drain, and dropped by count once
 the tick has fully succeeded.
 */
module SystemQueue {
  import opened Wrappers

  /** _SYSTEM_OCCURRENCES_CAP. */
  const CAP: nat := 1000

  function Capped<T>(q: seq<T>): seq<T> {
    if |q| > CAP then q[|q| - CAP..] else q
  }

  function Drop<T>(q: seq<T>, n: nat): seq<T> {
    if n <= |q| then q[n..] else []
  }

  class OccurrenceQueue<T> {
    var occurrences: seq<T>
    var inflight: seq<T>

    constructor ()
      ensures occurrences == [] && inflight == []
    {
      occurrences, inflight := [], [];
    }

    /** system_occurrence. */
    method Raise(x: T)
      modifies this`occurrences
      ensures occurrences == Capped(old(occurrences) + [x])
    {
      occurrences := occurrences + [x];
      if |occurrences| > CAP {
        occurrences := occurrences[|occurrences| - CAP..];
      }
    }

    /** _drain_system_occurrences; `clearsFail` is whether resolving the queued clears raises, in
        which case the stage yields nothing and the previous snapshot stays in place. */
    method Snapshot(clearsFail: bool) returns (pending: seq<T>)
      modifies this`inflight
      ensures !clearsFail ==> pending == occurrences && inflight == occurrences
      ensures clearsFail ==> pending == [] && inflight == old(inflight)
    {
      if clearsFail {
        return [];
      }
      pending := occurrences;
      inflight := pending;
    }

    /** _commit_system_drain. */
    method Commit()
      modifies this
      ensures occurrences == Drop(old(occurrences), |old(inflight)|) && inflight == []
    {
      var n := |inflight|;
      inflight := [];
      occurrences := if n <= |occurrences| then occurrences[n..] else [];
    }
  }

  // ------------------------------------------------------------ interleavings

  datatype Event<T> =
    | Append(x: T)                    // any thread
    | BeginTick
    | DrainStage(clearsFail: bool)
    | ApplyLoop
    | CommitTick
    | AbortTick

  /** The queue beside its history: everything ever appended, how many of those have left the queue,
      and how many have been through an apply loop. `start` is where in the history the snapshot in
      flight begins, `batch` the end of what this tick's drain handed over; `looped` is whether this
      tick's apply loop has run. */
  datatype Queue<T> = Queue(
    occurrences: seq<T>, inflight: seq<T>,
    appended: seq<T>, gone: nat, applied: nat, start: nat, batch: Option<nat>, looped: bool)

  function Next<T>(q: Queue<T>, v: Event<T>): Queue<T> {
    match v
    case Append(x) =>
      var grown := q.occurrences + [x];
      q.(occurrences := Capped(grown), appended := q.appended + [x], gone := q.gone + |grown| - |Capped(grown)|)
    case BeginTick => q.(batch := None, looped := false)
    case DrainStage(clearsFail) =>
      if clearsFail then q
      else q.(inflight := q.occurrences, start := q.gone, batch := Some(q.gone + |q.occurrences|))
    case ApplyLoop =>
      q.(applied := if q.batch.Some? then Greatest(q.applied, q.batch.value) else q.applied, looped := true)
    case CommitTick =>
      var rest := Drop(q.occurrences, |q.inflight|);
      q.(occurrences := rest, inflight := [], gone := q.gone + |q.occurrences| - |rest|, batch := None, looped := false)
    case AbortTick => q.(batch := None, looped := false)
  }

  /** The order of a tick: its drain comes before its apply loop, its commit after it. Anything else
      may happen at any moment: appends, trims, failing drains, aborted ticks. */
  predicate InOrder<T>(q: Queue<T>, v: Event<T>) {
    match v
    case DrainStage(_) => !q.looped
    case CommitTick => q.looped
    case _ => true
  }

  ghost predicate Inv<T>(q: Queue<T>) {
    && q.gone <= |q.appended| && q.occurrences == q.appended[q.gone..] && |q.occurrences| <= CAP
    && q.start <= q.gone && |q.inflight| <= |q.occurrences|
    && q.inflight == q.appended[q.start..q.start + |q.inflight|]
    && q.applied <= |q.appended|
    && (q.batch.Some? ==> q.batch.value <= |q.appended| && q.applied <= q.batch.value)
    && (q.batch.Some? && q.looped ==> q.applied == q.batch.value)
    && (q.batch.Some? && q.inflight != [] ==> q.batch.value == q.start + |q.inflight|)
  }

  function Run<T>(q: Queue<T>, events: seq<Event<T>>): Queue<T> {
    if events == [] then q else Next(Run(q, events[..|events| - 1]), events[|events| - 1])
  }

  predicate InOrderRun<T>(q: Queue<T>, events: seq<Event<T>>) {
    events == [] ||
    (InOrderRun(q, events[..|events| - 1]) && InOrder(Run(q, events[..|events| - 1]), events[|events| - 1]))
  }

  /** How many items leave the queue in one step without having been through an apply loop. */
  function Lost<T>(q: Queue<T>, v: Event<T>): nat {
    var after, kept := Next(q, v).gone, Greatest(q.gone, q.applied);
    if after > kept then after - kept else 0
  }

  /** How many an append drops at the cap, and a commit by count, over a run. */
  function LostBy<T>(q: Queue<T>, events: seq<Event<T>>, commits: bool): nat {
    if events == [] then 0
    else
      var init, last := events[..|events| - 1], events[|events| - 1];
      LostBy(q, init, commits) + if last.CommitTick? == commits then Lost(Run(q, init), last) else 0
  }

  function Empty<T>(): Queue<T> {
    Queue([], [], [], 0, 0, 0, None, false)
  }

  lemma AppendKeepsInv<T>(q: Queue<T>, x: T)
    requires Inv(q)
    ensures Inv(Next(q, Append(x)))
    ensures Lost(q, Append(x)) == if |q.occurrences| == CAP && q.applied <= q.gone then 1 else 0
  {
  }

  lemma StepKeepsInv<T>(q: Queue<T>, v: Event<T>)
    requires Inv(q) && InOrder(q, v)
    ensures Inv(Next(q, v)) && q.gone <= Next(q, v).gone && q.applied <= Next(q, v).applied
    ensures Lost(q, v) > 0 ==> v.Append? || v.CommitTick?
  {
    match v
    case Append(x) => AppendKeepsInv(q, x);
    case CommitTick => CommitKeepsInv(q);
    case _ =>
  }

  lemma CommitKeepsInv<T>(q: Queue<T>)
    requires Inv(q) && InOrder(q, CommitTick)
    ensures Inv(Next(q, CommitTick)) && q.gone <= Next(q, CommitTick).gone && q.applied <= Next(q, CommitTick).applied
  {
  }

  /** Under every interleaving of appends and ticks, failed or not: the queue is what was appended
      less what has gone, in order; what a tick holds is a slice of the history; and what has gone had
      been through an apply loop, except for what the cap dropped and what a commit lost. */
  lemma {:induction false} NothingLeavesUnapplied<T>(events: seq<Event<T>>)
    requires InOrderRun(Empty<T>(), events)
    ensures
      var q := Run(Empty<T>(), events);
      && Inv(q)
      && q.gone <= q.applied + LostBy(Empty<T>(), events, true) + LostBy(Empty<T>(), events, false)
  {
    if events != [] {
      NothingLeavesUnapplied(events[..|events| - 1]);
      StepKeepsInv(Run(Empty<T>(), events[..|events| - 1]), events[|events| - 1]);
    }
  }

  /** The item leaves in this step, having been through an apply loop, dropped by the cap, or thrown away by a
      commit after a trim or a failed drain. */
  ghost predicate LeavesBy<T>(q: Queue<T>, v: Event<T>, i: nat) {
    && q.gone <= i < Next(q, v).gone
    && (|| i < q.applied
        || (v.Append? && |q.occurrences| == 1000)
        || (v.CommitTick? && q.inflight != []
            && if q.batch.Some? then q.gone > q.start else q.gone + |q.inflight| > q.applied))
  }

  /** Item by item, over every run in order: each that has gone left in one step, in one of those ways. */
  lemma {:induction false} EachItemLeavesOnce<T>(events: seq<Event<T>>, i: nat)
    requires InOrderRun(Empty<T>(), events) && i < Run(Empty<T>(), events).gone
    ensures exists j :: 0 <= j < |events| && LeavesBy(Run(Empty<T>(), events[..j]), events[j], i)
  {
    var init, last := events[..|events| - 1], events[|events| - 1];
    var before := Run(Empty<T>(), init);
    NothingLeavesUnapplied(init);
    if i < before.gone {
      EachItemLeavesOnce(init, i);
      var j :| 0 <= j < |init| && LeavesBy(Run(Empty<T>(), init[..j]), init[j], i);
      assert events[..j] == init[..j];
    } else {
      StepKeepsInv(before, last);
      if last.CommitTick? {
        CommitLosesExactly(before);
      }
      assert LeavesBy(before, last, i);
    }
  }

  /** Exactly when, and how many items, a commit loses, in any state a run can reach. After its own
      tick's drain: as many as the cap has trimmed since the snapshot. After a failed drain: what an
      earlier tick left in flight and no apply loop has had. */
  lemma CommitLosesExactly<T>(q: Queue<T>)
    requires Inv(q) && InOrder(q, CommitTick)
    ensures
      var left := q.gone + |q.inflight|;
      Lost(q, CommitTick) ==
      if q.batch.Some? then if q.gone - q.start < |q.inflight| then q.gone - q.start else |q.inflight|
      else if left > Greatest(q.gone, q.applied) then left - Greatest(q.gone, q.applied) else 0
    ensures Lost(q, CommitTick) > 0 <==>
            q.inflight != [] && if q.batch.Some? then q.gone > q.start else q.gone + |q.inflight| > q.applied
  {
  }

  /** A commit with no trim since its snapshot removes exactly the slice its tick handed over; what was
      appended since stays, in order. */
  lemma CommitRemovesExactlyItsSlice<T>(q: Queue<T>)
    requires Inv(q) && q.gone == q.start
    ensures q.occurrences == q.inflight + Next(q, CommitTick).occurrences
  {
  }

  /** A failed tick is followed by one that hands over what is in the queue by then: the same items
      again, first and in order, with whatever was appended meanwhile -- less what the cap dropped. */
  lemma FailedTickRedelivers<T>(q: Queue<T>, more: seq<T>)
    requires Inv(q)
    ensures
      var again := Next(AppendAll(Next(q, AbortTick), more), DrainStage(false)).inflight;
      && (|q.occurrences| + |more| <= 1000 ==> again == q.occurrences + more)
      && (|q.occurrences| + |more| > 1000 ==>
            |again| == 1000 && again == (q.occurrences + more)[|q.occurrences| + |more| - 1000..])
      && (q.gone == q.start && |q.occurrences| + |more| <= 1000 ==> q.inflight <= again)
  {
    AppendAllGrows(Next(q, AbortTick), more);
    if q.gone == q.start {
      CommitRemovesExactlyItsSlice(q);
      Regroup(q.inflight, Next(q, CommitTick).occurrences, more);
    }
  }

  lemma Regroup<T>(a: seq<T>, b: seq<T>, c: seq<T>)
    ensures a <= (a + b) + c
  {
  }

  function AppendAll<T>(q: Queue<T>, xs: seq<T>): Queue<T> {
    if xs == [] then q else Next(AppendAll(q, xs[..|xs| - 1]), Append(xs[|xs| - 1]))
  }

  /** What any number of appends leave: the newest items up to the cap, and the rest gone. */
  lemma {:induction false} AppendAllGrows<T>(q: Queue<T>, xs: seq<T>)
    requires |q.occurrences| <= CAP
    ensures
      var after, grown := AppendAll(q, xs), q.occurrences + xs;
      && after.occurrences == Capped(grown) && after.gone == q.gone + |grown| - |Capped(grown)|
      && after == q.(occurrences := after.occurrences, gone := after.gone, appended := q.appended + xs)
  {
    if xs != [] {
      var init, last := xs[..|xs| - 1], xs[|xs| - 1];
      AppendAllGrows(q, init);
      assert xs == init + [last];
      AppendAssociates(q.occurrences, init, last);
      AppendAssociates(q.appended, init, last);
      CappedTwice(q.occurrences + init, last);
    } else {
      assert q.occurrences + xs == q.occurrences && q.appended + xs == q.appended;
    }
  }

  lemma AppendAssociates<T>(s: seq<T>, init: seq<T>, last: T)
    ensures s + (init + [last]) == (s + init) + [last]
  {
  }

  lemma CappedTwice<T>(s: seq<T>, x: T)
    ensures Capped(Capped(s) + [x]) == Capped(s + [x])
  {
  }

  /** A tick in which nothing fails is in order, and all that was in the queue leaves it by the apply loop; what
      is appended meanwhile stays, up to the cap. */
  lemma CleanTickEmptiesTheQueue<T>(q: Queue<T>, x: T)
    requires Inv(q)
    ensures
      var begun := Next(q, BeginTick);
      var drained := Next(begun, DrainStage(false));
      var applied := Next(drained, ApplyLoop);
      var done := Next(applied, CommitTick);
      && InOrder(q, BeginTick) && InOrder(begun, DrainStage(false)) && InOrder(drained, ApplyLoop)
      && InOrder(applied, CommitTick) && InOrder(done, DrainStage(false))
      && drained.inflight == q.occurrences
      && done.occurrences == [] && done.gone == |done.appended| == done.applied && Lost(applied, CommitTick) == 0
      && (|q.occurrences| < 1000 ==>
            Next(Next(applied, Append(x)), CommitTick).occurrences == [x]
            && Lost(Next(applied, Append(x)), CommitTick) == 0)
  {
  }

  // ---------------------------------------------- the two ways it loses items

  /** A trim between snapshot and commit makes the commit, which deletes by count, throw away items no
      apply loop has had: of n appends, exactly as many as the cap dropped, up to all it handed out. */
  lemma TrimBeforeCommitLosesItems<T>(q: Queue<T>, more: seq<T>)
    requires Inv(q) && q.batch.Some? && q.looped && q.gone == q.start
    ensures
      var dropped := if |q.occurrences| + |more| > 1000 then |q.occurrences| + |more| - 1000 else 0;
      var later := AppendAll(q, more);
      && Inv(later) && later.gone == q.gone + dropped && later.applied == q.applied
      && Lost(later, CommitTick) == if dropped < |q.inflight| then dropped else |q.inflight|
  {
    AppendAllGrows(q, more);
    AppendsKeepInv(q, more);
    CommitLosesExactly(AppendAll(q, more));
  }

  lemma {:induction false} AppendsKeepInv<T>(q: Queue<T>, xs: seq<T>)
    requires Inv(q)
    ensures Inv(AppendAll(q, xs))
  {
    if xs != [] {
      AppendsKeepInv(q, xs[..|xs| - 1]);
      StepKeepsInv(AppendAll(q, xs[..|xs| - 1]), Append(xs[|xs| - 1]));
    }
  }

  /** The shortest run of the other kind: a tick fails after its drain, the next tick's drain fails,
      and that tick commits the first one's item, which no apply loop has had. */
  lemma FailedDrainAfterFailedTickLosesItems<T>(x: T)
    ensures
      var events := [Append(x), BeginTick, DrainStage(false), AbortTick, BeginTick, DrainStage(true), ApplyLoop];
      var q := Run(Empty<T>(), events);
      InOrderRun(Empty<T>(), events) && InOrder(q, CommitTick) && q.applied == 0 && Lost(q, CommitTick) == 1
  {
    var e0 := Empty<T>();
    var first, second := [Append(x), BeginTick, DrainStage(false), AbortTick], [BeginTick, DrainStage(true), ApplyLoop];
    var mid := Queue([x], [x], [x], 0, 0, 0, None, false);
    RunFour(e0, first[0], first[1], first[2], first[3]);
    assert Run(e0, first) == mid;
    RunFour(mid, second[0], second[1], second[2], CommitTick);
    assert Run(mid, second) == mid.(looped := true);
    RunAppends(e0, first, second);
    assert first + second == [Append(x), BeginTick, DrainStage(false), AbortTick, BeginTick, DrainStage(true),
                              ApplyLoop];
  }

  lemma RunFour<T>(q: Queue<T>, a: Event<T>, b: Event<T>, c: Event<T>, d: Event<T>)
    ensures
      var (q1, q2, q3) := (Next(q, a), Next(Next(q, a), b), Next(Next(Next(q, a), b), c));
      && Run(q, [a, b, c]) == q3 && Run(q, [a, b, c, d]) == Next(q3, d)
      && (InOrder(q, a) && InOrder(q1, b) && InOrder(q2, c) ==> InOrderRun(q, [a, b, c]))
      && (InOrder(q, a) && InOrder(q1, b) && InOrder(q2, c) && InOrder(q3, d) ==> InOrderRun(q, [a, b, c, d]))
  {
    assert [a, b, c, d][..3] == [a, b, c] && [a, b, c][..2] == [a, b] && [a, b][..1] == [a] && [a][..0] == [];
    assert Run(q, [a]) == Next(q, a) && Run(q, [a, b]) == Next(Next(q, a), b);
    assert InOrderRun(q, [a]) == InOrder(q, a);
  }

  lemma {:induction false} RunAppends<T>(q: Queue<T>, a: seq<Event<T>>, b: seq<Event<T>>)
    ensures Run(q, a + b) == Run(Run(q, a), b)
    ensures InOrderRun(q, a + b) <==> InOrderRun(q, a) && InOrderRun(Run(q, a), b)
  {
    if b == [] {
      assert a + b == a;
    } else {
      assert (a + b)[..|a + b| - 1] == a + b[..|b| - 1];
      RunAppends(q, a, b[..|b| - 1]);
    }
  }
}
