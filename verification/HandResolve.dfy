/**
 A hand resolve holds for the whole breach run it resolved. The gate is proved
 once on the shared step and then read off the histories of the device, DHCP and
 NetPath evaluators.
 */
module HandResolve {
  import opened Wrappers
  import opened Thresholds
  import opened Streaks

  /** OPERATOR_RESOLVE_WINDOW_S: seven days. */
  const RESOLVE_WINDOW := 7.0 * 86400.0

  /** What a tick at `now` reads of a hand resolve at r (operator_resolved_since). */
  function ResolveRead(r: real, now: real): Option<real> {
    if r >= now - RESOLVE_WINDOW then Some(r) else None
  }

  /** Whether the last look of a history raises an occurrence. */
  ghost predicate LastRaises(rule: ThresholdRule, h: seq<Item>, keyOpen: bool, handResolve: Option<real>)
    requires h != []
  {
    var n := |h| - 1;
    Raises(rule, h[n].limits, Fold(rule, h[..n]), h[n].look, keyOpen, handResolve)
  }

  /** The last look shows a sample already looked at, to an alert still open. */
  ghost predicate AlreadyReported(rule: ThresholdRule, h: seq<Item>, keyOpen: bool)
    requires h != []
  {
    var n := |h| - 1;
    h[n].look.ts.Some? && h[n].look.ts == Carried(Fold(rule, h[..n]), h[n].look).ts && keyOpen
  }

  /** A breaching look of a run that began at j raises exactly when the resolve read this tick,
      if there is one, came before the run began -- and the sample is news. */
  lemma ResolveGatesExactlyItsRun(rule: ThresholdRule, h: seq<Item>, j: nat, keyOpen: bool, r: real, now: real)
    requires h != [] && Sampled(rule, h) && BeganAt(rule, h, j)
    requires StepAt(rule, h).1 == Breach
    ensures LastRaises(rule, h, keyOpen, ResolveRead(r, now)) <==>
            (r < now - 604800.0 || r < h[j].look.ts.value) && !AlreadyReported(rule, h, keyOpen)
  {
    FirstBreachIsWhereTheRunBegan(rule, h);
    assert Fold(rule, h).first == h[j].look.ts;
  }

  /** From the resolve on, for as long as the run lasts and the resolve is inside its window, no
      look raises anything. */
  lemma HandResolveHoldsForTheRun(rule: ThresholdRule, h: seq<Item>, j: nat, r: real)
    requires Sampled(rule, h) && BeganAt(rule, h, j) && h[j].look.ts.value <= r
    ensures forall n, now, keyOpen :: j < n <= |h| && now <= r + 604800.0 ==>
              !LastRaises(rule, h[..n], keyOpen, ResolveRead(r, now))
  {
    forall n, now, keyOpen | j < n <= |h| && now <= r + 604800.0
      ensures !LastRaises(rule, h[..n], keyOpen, ResolveRead(r, now))
    {
      BeganEarlier(rule, h, j, n);
      SampledPrefix(rule, h, n);
      if StepAt(rule, h[..n]).1 == Breach {
        ResolveGatesExactlyItsRun(rule, h[..n], j, keyOpen, r, now);
      }
    }
  }

  lemma BeganEarlier(rule: ThresholdRule, h: seq<Item>, j: nat, n: nat)
    requires BeganAt(rule, h, j) && j < n <= |h|
    ensures BeganAt(rule, h[..n], j)
  {
    forall m: nat | m < j
      ensures Alive(rule, h[..n], m) ==> Alive(rule, h, m)
    {
      if Alive(rule, h[..n], m) {
        assert forall i :: m < i < n ==> h[..n][i] == h[i];
      }
    }
  }

  // -------------------------------------------------------- device histories

  /** One tick's look at a device target: the limits in force, the stored sample, the clock. */
  datatype Obs = Obs(limits: Limits, sample: Sample, now: real)

  function FoldDevice(rule: ThresholdRule, staleAfter: real, h: seq<Obs>): Entry {
    if h == [] then NO_ENTRY
    else
      var n := |h| - 1;
      DeviceStep(rule, h[n].limits, FoldDevice(rule, staleAfter, h[..n]), h[n].sample, h[n].now, staleAfter).0
  }

  /** The device evaluator's history, as looks of the shared step. */
  function DeviceItems(rule: ThresholdRule, staleAfter: real, h: seq<Obs>): (items: seq<Item>)
    ensures |items| == |h|
  {
    if h == [] then []
    else
      var n := |h| - 1;
      var o := h[n];
      DeviceItems(rule, staleAfter, h[..n]) +
      [Item(o.limits, DeviceLook(rule, o.limits, FoldDevice(rule, staleAfter, h[..n]),
                                 Seen(o.sample, o.now, staleAfter), staleAfter))]
  }

  lemma {:induction false} DeviceFoldsTheSharedStep(rule: ThresholdRule, staleAfter: real, h: seq<Obs>)
    ensures FoldDevice(rule, staleAfter, h).run == Fold(rule, DeviceItems(rule, staleAfter, h))
    ensures h != [] ==> FoldDevice(rule, staleAfter, h).limits == h[|h| - 1].limits
  {
    if h != [] {
      var n := |h| - 1;
      DeviceFoldsTheSharedStep(rule, staleAfter, h[..n]);
      var items := DeviceItems(rule, staleAfter, h);
      assert items[..n] == DeviceItems(rule, staleAfter, h[..n]);
    }
  }

  /** The timestamp a device look shows. */
  function SeenTs(o: Obs, staleAfter: real): Option<real> {
    Seen(o.sample, o.now, staleAfter).ts
  }

  /** Two looks show one timestamp. */
  predicate SameSeen(x: Obs, y: Obs, staleAfter: real) {
    SeenTs(x, staleAfter).Some? && SeenTs(x, staleAfter) == SeenTs(y, staleAfter)
  }

  /** What each look of a device history is: it restarts the run when the limits in force changed
      or the samples on either side are too far apart. */
  lemma {:induction false} DeviceItemAt(rule: ThresholdRule, staleAfter: real, h: seq<Obs>, i: nat)
    requires i < |h|
    ensures
      var x := DeviceItems(rule, staleAfter, h)[i];
      var seen := Seen(h[i].sample, h[i].now, staleAfter);
      && x.limits == h[i].limits && x.look.value == seen.value && x.look.ts == seen.ts
      && x.look.over == Breaches(rule, h[i].limits, seen.value)
      && (i > 0 ==> (x.look.restart <==>
            || h[i - 1].limits != h[i].limits
            || (seen.value.Some? && GapBefore(SeenTs(h[i - 1], staleAfter), seen.ts, staleAfter))))
  {
    var n := |h| - 1;
    if i < n {
      DeviceItemAt(rule, staleAfter, h[..n], i);
    } else if i > 0 {
      DeviceFoldsTheSharedStep(rule, staleAfter, h[..n]);
      DeviceItemAt(rule, staleAfter, h[..n], i - 1);
    }
  }

  /** The poller's samples are real: a value carries its timestamp, what is shown never goes back
      in time, and equal timestamps are one sample, shown for consecutive looks. */
  ghost predicate RealSamples(staleAfter: real, h: seq<Obs>) {
    && (forall i :: 0 <= i < |h| && h[i].sample.value.Some? ==> h[i].sample.ts.Some?)
    && (forall i, j :: 0 <= i < j < |h| && SeenTs(h[i], staleAfter).Some? && SeenTs(h[j], staleAfter).Some? ==>
          SeenTs(h[i], staleAfter).value <= SeenTs(h[j], staleAfter).value)
    && (forall i, j :: 0 <= i < j < |h| && SameSeen(h[i], h[j], staleAfter) ==>
          h[i].sample == h[j].sample)
    && (forall i, m, j :: 0 <= i < m < j < |h| && SameSeen(h[i], h[j], staleAfter) ==>
          SeenTs(h[m], staleAfter) == SeenTs(h[j], staleAfter))
  }

  /** `x` is a look at `o`. */
  ghost predicate LooksAt(rule: ThresholdRule, staleAfter: real, x: Item, o: Obs) {
    && x.limits == o.limits && x.look.ts == SeenTs(o, staleAfter)
    && x.look.value == Seen(o.sample, o.now, staleAfter).value
    && x.look.over == Breaches(rule, o.limits, x.look.value)
  }

  /** Looks at real samples, each restarted where the limits change. */
  ghost predicate LooksAtAll(rule: ThresholdRule, staleAfter: real, items: seq<Item>, h: seq<Obs>) {
    && |items| == |h| && (forall i :: 0 <= i < |h| ==> LooksAt(rule, staleAfter, items[i], h[i]))
    && forall i, j :: 0 <= i && j == i + 1 && j < |h| && !items[j].look.restart ==> h[i].limits == h[j].limits
  }

  lemma LooksAreInOrder(rule: ThresholdRule, staleAfter: real, h: seq<Obs>, items: seq<Item>, i: nat, m: nat, j: nat)
    requires RealSamples(staleAfter, h) && LooksAtAll(rule, staleAfter, items, h) && i < j < |items|
    requires items[i].look.ts.Some? && items[j].look.ts.Some?
    ensures items[i].look.ts.value <= items[j].look.ts.value
    ensures items[i].look.ts == items[j].look.ts && i < m < j ==> items[m].look.ts == items[j].look.ts
    ensures j == i + 1 && ShownAgain(items[i], items[j]) ==> SameCount(rule, items[i], items[j])
  {
  }

  lemma LooksAreSampled(rule: ThresholdRule, staleAfter: real, h: seq<Obs>, items: seq<Item>)
    requires RealSamples(staleAfter, h) && LooksAtAll(rule, staleAfter, items, h)
    ensures Sampled(rule, items)
  {
    forall i | 0 <= i < |items|
      ensures items[i].look.value.Some? ==> items[i].look.ts.Some?
      ensures items[i].look.over ==> items[i].look.value.Some?
    {
      assert LooksAt(rule, staleAfter, items[i], h[i]);
    }
    forall i, j | 0 <= i < j < |items| && items[i].look.ts.Some? && items[j].look.ts.Some?
      ensures items[i].look.ts.value <= items[j].look.ts.value
    {
      LooksAreInOrder(rule, staleAfter, h, items, i, i, j);
    }
    forall i, m, j | 0 <= i < m < j < |items| && items[i].look.ts.Some? && items[i].look.ts == items[j].look.ts
      ensures items[m].look.ts == items[j].look.ts
    {
      LooksAreInOrder(rule, staleAfter, h, items, i, m, j);
    }
    forall i, j | 0 <= i && j == i + 1 && j < |items| && ShownAgain(items[i], items[j])
      ensures SameCount(rule, items[i], items[j])
    {
      LooksAreInOrder(rule, staleAfter, h, items, i, i, j);
    }
  }

  lemma DeviceHistoryIsSampled(rule: ThresholdRule, staleAfter: real, h: seq<Obs>)
    requires RealSamples(staleAfter, h)
    ensures Sampled(rule, DeviceItems(rule, staleAfter, h))
  {
    var items := DeviceItems(rule, staleAfter, h);
    forall i: nat | i < |h|
      ensures LooksAt(rule, staleAfter, items[i], h[i])
      ensures i > 0 && !items[i].look.restart ==> h[i - 1].limits == h[i].limits
    {
      DeviceItemAt(rule, staleAfter, h, i);
    }
    LooksAreSampled(rule, staleAfter, h, items);
  }

  /** The streak of a device target counts the distinct samples that breached, in a row, under the
      limits now in force: DeviceItemAt says which looks restart the count. */
  lemma DeviceStreakCountsSamples(rule: ThresholdRule, staleAfter: real, h: seq<Obs>, k: nat)
    requires h != [] && RealSamples(staleAfter, h)
    requires BreachSince(DeviceItems(rule, staleAfter, h), k)
    ensures FoldDevice(rule, staleAfter, h).run.streak == |SampleTimes(DeviceItems(rule, staleAfter, h), k)|
  {
    DeviceHistoryIsSampled(rule, staleAfter, h);
    DeviceFoldsTheSharedStep(rule, staleAfter, h);
    StreakCountsDistinctSamples(rule, DeviceItems(rule, staleAfter, h), k);
  }

  /** Every look of a device run resolved by hand stays closed while the run lasts. */
  lemma DeviceHandResolveHolds(rule: ThresholdRule, staleAfter: real, h: seq<Obs>, j: nat, r: real)
    requires RealSamples(staleAfter, h) && BeganAt(rule, DeviceItems(rule, staleAfter, h), j)
    requires SeenTs(h[j], staleAfter) != None && SeenTs(h[j], staleAfter).value <= r
    ensures forall n, now, keyOpen :: j < n <= |h| && now <= r + 604800.0 ==>
              !LastRaises(rule, DeviceItems(rule, staleAfter, h)[..n], keyOpen, ResolveRead(r, now))
  {
    DeviceHistoryIsSampled(rule, staleAfter, h);
    DeviceItemAt(rule, staleAfter, h, j);
    HandResolveHoldsForTheRun(rule, DeviceItems(rule, staleAfter, h), j, r);
  }

  /** A device alert, closed by a hand resolve at r, is raised by a breaching look exactly when the
      resolve is out of its window or came before the run began: the next run's first breach passes. */
  lemma DeviceBreachPassesExactlyAfterItsResolve(rule: ThresholdRule, staleAfter: real, h: seq<Obs>, j: nat, r: real,
                                                 now: real)
    requires h != [] && RealSamples(staleAfter, h) && StepAt(rule, DeviceItems(rule, staleAfter, h)).1 == Breach
    requires BeganAt(rule, DeviceItems(rule, staleAfter, h), j)
    ensures SeenTs(h[j], staleAfter).Some?
    ensures LastRaises(rule, DeviceItems(rule, staleAfter, h), false, ResolveRead(r, now)) <==>
            r < now - 604800.0 || r < SeenTs(h[j], staleAfter).value
  {
    DeviceHistoryIsSampled(rule, staleAfter, h);
    DeviceItemAt(rule, staleAfter, h, j);
    ResolveGatesExactlyItsRun(rule, DeviceItems(rule, staleAfter, h), j, false, r, now);
  }

  /** A changed limit pair starts a new run, but from the sample already on show: the alert an
      operator resolved re-opens if and only if that sample is newer than the resolve. A code
      comment promises that it re-opens whenever the limits change. */
  lemma LimitChangeReopensOnlyOnANewerSample(rule: ThresholdRule, staleAfter: real, h: seq<Obs>, r: real, now: real)
    requires |h| > 1 && RealSamples(staleAfter, h) && h[|h| - 2].limits != h[|h| - 1].limits
    requires StepAt(rule, DeviceItems(rule, staleAfter, h)).1 == Breach && now <= r + 604800.0
    ensures SeenTs(h[|h| - 1], staleAfter).Some?
    ensures LastRaises(rule, DeviceItems(rule, staleAfter, h), true, ResolveRead(r, now)) <==>
            r < SeenTs(h[|h| - 1], staleAfter).value
  {
  }

  // ---------------------------------------------- DHCP and NetPath histories

  /** One look of a polled evaluator: a value read at its poll's timestamp, or -- NetPath only --
      a metric that could not be computed, which drops the run. */
  datatype Poll = Absent | Polled(value: Reading, ts: real)

  function FoldPolls(rule: ThresholdRule, l: Limits, h: seq<Poll>): BreachRun {
    if h == [] then NO_RUN
    else
      var n := |h| - 1;
      match h[n]
      case Absent => NO_RUN
      case Polled(v, ts) => PolledStep(rule, l, FoldPolls(rule, l, h[..n]), v, Some(ts)).0
  }

  /** The computable polls, as looks of the shared step: one that follows an absent metric restarts. */
  function PollItems(l: Limits, h: seq<Poll>): seq<Item> {
    if h == [] then []
    else
      var n := |h| - 1;
      match h[n]
      case Absent => PollItems(l, h[..n])
      case Polled(v, ts) =>
        PollItems(l, h[..n]) + [Item(l, PolledLook(l, v, Some(ts)).(restart := n > 0 && h[n - 1].Absent?))]
  }

  /** A restarted look forgets the run it finds. */
  lemma RestartForgets(rule: ThresholdRule, l: Limits, run: BreachRun, k: Look)
    requires k.value.Some? && !k.restart
    ensures StreakStep(rule, l, run, k.(restart := true)) == StreakStep(rule, l, NO_RUN, k)
  {
  }

  lemma {:induction false} PollsFoldTheSharedStep(rule: ThresholdRule, l: Limits, h: seq<Poll>)
    requires h != [] && h[|h| - 1].Polled?
    ensures PollItems(l, h) != []
    ensures FoldPolls(rule, l, h) == Fold(rule, PollItems(l, h))
  {
    var n := |h| - 1;
    var before := PollItems(l, h[..n]);
    var look := PolledLook(l, h[n].value, Some(h[n].ts));
    if n > 0 && h[n - 1].Absent? {
      assert FoldPolls(rule, l, h[..n]) == NO_RUN;
      FoldOneMore(rule, before, Item(l, look.(restart := true)));
      RestartForgets(rule, l, Fold(rule, before), look);
    } else {
      FoldOneMore(rule, before, Item(l, look));
      if n > 0 {
        PollsFoldTheSharedStep(rule, l, h[..n]);
      }
    }
  }

  /** Poll timestamps never go back and equal ones are one poll, looked at again. */
  ghost predicate RealPolls(h: seq<Poll>) {
    && (forall i, j :: 0 <= i < j < |h| && h[i].Polled? && h[j].Polled? ==> h[i].ts <= h[j].ts)
    && (forall i, j :: 0 <= i < j < |h| && h[i].Polled? && h[j].Polled? && h[i].ts == h[j].ts ==>
          h[i].value == h[j].value)
  }

  lemma {:induction false} PollItemsMembers(l: Limits, h: seq<Poll>, i: nat)
    requires i < |PollItems(l, h)|
    ensures exists j :: 0 <= j < |h| && h[j].Polled? &&
              PollItems(l, h)[i].look.(restart := false) == PolledLook(l, h[j].value, Some(h[j].ts))
    ensures PollItems(l, h)[i].limits == l
  {
    var n := |h| - 1;
    if i < |PollItems(l, h[..n])| {
      PollItemsMembers(l, h[..n], i);
      assert PollItems(l, h)[i] == PollItems(l, h[..n])[i];
    }
  }

  lemma {:induction false} PollItemsInOrder(l: Limits, h: seq<Poll>, i: nat, k: nat)
    requires RealPolls(h) && i < k < |PollItems(l, h)|
    ensures
      var x, y := PollItems(l, h)[i].look, PollItems(l, h)[k].look;
      x.ts.Some? && y.ts.Some? && x.ts.value <= y.ts.value && (x.ts == y.ts ==> x.value == y.value)
  {
    var n := |h| - 1;
    if k < |PollItems(l, h[..n])| {
      assert RealPolls(h[..n]);
      PollItemsInOrder(l, h[..n], i, k);
    } else {
      PollItemsMembers(l, h[..n], i);
    }
  }

  lemma MonotoneIsSampled(rule: ThresholdRule, l: Limits, items: seq<Item>)
    requires forall i :: 0 <= i < |items| ==>
      items[i].limits == l && items[i].look.value.Some? && items[i].look.ts.Some? &&
      items[i].look.over == PolledOver(l, items[i].look.value.value)
    requires forall i, k :: 0 <= i < k < |items| ==>
      items[i].look.ts.value <= items[k].look.ts.value &&
      (items[i].look.ts == items[k].look.ts ==> items[i].look.value == items[k].look.value)
    ensures Sampled(rule, items)
  {
  }

  lemma PollHistoryIsSampled(rule: ThresholdRule, l: Limits, h: seq<Poll>)
    requires RealPolls(h)
    ensures Sampled(rule, PollItems(l, h))
  {
    var items := PollItems(l, h);
    forall i: nat | i < |items|
      ensures items[i].look.value.Some? && items[i].look.ts.Some? && items[i].limits == l
      ensures items[i].look.over == PolledOver(l, items[i].look.value.value)
    {
      PollItemsMembers(l, h, i);
    }
    forall i: nat, k: nat | i < k < |items|
      ensures items[i].look.ts.value <= items[k].look.ts.value
      ensures items[i].look.ts == items[k].look.ts ==> items[i].look.value == items[k].look.value
    {
      PollItemsInOrder(l, h, i, k);
    }
    MonotoneIsSampled(rule, l, items);
  }

  /** The verdict of the last poll. */
  function PolledVerdict(rule: ThresholdRule, l: Limits, h: seq<Poll>): Verdict
    requires h != [] && h[|h| - 1].Polled?
  {
    var n := |h| - 1;
    PolledStep(rule, l, FoldPolls(rule, l, h[..n]), h[n].value, Some(h[n].ts)).1
  }

  lemma PolledVerdictIsTheSharedStep(rule: ThresholdRule, l: Limits, h: seq<Poll>)
    requires h != [] && h[|h| - 1].Polled?
    ensures PollItems(l, h) != [] && PolledVerdict(rule, l, h) == StepAt(rule, PollItems(l, h)).1
  {
    var n := |h| - 1;
    var items, before := PollItems(l, h), PollItems(l, h[..n]);
    assert items[..|items| - 1] == before;
    var look := PolledLook(l, h[n].value, Some(h[n].ts));
    if n > 0 && h[n - 1].Absent? {
      RestartForgets(rule, l, Fold(rule, before), look);
    } else if n > 0 {
      PollsFoldTheSharedStep(rule, l, h[..n]);
    }
  }

  /** A DHCP or NetPath alert, closed by a hand resolve at r, is raised by a breaching poll exactly
      when the resolve is out of its window or came before the run began: the next run's first breach
      passes, and no breach of the resolved run does. For rules of either direction. */
  lemma PolledBreachPassesExactlyAfterItsResolve(rule: ThresholdRule, l: Limits, h: seq<Poll>, j: nat, r: real,
                                                 now: real)
    requires RealPolls(h) && h != [] && h[|h| - 1].Polled? && PolledVerdict(rule, l, h) == Breach
    requires BeganAt(rule, PollItems(l, h), j)
    ensures PollItems(l, h) != [] && PollItems(l, h)[j].look.ts.Some?
    ensures LastRaises(rule, PollItems(l, h), false, ResolveRead(r, now)) <==>
            r < now - 604800.0 || r < PollItems(l, h)[j].look.ts.value
  {
    PollHistoryIsSampled(rule, l, h);
    PolledVerdictIsTheSharedStep(rule, l, h);
    BeginningIsASample(rule, PollItems(l, h), j);
    ResolveGatesExactlyItsRun(rule, PollItems(l, h), j, false, r, now);
  }

  /** A DHCP scope's or NetPath destination's run resolved by hand stays closed while it lasts,
      whichever way its rule compares. */
  lemma PolledHandResolveHolds(rule: ThresholdRule, l: Limits, h: seq<Poll>, j: nat, r: real)
    requires RealPolls(h)
    requires BeganAt(rule, PollItems(l, h), j)
    requires PollItems(l, h)[j].look.ts.Some? && PollItems(l, h)[j].look.ts.value <= r
    ensures forall n, now, keyOpen :: j < n <= |PollItems(l, h)| && now <= r + 604800.0 ==>
              !LastRaises(rule, PollItems(l, h)[..n], keyOpen, ResolveRead(r, now))
  {
    PollHistoryIsSampled(rule, l, h);
    HandResolveHoldsForTheRun(rule, PollItems(l, h), j, r);
  }
}
