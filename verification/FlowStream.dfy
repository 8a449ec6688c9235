/**
 The exporter fleet (demo/flows.py): flows generated oldest first, streamed through
 every exporter's bookkeeping in a burst, then continued live on the same counters.
 The handoff neither loses a record nor breaks a sequence.
 */
module FlowStream {
  import opened Wrappers
  import opened Exporters

  // -------------------------------------------------------------- generation

  ghost predicate OldestFirst(flows: seq<Flow>) {
    forall i, j :: 0 <= i < j < |flows| ==> flows[i].tsEnd <= flows[j].tsEnd
  }

  function Insert(flows: seq<Flow>, f: Flow): seq<Flow> {
    if flows == [] || flows[|flows| - 1].tsEnd <= f.tsEnd then flows + [f]
    else Insert(flows[..|flows| - 1], f) + [flows[|flows| - 1]]
  }

  /** A batch in order of its end times, ties as they were. */
  function ByTime(flows: seq<Flow>): seq<Flow> {
    if flows == [] then [] else Insert(ByTime(flows[..|flows| - 1]), flows[|flows| - 1])
  }

  lemma {:induction false} InsertKeeps(flows: seq<Flow>, f: Flow)
    ensures multiset(Insert(flows, f)) == multiset(flows) + multiset{f}
  {
    if flows != [] {
      var init, last := flows[..|flows| - 1], flows[|flows| - 1];
      assert flows == init + [last];
      if last.tsEnd > f.tsEnd {
        InsertKeeps(init, f);
      }
    }
  }

  lemma {:induction false} InsertSorts(flows: seq<Flow>, f: Flow)
    requires OldestFirst(flows)
    ensures OldestFirst(Insert(flows, f))
    ensures forall g :: g in Insert(flows, f) ==> g in flows || g == f
  {
    if flows != [] && flows[|flows| - 1].tsEnd > f.tsEnd {
      var init, last := flows[..|flows| - 1], flows[|flows| - 1];
      InsertSorts(init, f);
      var r := Insert(init, f);
      forall k | 0 <= k < |r| ensures r[k].tsEnd <= last.tsEnd {
        assert r[k] in r;
      }
    }
  }

  /** Sorting gives the same flows, oldest first. */
  lemma {:induction false} ByTimeSorts(flows: seq<Flow>)
    ensures OldestFirst(ByTime(flows)) && multiset(ByTime(flows)) == multiset(flows)
    ensures forall f :: f in ByTime(flows) ==> f in flows
  {
    if flows != [] {
      var init, last := flows[..|flows| - 1], flows[|flows| - 1];
      assert flows == init + [last];
      ByTimeSorts(init);
      InsertSorts(ByTime(init), last);
      InsertKeeps(ByTime(init), last);
    }
  }

  /** The flows that end at one moment. */
  function EndingAt(flows: seq<Flow>, at: real): seq<Flow> {
    if flows == [] then []
    else
      var init, last := EndingAt(flows[..|flows| - 1], at), flows[|flows| - 1];
      if last.tsEnd == at then init + [last] else init
  }

  lemma {:induction false} InsertIsStable(flows: seq<Flow>, f: Flow, at: real)
    ensures EndingAt(Insert(flows, f), at) == EndingAt(flows, at) + if f.tsEnd == at then [f] else []
  {
    if flows == [] || flows[|flows| - 1].tsEnd <= f.tsEnd {
      assert (flows + [f])[..|flows|] == flows;
    } else {
      var init, last := flows[..|flows| - 1], flows[|flows| - 1];
      InsertIsStable(init, f, at);
      assert (Insert(init, f) + [last])[..|Insert(init, f)|] == Insert(init, f);
    }
  }

  /** Sorting leaves flows that end together in the order they were drawn. */
  lemma {:induction false} ByTimeIsStable(flows: seq<Flow>, at: real)
    ensures EndingAt(ByTime(flows), at) == EndingAt(flows, at)
  {
    if flows != [] {
      ByTimeIsStable(flows[..|flows| - 1], at);
      InsertIsStable(ByTime(flows[..|flows| - 1]), flows[|flows| - 1], at);
    }
  }

  function Later(a: real, b: real): real { if a < b then b else a }
  function Earlier(a: real, b: real): real { if a < b then a else b }

  function HourStart(h: int): real { 3600.0 * h as real }

  /** The part of hour h inside t0..t1. */
  function SpanLow(h: int, t0: real): real { Later(HourStart(h), t0) }
  function SpanHigh(h: int, t1: real): real { Earlier(HourStart(h) + 3600.0, t1) }

  /** What the random draws give each hour: flows that end inside the hour's part of t0..t1. */
  ghost predicate Drawn(draws: map<int, seq<Flow>>, t0: real, t1: real) {
    forall h, f :: h in draws && f in draws[h] ==> SpanLow(h, t0) <= f.tsEnd <= SpanHigh(h, t1)
  }

  function HourBatch(draws: map<int, seq<Flow>>, t0: real, t1: real, h: int): seq<Flow> {
    if h in draws && SpanLow(h, t0) < SpanHigh(h, t1) then ByTime(draws[h]) else []
  }

  /** Every hour's batch from `from` up to and excluding `end`. */
  function Hours(draws: map<int, seq<Flow>>, t0: real, t1: real, from: int, end: int): seq<Flow>
    decreases end - from
  {
    if end <= from then [] else Hours(draws, t0, t1, from, end - 1) + HourBatch(draws, t0, t1, end - 1)
  }

  lemma {:induction false} HoursInOrder(draws: map<int, seq<Flow>>, t0: real, t1: real, from: int, end: int)
    requires Drawn(draws, t0, t1)
    ensures OldestFirst(Hours(draws, t0, t1, from, end))
    ensures forall f :: f in Hours(draws, t0, t1, from, end) ==> f.tsEnd <= HourStart(end)
    decreases end - from
  {
    if from < end {
      HoursInOrder(draws, t0, t1, from, end - 1);
      var before, batch := Hours(draws, t0, t1, from, end - 1), HourBatch(draws, t0, t1, end - 1);
      if end - 1 in draws {
        ByTimeSorts(draws[end - 1]);
      }
      assert HourStart(end - 1) + 3600.0 == HourStart(end);
      assert forall k :: 0 <= k < |before| ==> before[k] in before;
      assert forall k :: 0 <= k < |batch| ==> batch[k] in batch;
    }
  }

  /** Hour h and the span t0..t1 have more than a moment in common. */
  predicate Overlaps(h: int, t0: real, t1: real) {
    var start := h as real * 3600.0;
    t0 < t1 && start < t1 && t0 < start + 3600.0
  }

  /** Every flow drawn for an hour of the span is there as often as it was drawn, and no other. */
  lemma {:induction false} HoursKeepEveryFlow(draws: map<int, seq<Flow>>, t0: real, t1: real, from: int, end: int)
    requires from <= end
    ensures multiset(Hours(draws, t0, t1, from, end)) == DrawnIn(draws, t0, t1, from, end)
    decreases end - from
  {
    if from < end {
      HoursKeepEveryFlow(draws, t0, t1, from, end - 1);
      BatchKeepsItsFlows(draws, t0, t1, end - 1);
    }
  }

  lemma BatchKeepsItsFlows(draws: map<int, seq<Flow>>, t0: real, t1: real, h: int)
    ensures multiset(HourBatch(draws, t0, t1, h)) ==
            if h in draws && Overlaps(h, t0, t1) then multiset(draws[h]) else multiset{}
  {
    SpanMeans(h, t0, t1);
    if h in draws {
      ByTimeSorts(draws[h]);
    }
  }

  lemma SpanMeans(h: int, t0: real, t1: real)
    ensures SpanLow(h, t0) < SpanHigh(h, t1) <==> Overlaps(h, t0, t1)
  {
    assert HourStart(h) == h as real * 3600.0;
  }

  /** What was drawn for the hours from..end that overlap the span. */
  ghost function DrawnIn(draws: map<int, seq<Flow>>, t0: real, t1: real, from: int, end: int): multiset<Flow>
    decreases end - from
  {
    if end <= from then multiset{}
    else
      DrawnIn(draws, t0, t1, from, end - 1)
      + if end - 1 in draws && Overlaps(end - 1, t0, t1) then multiset(draws[end - 1]) else multiset{}
  }

  function Capped(flows: seq<Flow>, cap: Option<nat>): seq<Flow> {
    if cap.Some? && cap.value < |flows| then flows[..cap.value] else flows
  }

  /** A cap keeps the oldest, as many as it allows. */
  lemma CapKeepsTheOldest(flows: seq<Flow>, cap: nat)
    ensures Capped(flows, Some(cap)) <= flows && |Capped(flows, Some(cap))| == Least(|flows|, cap)
    ensures Capped(flows, None) == flows
  {
  }

  /** generate_flows: hour by hour, each hour's flows in order, until t1 or the cap. */
  method GenerateFlows(draws: map<int, seq<Flow>>, t0: real, t1: real, cap: Option<nat>) returns (flows: seq<Flow>,
            ghost last: int)
    requires Drawn(draws, t0, t1)
    ensures HourStart(last) >= t1 || (cap.Some? && |flows| == cap.value)
    ensures flows == Capped(Hours(draws, t0, t1, (t0 / 3600.0).Floor, last), cap)
    ensures OldestFirst(flows)
  {
    var hour := (t0 / 3600.0).Floor;
    ghost var first := hour;
    flows := [];
    while HourStart(hour) < t1
      invariant first <= hour && flows == Hours(draws, t0, t1, first, hour)
      invariant cap.Some? ==> |flows| <= cap.value
      decreases t1 - HourStart(hour)
    {
      var batch := Batch(draws, t0, t1, hour);
      var full;
      HoursOneMore(draws, t0, t1, first, hour);
      flows, full := Yield(flows, batch, cap);
      hour := hour + 1;
      if full {
        break;
      }
    }
    HoursInOrder(draws, t0, t1, first, hour);
    last := hour;
  }

  lemma HoursOneMore(draws: map<int, seq<Flow>>, t0: real, t1: real, first: int, hour: int)
    requires first <= hour
    ensures Hours(draws, t0, t1, first, hour + 1) == Hours(draws, t0, t1, first, hour) + HourBatch(draws, t0, t1, hour)
    ensures HourStart(hour + 1) == HourStart(hour) + 3600.0
  {
  }

  /** One hour's flows in order; nothing for an hour outside t0..t1. */
  method Batch(draws: map<int, seq<Flow>>, t0: real, t1: real, hour: int) returns (batch: seq<Flow>)
    ensures batch == HourBatch(draws, t0, t1, hour)
  {
    if SpanHigh(hour, t1) <= SpanLow(hour, t0) {
      return [];
    }
    batch := if hour in draws then ByTime(draws[hour]) else [];
  }

  /** The batch's flows one by one until the cap is met; `full` when a flow was left over. */
  method Yield(flows0: seq<Flow>, batch: seq<Flow>, cap: Option<nat>) returns (flows: seq<Flow>, full: bool)
    requires cap.Some? ==> |flows0| <= cap.value
    ensures flows == Capped(flows0 + batch, cap)
    ensures full <==> cap.Some? && |flows0| + |batch| > cap.value
  {
    flows, full := flows0, false;
    for i := 0 to |batch|
      invariant flows == (flows0 + batch)[..|flows0| + i]
      invariant cap.Some? ==> |flows| <= cap.value
    {
      if cap.Some? && |flows| >= cap.value {
        return flows, true;
      }
      flows := flows + [batch[i]];
    }
  }

  // --------------------------------------------------------------- streaming

  /** The flows of one exporter. */
  function Project(flows: seq<Flow>, e: nat): seq<Flow> {
    if flows == [] then []
    else
      var init, last := Project(flows[..|flows| - 1], e), flows[|flows| - 1];
      if last.exporter == e then init + [last] else init
  }

  /** An exporter's flows are its own, in the order they came: of a stream in two parts, those of the first and
      then those of the second. */
  lemma {:induction false} ProjectInOrder(a: seq<Flow>, b: seq<Flow>, e: nat)
    ensures Project(a + b, e) == Project(a, e) + Project(b, e)
    ensures |b| == 1 ==> Project(b, e) == if b[0].exporter == e then b else []
  {
    if b == [] {
      assert a + b == a;
    } else {
      var init, last := b[..|b| - 1], b[|b| - 1];
      assert (a + b)[..|a + b| - 1] == a + init;
      assert b == init + [last];
      ProjectInOrder(a, init, e);
    }
  }

  function BurstAll(v: Version, s: State, flows: seq<Flow>): State {
    if flows == [] then s else BurstStep(v, BurstAll(v, s, flows[..|flows| - 1]), flows[|flows| - 1])
  }

  ghost predicate Separate(states: seq<ExporterState>) {
    forall i, j :: 0 <= i < j < |states| ==> states[i] != states[j]
  }

  /** stream_datagrams over given flows: each exporter takes its own, then sends what it still holds. */
  method StreamDatagrams(states: seq<ExporterState>, flows: seq<Flow>, t1: real)
    requires Separate(states) && forall f :: f in flows ==> f.exporter < |states|
    modifies states
    ensures forall e :: 0 <= e < |states| ==>
              states[e].View() ==
              Flushed(states[e].version, BurstAll(states[e].version, old(states[e].View()), Project(flows, e)), t1)
  {
    for k := 0 to |flows|
      invariant forall e :: 0 <= e < |states| ==>
                  states[e].View() == BurstAll(states[e].version, old(states[e].View()), Project(flows[..k], e))
    {
      assert flows[..k + 1][..k] == flows[..k] && flows[..k + 1][k] == flows[k];
      assert flows[k] in flows;
      states[flows[k].exporter].Accept(flows[k]);
    }
    assert flows[..|flows|] == flows;
    for e := 0 to |states|
      invariant forall i :: 0 <= i < |states| ==>
                  var streamed := BurstAll(states[i].version, old(states[i].View()), Project(flows, i));
                  states[i].View() == if i < e then Flushed(states[i].version, streamed, t1) else streamed
    {
      states[e].FlushDatagram(t1);
    }
  }

  /** A flow of the live phase, and the wall clock when its exporter came due. */
  datatype Live = Live(flow: Flow, now: real)

  function ProjectLive(live: seq<Live>, e: nat): seq<Live> {
    if live == [] then []
    else
      var init, last := ProjectLive(live[..|live| - 1], e), live[|live| - 1];
      if last.flow.exporter == e then init + [last] else init
  }

  lemma {:induction false} ProjectLiveInOrder(a: seq<Live>, b: seq<Live>, e: nat)
    ensures ProjectLive(a + b, e) == ProjectLive(a, e) + ProjectLive(b, e)
    ensures |b| == 1 ==> ProjectLive(b, e) == if b[0].flow.exporter == e then b else []
  {
    if b == [] {
      assert a + b == a;
    } else {
      var init, last := b[..|b| - 1], b[|b| - 1];
      assert (a + b)[..|a + b| - 1] == a + init;
      assert b == init + [last];
      ProjectLiveInOrder(a, init, e);
    }
  }

  function LiveAll(v: Version, s: State, live: seq<Live>): State {
    if live == [] then s
    else
      var last := live[|live| - 1];
      LiveStep(v, LiveAll(v, s, live[..|live| - 1]), last.flow, last.now)
  }

  /** How many of `n` flows the cap lets out after `sent`. */
  function LetOut(n: nat, sent: nat, cap: Option<nat>): nat {
    if cap.None? || sent + n <= cap.value then n else if sent <= cap.value then cap.value - sent else 0
  }

  /** The cap is met exactly, or there was not enough to meet it. */
  lemma LetOutExactly(n: nat, sent: nat, cap: nat)
    requires sent <= cap
    ensures
      var out := LetOut(n, sent, Some(cap));
      out <= n && sent + out <= cap && (out == n || sent + out == cap)
    ensures LetOut(n, sent, None) == n && forall past: nat :: past > cap ==> LetOut(n, past, Some(cap)) == 0
  {
  }

  method Deliver(states: seq<ExporterState>, l: Live)
    requires Separate(states) && l.flow.exporter < |states|
    modifies states
    ensures forall e :: 0 <= e < |states| ==>
              states[e].View() ==
              if e == l.flow.exporter then LiveStep(states[e].version, old(states[e].View()), l.flow, l.now)
              else old(states[e].View())
  {
    states[l.flow.exporter].AcceptLive(l.flow, l.now);
  }

  lemma LiveOneFurther(v: Version, s: State, due: seq<Live>, k: nat, e: nat)
    requires k < |due|
    ensures
      LiveAll(v, s, ProjectLive(due[..k + 1], e)) ==
      var before := LiveAll(v, s, ProjectLive(due[..k], e));
      if due[k].flow.exporter == e then LiveStep(v, before, due[k].flow, due[k].now) else before
  {
    assert due[..k + 1][..k] == due[..k] && due[..k + 1][k] == due[k];
  }

  /** Each exporter, in state was[e] at the start, has had its own of the flows in `done`. */
  ghost predicate LiveSoFar(states: seq<ExporterState>, was: seq<State>, done: seq<Live>)
    reads states
  {
    |was| == |states| && forall e :: 0 <= e < |states| ==>
      states[e].View() == LiveAll(states[e].version, was[e], ProjectLive(done, e))
  }

  method DeliverNext(states: seq<ExporterState>, ghost was: seq<State>, due: seq<Live>, k: nat)
    requires Separate(states) && k < |due| && due[k].flow.exporter < |states| && LiveSoFar(states, was, due[..k])
    modifies states
    ensures LiveSoFar(states, was, due[..k + 1])
  {
    Deliver(states, due[k]);
    forall e | 0 <= e < |states|
      ensures states[e].View() == LiveAll(states[e].version, was[e], ProjectLive(due[..k + 1], e))
    {
      LiveOneFurther(states[e].version, was[e], due, k, e);
    }
  }

  /** _run_live, over the flows in the order their exporters come due, until the cap. */
  method RunLive(states: seq<ExporterState>, due: seq<Live>, recordsSent: nat, cap: Option<nat>)
    requires Separate(states) && forall l :: l in due ==> l.flow.exporter < |states|
    modifies states
    ensures forall e :: 0 <= e < |states| ==>
              states[e].View() ==
              LiveAll(states[e].version, old(states[e].View()), ProjectLive(due[..LetOut(|due|, recordsSent, cap)], e))
  {
    var sent, k := recordsSent, 0;
    ghost var was := seq(|states|, e requires 0 <= e < |states| reads states => states[e].View());
    assert LiveSoFar(states, was, due[..0]);
    while k < |due| && (cap.None? || sent < cap.value)
      invariant k <= LetOut(|due|, recordsSent, cap) <= |due| && sent == recordsSent + k
      invariant LiveSoFar(states, was, due[..k])
    {
      assert due[k] in due;
      DeliverNext(states, was, due, k);
      sent, k := sent + 1, k + 1;
    }
    assert k == LetOut(|due|, recordsSent, cap);
    forall e | 0 <= e < |states| ensures was[e] == old(states[e].View()) {
    }
  }

  // ----------------------------------------------------------------- results

  lemma {:induction false} BurstStaysHonest(v: Version, flows: seq<Flow>)
    ensures Honest(v, BurstAll(v, Initial, flows), flows)
  {
    if flows == [] {
      InitialIsHonest(v);
    } else {
      var init, last := flows[..|flows| - 1], flows[|flows| - 1];
      BurstStaysHonest(v, init);
      BurstKeeps(v, BurstAll(v, Initial, init), init, last);
      assert init + [last] == flows;
    }
  }

  lemma InitialIsHonest(v: Version)
    ensures Honest(v, Initial, [])
  {
  }

  lemma HonestAbout(v: Version, s: State, input: seq<Flow>, same: seq<Flow>)
    requires Honest(v, s, input) && input == same
    ensures Honest(v, s, same)
  {
  }

  lemma {:induction false} BurstStaysInCadence(v: Version, flows: seq<Flow>)
    ensures InCadence(v, BurstAll(v, Initial, flows))
  {
    if flows == [] {
      assert FreshTemplates([], REFRESH_EVERY_PACKETS);
    } else {
      var init, last := flows[..|flows| - 1], flows[|flows| - 1];
      BurstStaysHonest(v, init);
      BurstStaysInCadence(v, init);
      BurstCadence(v, BurstAll(v, Initial, init), init, last);
    }
  }

  /** After the burst nothing is held back: the datagrams carry exactly the exporter's flows, in
      order, with right sequence numbers, a template first and one every 200 datagrams. */
  lemma BurstDelivers(v: Version, flows: seq<Flow>, t1: real)
    ensures
      var s := Flushed(v, BurstAll(v, Initial, flows), t1);
      && Honest(v, s, flows) && s.pending == [] && FlowsIn(s.sent) == flows
      && (!v.V5? ==> FreshTemplates(s.sent, 200))
      && (s.packets == 0 <==> flows == [])
  {
    BurstStaysHonest(v, flows);
    BurstStaysInCadence(v, flows);
    var before := BurstAll(v, Initial, flows);
    FlushKeeps(v, before, flows, t1);
    if !v.V5? {
      CadenceOneMore(before.sent, Data(NextSequence(v, before), t1, before.pending), REFRESH_EVERY_PACKETS);
    }
    if flows == [] {
      assert before == Initial;
    }
  }

  /** Every datagram of records is full -- 30 records in version 5, 20 in the others -- and bears the time its
      last flow ended. */
  ghost predicate AllFull(v: Version, sent: seq<Datagram>) {
    forall k :: 0 <= k < |sent| && sent[k].Data? ==>
      && |sent[k].flows| == (if v.V5? then 30 else 20) && sent[k].at == sent[k].flows[|sent[k].flows| - 1].tsEnd
  }

  lemma BurstStepFills(v: Version, s: State, f: Flow)
    requires AllFull(v, s.sent) && |s.pending| < if v.V5? then 30 else 20
    ensures
      var after := BurstStep(v, s, f);
      AllFull(v, after.sent) && |after.pending| < if v.V5? then 30 else 20
  {
  }

  /** In the burst every datagram of records is full but the one that ends it. */
  lemma {:induction false} BurstFillsItsDatagrams(v: Version, flows: seq<Flow>)
    ensures
      var s := BurstAll(v, Initial, flows);
      AllFull(v, s.sent) && |s.pending| < if v.V5? then 30 else 20
  {
    if flows != [] {
      BurstFillsItsDatagrams(v, flows[..|flows| - 1]);
      BurstStepFills(v, BurstAll(v, Initial, flows[..|flows| - 1]), flows[|flows| - 1]);
    }
  }

  /** The datagrams are a template, 200 of records, a template, and so on; the state counts along. */
  ghost predicate TemplateEvery(s: State) {
    && (forall k :: 0 <= k < |s.sent| ==> (s.sent[k].Template? <==> k % 201 == 0))
    && s.packets == |s.sent| && s.sinceRefresh < 200
    && (s.sent == [] || s.packets % 201 == s.sinceRefresh + 1)
  }

  lemma {:induction false} BurstCounts(v: Version, flows: seq<Flow>)
    requires !v.V5?
    ensures TemplateEvery(BurstAll(v, Initial, flows)) && (flows != [] ==> BurstAll(v, Initial, flows).sent != [])
  {
    if flows != [] {
      BurstCounts(v, flows[..|flows| - 1]);
      BurstStepCounts(v, BurstAll(v, Initial, flows[..|flows| - 1]), flows[|flows| - 1]);
    }
  }

  lemma BurstStepCounts(v: Version, s: State, f: Flow)
    requires !v.V5? && TemplateEvery(s)
    ensures TemplateEvery(BurstStep(v, s, f)) && BurstStep(v, s, f).sent != []
  {
    var s1 := Announced(v, s, f.tsEnd);
    var s2 := Batched(v, s1, f);
    if s.sent == [] {
      assert s1.sent == [Template(NextSequence(v, s), f.tsEnd)];
    }
    BatchCounts(v, s1, f);
    if s2.sinceRefresh == 200 {
      assert |s2.sent| % 201 == 0;
    }
  }

  /** Between templates the state may count up to 200. */
  lemma BatchCounts(v: Version, s: State, f: Flow)
    requires !v.V5? && TemplateEvery(s) && s.sent != []
    ensures
      var after := Batched(v, s, f);
      && (forall k :: 0 <= k < |after.sent| ==> (after.sent[k].Template? <==> k % 201 == 0))
      && after.packets == |after.sent| && after.sent != [] && after.sinceRefresh <= 200
      && (after.sinceRefresh < 200 ==> |after.sent| % 201 == after.sinceRefresh + 1)
      && (after.sinceRefresh == 200 ==> |after.sent| % 201 == 0)
  {
  }

  /** In the burst of an exporter whose version has templates, one comes first and then after every 200
      datagrams of records, and at no other place; version 5 sends none. */
  lemma TemplatesExactly(v: Version, flows: seq<Flow>, t1: real, k: nat)
    requires k < |Flushed(v, BurstAll(v, Initial, flows), t1).sent|
    ensures Flushed(v, BurstAll(v, Initial, flows), t1).sent[k].Template? <==> !v.V5? && k % 201 == 0
  {
    if v.V5? {
      BurstDelivers(v, flows, t1);
    } else {
      BurstCounts(v, flows);
      assert flows == [] ==> BurstAll(v, Initial, flows) == Initial;
    }
  }

  function FlowsOf(live: seq<Live>): (f: seq<Flow>)
    ensures |f| == |live|
  {
    seq(|live|, i requires 0 <= i < |live| => live[i].flow)
  }

  lemma {:induction false} LiveStaysHonest(v: Version, s: State, input: seq<Flow>, live: seq<Live>)
    requires Honest(v, s, input) && s.pending == []
    requires !v.V5? && s.packets == 0 && live != [] ==> live[0].now >= LIVE_TEMPLATE_REFRESH_S
    ensures
      var after := LiveAll(v, s, live);
      Honest(v, after, input + FlowsOf(live)) && after.pending == []
          && (live != [] || s.packets > 0 ==> after.packets > 0)
  {
    if live == [] {
      HonestAbout(v, s, input, input + FlowsOf(live));
    } else {
      var init, last := live[..|live| - 1], live[|live| - 1];
      assert init != [] ==> init[0] == live[0];
      LiveStaysHonest(v, s, input, init);
      LiveOneMore(v, LiveAll(v, s, init), input, live);
    }
  }

  lemma LiveOneMore(v: Version, before: State, input: seq<Flow>, live: seq<Live>)
    requires live != [] && Honest(v, before, input + FlowsOf(live[..|live| - 1]))
    requires !v.V5? && before.packets == 0 ==> live[|live| - 1].now >= LIVE_TEMPLATE_REFRESH_S
    ensures
      var after := LiveStep(v, before, live[|live| - 1].flow, live[|live| - 1].now);
      Honest(v, after, input + FlowsOf(live)) && after.pending == [] && after.packets > 0
  {
    var init, last := live[..|live| - 1], live[|live| - 1];
    LiveKeeps(v, before, input + FlowsOf(init), last.flow, last.now);
    FlowsOneMore(input, live);
    HonestAbout(v, LiveStep(v, before, last.flow, last.now), input + FlowsOf(init) + [last.flow],
                input + FlowsOf(live));
  }

  lemma FlowsOneMore(input: seq<Flow>, live: seq<Live>)
    requires live != []
    ensures input + FlowsOf(live) == input + FlowsOf(live[..|live| - 1]) + [live[|live| - 1].flow]
  {
  }

  lemma {:induction false} LiveAllDelivers(v: Version, s: State, input: seq<Flow>, live: seq<Live>)
    requires Delivered(v, s, input) && s.pending == []
    ensures Delivered(v, LiveAll(v, s, live), input + FlowsOf(live)) && LiveAll(v, s, live).pending == []
  {
    if live == [] {
      assert input + FlowsOf(live) == input;
    } else {
      var init, last := live[..|live| - 1], live[|live| - 1];
      LiveAllDelivers(v, s, input, init);
      LiveDelivers(v, LiveAll(v, s, init), input + FlowsOf(init), last.flow, last.now);
      FlowsOneMore(input, live);
    }
  }

  /** An exporter that has sent nothing begins its live phase with a template exactly when the clock has
      reached a minute by then, and what it sends first stays first. */
  lemma {:induction false} FirstStaysFirst(v: Version, live: seq<Live>)
    requires !v.V5? && live != []
    ensures
      var sent := LiveAll(v, Initial, live).sent;
      sent != [] && (sent[0].Template? <==> live[0].now >= LIVE_TEMPLATE_REFRESH_S)
  {
    var init, last := live[..|live| - 1], live[|live| - 1];
    if init != [] {
      FirstStaysFirst(v, init);
      LiveStepAppends(v, LiveAll(v, Initial, init), last.flow, last.now);
    } else {
      TooEarlyToAnnounce(v, last.flow, last.now);
      LiveStepAppends(v, Initial, last.flow, last.now);
    }
  }

  /** The live phase continues from the burst on the same counters: over both, each exporter's
      datagrams carry its burst flows and then its live flows, and every sequence number continues.
      A template precedes all data if and only if there are none, the burst gave the exporter
      something, there is no live flow, or the first comes a minute into the clock. */
  lemma HandoffIsSeamless(v: Version, burst: seq<Flow>, t1: real, live: seq<Live>)
    ensures
      var s := LiveAll(v, Flushed(v, BurstAll(v, Initial, burst), t1), live);
      && Numbered(v, s.sent) && s.pending == [] && FlowsIn(s.sent) == burst + FlowsOf(live)
      && (TemplateFirst(v, s.sent) <==>
            v.V5? || burst != [] || live == [] || live[0].now >= 60.0)
  {
    BurstDelivers(v, burst, t1);
    var s := Flushed(v, BurstAll(v, Initial, burst), t1);
    LiveAllDelivers(v, s, burst, live);
    if v.V5? || burst != [] || live == [] || live[0].now >= LIVE_TEMPLATE_REFRESH_S {
      LiveStaysHonest(v, s, burst, live);
    } else {
      FirstStaysFirst(v, live);
    }
  }

  /** What one exporter sends of a stream depends on its own flows alone, and together the exporters
      are given every flow once. */
  lemma {:induction false} ProjectionsPartition(flows: seq<Flow>, f: Flow)
    ensures multiset(Project(flows, f.exporter))[f] == multiset(flows)[f]
    ensures forall e :: e != f.exporter ==> f !in Project(flows, e)
  {
    if flows != [] {
      var init, last := flows[..|flows| - 1], flows[|flows| - 1];
      ProjectionsPartition(init, f);
      assert flows == init + [last];
    }
  }
}
