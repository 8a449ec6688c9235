/**
 One flow exporter (demo/flows.py): the records waiting for a datagram, the sequence
 counters, and the template refresh. Whatever arrives and whenever it is flushed, the
 records sent are the records received in order, and every datagram's sequence
 number is the one its protocol asks for.
 */
module Exporters {
  datatype Version = V5 | V9 | Ipfix

  datatype Flow = Flow(exporter: nat, tsEnd: real, body: int)

  const V5_BATCH := 30
  const V9_BATCH := 20
  const IPFIX_BATCH := 20
  const REFRESH_EVERY_PACKETS := 200
  const LIVE_TEMPLATE_REFRESH_S := 60.0

  function BatchSize(v: Version): nat {
    match v case V5 => V5_BATCH case V9 => V9_BATCH case Ipfix => IPFIX_BATCH
  }

  /** A datagram with its header's sequence number and time: templates, or records. */
  datatype Datagram =
    | Template(sequence: nat, at: real)
    | Data(sequence: nat, at: real, flows: seq<Flow>)

  /** An exporter's bookkeeping, and the datagrams it has sent. */
  datatype State = State(
    pending: seq<Flow>, packets: nat, records: nat, sinceRefresh: nat, lastRefresh: real, sent: seq<Datagram>)

  const Initial := State([], 0, 0, 0, 0.0, [])

  /** The sequence number the next datagram carries: version 9 counts packets from 1, the others
      count the records sent before. */
  function NextSequence(v: Version, s: State): nat {
    if v.V9? then s.packets + 1 else s.records
  }

  function Refreshed(v: Version, s: State, now: real): State {
    s.(packets := s.packets + 1, sinceRefresh := 0, lastRefresh := now,
       sent := s.sent + [Template(NextSequence(v, s), now)])
  }

  function Flushed(v: Version, s: State, now: real): State {
    if s.pending == [] then s
    else State([], s.packets + 1, s.records + |s.pending|, s.sinceRefresh + 1, s.lastRefresh,
               s.sent + [Data(NextSequence(v, s), now, s.pending)])
  }

  /** The three parts of a burst step: a first template, the flow and its batch, a template resend. */
  function Announced(v: Version, s: State, now: real): State {
    if !v.V5? && s.packets == 0 then Refreshed(v, s, now) else s
  }

  function Batched(v: Version, s: State, f: Flow): State {
    var waiting := s.(pending := s.pending + [f]);
    if |waiting.pending| >= BatchSize(v) then Flushed(v, waiting, f.tsEnd) else waiting
  }

  function Resent(v: Version, s: State, now: real): State {
    if !v.V5? && s.sinceRefresh >= REFRESH_EVERY_PACKETS then Refreshed(v, s, now) else s
  }

  /** What one flow of the burst phase does. */
  function BurstStep(v: Version, s: State, f: Flow): State {
    Resent(v, Batched(v, Announced(v, s, f.tsEnd), f), f.tsEnd)
  }

  function Renewed(v: Version, s: State, now: real): State {
    if !v.V5? && now - s.lastRefresh >= LIVE_TEMPLATE_REFRESH_S then Refreshed(v, s, now) else s
  }

  /** One flow of the live phase: a refresh when the last is old, then the flow at once. */
  function LiveStep(v: Version, s: State, f: Flow, now: real): State {
    var s1 := Renewed(v, s, now);
    Flushed(v, s1.(pending := s1.pending + [f]), now)
  }

  // ------------------------------------------------------------ what is kept

  function Carried(d: Datagram): seq<Flow> {
    if d.Data? then d.flows else []
  }

  /** All the records of some datagrams, in order. */
  function FlowsIn(sent: seq<Datagram>): seq<Flow> {
    if sent == [] then [] else FlowsIn(sent[..|sent| - 1]) + Carried(sent[|sent| - 1])
  }

  /** RFC 3954 section 5.1 counts version 9 packets; RFC 7011 section 3.1, and version 5, count the
      records sent before. */
  ghost predicate Numbered(v: Version, sent: seq<Datagram>) {
    forall k :: 0 <= k < |sent| ==> sent[k].sequence == if v.V9? then k + 1 else |FlowsIn(sent[..k])|
  }

  /** Records come after a template, except in version 5, which has none. */
  ghost predicate TemplateFirst(v: Version, sent: seq<Datagram>) {
    if v.V5? then forall k :: 0 <= k < |sent| ==> sent[k].Data?
    else sent != [] ==> sent[0].Template?
  }

  /** How many datagrams follow the last template. */
  function SinceTemplate(sent: seq<Datagram>): nat {
    if sent == [] || sent[|sent| - 1].Template? then 0 else 1 + SinceTemplate(sent[..|sent| - 1])
  }

  /** When the last template was sent; 0 before the first. */
  function LastTemplate(sent: seq<Datagram>): real {
    if sent == [] then 0.0
    else if sent[|sent| - 1].Template? then sent[|sent| - 1].at
    else LastTemplate(sent[..|sent| - 1])
  }

  ghost predicate Counted(v: Version, s: State) {
    && s.packets == |s.sent| && s.records == |FlowsIn(s.sent)| && s.lastRefresh == LastTemplate(s.sent)
    && (!v.V5? ==> s.sinceRefresh == SinceTemplate(s.sent))
  }

  /** An exporter that was given `input` has lost, doubled and reordered nothing; every sequence number is
      right and the counters are true. */
  ghost predicate Delivered(v: Version, s: State, input: seq<Flow>) {
    FlowsIn(s.sent) + s.pending == input && Numbered(v, s.sent) && Counted(v, s)
  }

  /** And moreover it has sent a template first. */
  ghost predicate Honest(v: Version, s: State, input: seq<Flow>) {
    && Delivered(v, s, input) && TemplateFirst(v, s.sent)
    && (s.packets == 0 && !v.V5? ==> s.pending == [])
  }

  lemma OneMore(v: Version, sent: seq<Datagram>, d: Datagram)
    requires Numbered(v, sent) && d.sequence == if v.V9? then |sent| + 1 else |FlowsIn(sent)|
    ensures Numbered(v, sent + [d]) && FlowsIn(sent + [d]) == FlowsIn(sent) + Carried(d)
    ensures SinceTemplate(sent + [d]) == if d.Template? then 0 else 1 + SinceTemplate(sent)
    ensures LastTemplate(sent + [d]) == if d.Template? then d.at else LastTemplate(sent)
  {
    var more := sent + [d];
    assert more[..|more| - 1] == sent;
    forall k | 0 <= k < |more|
      ensures more[k].sequence == if v.V9? then k + 1 else |FlowsIn(more[..k])|
    {
      assert more[..k] == sent[..k];
    }
  }

  lemma RefreshDelivers(v: Version, s: State, input: seq<Flow>, now: real)
    requires Delivered(v, s, input) && !v.V5?
    ensures Delivered(v, Refreshed(v, s, now), input)
  {
    var d := Template(NextSequence(v, s), now);
    OneMore(v, s.sent, d);
    assert FlowsIn(s.sent + [d]) == FlowsIn(s.sent);
  }

  lemma FlushDelivers(v: Version, s: State, input: seq<Flow>, now: real)
    requires Delivered(v, s, input)
    ensures Delivered(v, Flushed(v, s, now), input)
  {
    if s.pending != [] {
      var d := Data(NextSequence(v, s), now, s.pending);
      OneMore(v, s.sent, d);
      assert FlowsIn(s.sent + [d]) == FlowsIn(s.sent) + s.pending == input;
      assert FlowsIn(s.sent + [d]) + [] == FlowsIn(s.sent + [d]);
    }
  }

  /** What is sent stays sent. */
  lemma LiveStepAppends(v: Version, s: State, f: Flow, now: real)
    ensures s.sent < LiveStep(v, s, f, now).sent
  {
  }

  /** The live phase loses and renumbers nothing, whenever it starts. */
  lemma LiveDelivers(v: Version, s: State, input: seq<Flow>, f: Flow, now: real)
    requires Delivered(v, s, input)
    ensures Delivered(v, LiveStep(v, s, f, now), input + [f]) && LiveStep(v, s, f, now).pending == []
  {
    if !v.V5? {
      RefreshDelivers(v, s, input, now);
    }
    var s1 := Renewed(v, s, now);
    var waiting := s1.(pending := s1.pending + [f]);
    assert FlowsIn(waiting.sent) + waiting.pending == input + [f];
    FlushDelivers(v, waiting, input + [f], now);
  }

  lemma RefreshKeeps(v: Version, s: State, input: seq<Flow>, now: real)
    requires Honest(v, s, input) && !v.V5?
    ensures Honest(v, Refreshed(v, s, now), input)
  {
    var d := Template(NextSequence(v, s), now);
    RefreshDelivers(v, s, input, now);
    assert (s.sent + [d])[0] == if s.sent == [] then d else s.sent[0];
  }

  lemma ArrivalKeeps(v: Version, s: State, input: seq<Flow>, f: Flow)
    requires Honest(v, s, input) && (v.V5? || s.packets > 0)
    ensures Honest(v, s.(pending := s.pending + [f]), input + [f])
  {
  }

  lemma FlushKeeps(v: Version, s: State, input: seq<Flow>, now: real)
    requires Honest(v, s, input)
    ensures Honest(v, Flushed(v, s, now), input)
  {
    FlushDelivers(v, s, input, now);
    if s.pending != [] {
      assert s.sent != [] ==> (s.sent + [Data(NextSequence(v, s), now, s.pending)])[0] == s.sent[0];
    }
  }

  lemma BatchKeeps(v: Version, s: State, input: seq<Flow>, f: Flow)
    requires Honest(v, s, input) && (v.V5? || s.packets > 0)
    ensures Honest(v, Batched(v, s, f), input + [f])
  {
    ArrivalKeeps(v, s, input, f);
    FlushKeeps(v, s.(pending := s.pending + [f]), input + [f], f.tsEnd);
  }

  lemma AnnouncedKeeps(v: Version, s: State, input: seq<Flow>, now: real)
    requires Honest(v, s, input)
    ensures Honest(v, Announced(v, s, now), input) && (v.V5? || Announced(v, s, now).packets > 0)
  {
    if !v.V5? {
      RefreshKeeps(v, s, input, now);
    }
  }

  lemma ResentKeeps(v: Version, s: State, input: seq<Flow>, now: real)
    requires Honest(v, s, input)
    ensures Honest(v, Resent(v, s, now), input)
  {
    if !v.V5? {
      RefreshKeeps(v, s, input, now);
    }
  }

  /** The burst phase keeps it, from any honest state. */
  lemma BurstKeeps(v: Version, s: State, input: seq<Flow>, f: Flow)
    requires Honest(v, s, input)
    ensures Honest(v, BurstStep(v, s, f), input + [f])
  {
    AnnouncedKeeps(v, s, input, f.tsEnd);
    BatchKeeps(v, Announced(v, s, f.tsEnd), input, f);
    ResentKeeps(v, Batched(v, Announced(v, s, f.tsEnd), f), input + [f], f.tsEnd);
  }

  /** The live phase keeps it, holds nothing back, and sends no record under a template a minute old
      -- provided an exporter that has sent nothing starts at least a minute into the clock. */
  lemma LiveKeeps(v: Version, s: State, input: seq<Flow>, f: Flow, now: real)
    requires Honest(v, s, input)
    requires !v.V5? && s.packets == 0 ==> now >= LIVE_TEMPLATE_REFRESH_S
    ensures
      var after := LiveStep(v, s, f, now);
      && Honest(v, after, input + [f]) && after.pending == []
      && (!v.V5? ==> now - after.lastRefresh < 60.0)
  {
    if !v.V5? {
      RefreshKeeps(v, s, input, now);
    }
    var s1 := Renewed(v, s, now);
    assert s.packets == 0 ==> s.lastRefresh == 0.0;
    ArrivalKeeps(v, s1, input, f);
    FlushKeeps(v, s1.(pending := s1.pending + [f]), input + [f], now);
  }

  /** A live flow goes out at once, with what was waiting, after a template exactly when the version has them
      and the last is a minute old. */
  lemma LiveSendsExactly(v: Version, s: State, input: seq<Flow>, f: Flow, now: real)
    requires Honest(v, s, input)
    ensures
      var after := LiveStep(v, s, f, now);
      var announced := !v.V5? && now - LastTemplate(s.sent) >= 60.0;
      && |after.sent| == |s.sent| + (if announced then 2 else 1) && s.sent <= after.sent
      && (announced ==> after.sent[|s.sent|].Template?)
      && after.sent[|after.sent| - 1].Data? && after.sent[|after.sent| - 1].flows == s.pending + [f]
  {
  }

  /** The proviso is exact: earlier than that, a fresh exporter's first datagram is a record. */
  lemma TooEarlyToAnnounce(v: Version, f: Flow, now: real)
    requires !v.V5?
    ensures TemplateFirst(v, LiveStep(v, Initial, f, now).sent) <==> now >= 60.0
  {
  }

  // ---------------------------------------------------------------- cadence

  /** No datagram is more than `n` after a template. */
  ghost predicate FreshTemplates(sent: seq<Datagram>, n: nat) {
    forall k :: 0 <= k <= |sent| ==> SinceTemplate(sent[..k]) <= n
  }

  lemma CadenceOneMore(sent: seq<Datagram>, d: Datagram, n: nat)
    requires FreshTemplates(sent, n) && (d.Data? ==> SinceTemplate(sent) < n)
    ensures FreshTemplates(sent + [d], n)
  {
    var more := sent + [d];
    assert more[..|sent|] == sent && more[..|more|] == more;
    forall k | 0 <= k <= |more| ensures SinceTemplate(more[..k]) <= n {
      if k <= |sent| {
        assert more[..k] == sent[..k];
      } else {
        assert more[..k][..|sent|] == sent;
      }
    }
  }

  /** In the burst phase a template is resent after 200 datagrams at the latest, and less than a
      batch is held back. */
  ghost predicate InCadence(v: Version, s: State) {
    && |s.pending| < BatchSize(v)
    && (!v.V5? ==> FreshTemplates(s.sent, REFRESH_EVERY_PACKETS) && s.sinceRefresh < REFRESH_EVERY_PACKETS)
  }

  lemma BurstCadence(v: Version, s: State, input: seq<Flow>, f: Flow)
    requires Honest(v, s, input) && InCadence(v, s)
    ensures InCadence(v, BurstStep(v, s, f))
  {
    var now := f.tsEnd;
    var s1 := Announced(v, s, now);
    if !v.V5? {
      RefreshKeeps(v, s, input, now);
      CadenceOneMore(s.sent, Template(NextSequence(v, s), now), REFRESH_EVERY_PACKETS);
      var waiting := s1.(pending := s1.pending + [f]);
      CadenceOneMore(s1.sent, Data(NextSequence(v, waiting), now, waiting.pending), REFRESH_EVERY_PACKETS);
      var s2 := Batched(v, s1, f);
      BatchKeeps(v, s1, input, f);
      CadenceOneMore(s2.sent, Template(NextSequence(v, s2), now), REFRESH_EVERY_PACKETS);
    }
  }

  // --------------------------------------------------------------- the class

  class ExporterState {
    const version: Version
    var pending: seq<Flow>
    var packets: nat
    var records: nat
    var packetsSinceRefresh: nat
    var lastRefreshWall: real
    var sent: seq<Datagram>

    constructor (version: Version)
      ensures this.version == version && View() == Initial
    {
      this.version := version;
      pending, packets, records, packetsSinceRefresh, lastRefreshWall, sent := [], 0, 0, 0, 0.0, [];
    }

    function View(): State
      reads this
    {
      State(pending, packets, records, packetsSinceRefresh, lastRefreshWall, sent)
    }

    method RefreshDatagram(now: real)
      modifies this
      ensures View() == Refreshed(version, old(View()), now)
    {
      sent := sent + [Template(if version.V9? then packets + 1 else records, now)];
      packets, packetsSinceRefresh, lastRefreshWall := packets + 1, 0, now;
    }

    /** The waiting records as one datagram, or nothing. */
    method FlushDatagram(now: real)
      modifies this
      ensures View() == Flushed(version, old(View()), now)
    {
      if pending == [] {
        return;
      }
      var flows := pending;
      pending := [];
      sent := sent + [Data(if version.V9? then packets + 1 else records, now, flows)];
      packets, records, packetsSinceRefresh := packets + 1, records + |flows|, packetsSinceRefresh + 1;
    }

    /** What the stream does with one flow. */
    method Accept(f: Flow)
      modifies this
      ensures View() == BurstStep(version, old(View()), f)
    {
      if version != V5 && packets == 0 {
        RefreshDatagram(f.tsEnd);
      }
      pending := pending + [f];
      if |pending| >= BatchSize(version) {
        FlushDatagram(f.tsEnd);
      }
      if version != V5 && packetsSinceRefresh >= REFRESH_EVERY_PACKETS {
        RefreshDatagram(f.tsEnd);
      }
    }

    /** What the live loop does with one flow. */
    method AcceptLive(f: Flow, now: real)
      modifies this
      ensures View() == LiveStep(version, old(View()), f, now)
    {
      if version != V5 && now - lastRefreshWall >= LIVE_TEMPLATE_REFRESH_S {
        RefreshDatagram(now);
      }
      pending := pending + [f];
      FlushDatagram(now);
    }
  }
}
