/**
 The agent's request handling (demo/fleet.py), in the loops it uses: each is proved
 to give the reply the GetBulk module describes, and a chain of single-column
 GETBULK replies to walk the table exactly once.
 */
module SnmpAgent {
  import opened Wrappers
  import opened Lexicographic
  import opened OidTable
  import opened GetBulk

  datatype Version = V1 | V2c
  datatype PduTag = Get | GetNext | GetBulkTag | OtherTag
  datatype Request = Request(version: Version, tag: PduTag, oids: seq<Oid>, errorStatus: int, errorIndex: int)
  datatype Reply = Reply(body: seq<Binding>, errorStatus: int, errorIndex: int)

  const NO_SUCH_NAME := 2
  const TOO_BIG := 1
  const GEN_ERR := 5
  const AUTHORIZATION_ERROR := 16

  function Nulls(oids: seq<Oid>): seq<Binding> {
    seq(|oids|, i requires 0 <= i < |oids| => Unset(oids[i]))
  }

  function Lookup(t: Table, o: Oid): Binding
    requires Valid(t)
  {
    if o in t.entries then Bound(o, t.entries[o]) else NoSuchObject(o)
  }

  predicate Fails(b: Binding) {
    b.NoSuchObject? || b.EndOfMibView?
  }

  /** What a version 1 reply makes of the answers a version 2 reply would hold: the first that fails
      spoils them all. */
  ghost predicate ForVersion(version: Version, answers: seq<Binding>, oids: seq<Oid>, r: Reply) {
    if version.V1? && exists i :: 0 <= i < |answers| && Fails(answers[i]) then
      && |r.body| == |oids| && (forall i :: 0 <= i < |oids| ==> r.body[i] == Unset(oids[i]))
      && r.errorStatus == 2 && 1 <= r.errorIndex <= |answers|
      && Fails(answers[r.errorIndex - 1]) && forall i :: 0 <= i < r.errorIndex - 1 ==> !Fails(answers[i])
    else r == Reply(answers, 0, 0)
  }

  /** GET and GETNEXT tell of one table: the object a GETNEXT leads to is what a GET of its name answers, and
      there is none between it and the name asked about. */
  lemma GetAgreesWithGetNext(t: Table, o: Oid, x: Oid)
    requires Valid(t)
    ensures Next(t, o).Some? ==> Lookup(t, Next(t, o).value) == Answer(t, o)
    ensures Less(o, x) && (Next(t, o).Some? ==> Less(x, Next(t, o).value)) ==> Lookup(t, x) == NoSuchObject(x)
  {
    NextIsLeastGreater(t, o);
    if Next(t, o).Some? {
      LessTotal(x, Next(t, o).value);
    }
  }

  /** _get_body. */
  method GetBody(t: Table, oids: seq<Oid>, version: Version) returns (r: Reply)
    requires Valid(t)
    ensures ForVersion(version, seq(|oids|, i requires 0 <= i < |oids| => Lookup(t, oids[i])), oids, r)
  {
    var body := [];
    ghost var answers := seq(|oids|, i requires 0 <= i < |oids| => Lookup(t, oids[i]));
    for k := 0 to |oids|
      invariant body == answers[..k]
      invariant version.V1? ==> forall i :: 0 <= i < k ==> !Fails(answers[i])
    {
      if oids[k] in t.entries {
        body := body + [Bound(oids[k], t.entries[oids[k]])];
      } else if version.V1? {
        assert Fails(answers[k]);
        return Reply(Nulls(oids), NO_SUCH_NAME, k + 1);
      } else {
        body := body + [NoSuchObject(oids[k])];
      }
    }
    return Reply(body, 0, 0);
  }

  /** _getnext_body. */
  method GetNextBody(t: Table, oids: seq<Oid>, version: Version) returns (r: Reply)
    requires Valid(t)
    ensures ForVersion(version, Answers(t, oids), oids, r)
  {
    var body := [];
    ghost var answers := Answers(t, oids);
    for k := 0 to |oids|
      invariant body == answers[..k]
      invariant version.V1? ==> forall i :: 0 <= i < k ==> !Fails(answers[i])
    {
      var next := NextOid(t, oids[k]);
      if next.Some? {
        body := body + [Bound(next.value, t.entries[next.value])];
      } else if version.V1? {
        assert Fails(answers[k]);
        return Reply(Nulls(oids), NO_SUCH_NAME, k + 1);
      } else {
        body := body + [EndOfMibView(oids[k])];
      }
    }
    return Reply(body, 0, 0);
  }

  // ---------------------------------------------------------------- GETBULK

  function CursorsOf(cursors: seq<Oid>, exhausted: seq<bool>): (c: seq<Cursor>)
    requires |cursors| == |exhausted|
    ensures |c| == |cursors|
  {
    seq(|cursors|, i requires 0 <= i < |cursors| => if exhausted[i] then Finished else At(cursors[i]))
  }

  /** What a reply still holds from repetition `rep` on. */
  ghost function Rest(t: Table, cs: seq<Cursor>, rep: nat, reps: nat, room: int): seq<Binding>
    requires Valid(t) && rep <= reps
  {
    Bindings(Prefix(Stream(t, cs, rep, reps - rep), room))
  }

  lemma {:induction false} FinishedRoundIsEmpty(t: Table, cs: seq<Cursor>, rep: nat)
    requires Valid(t) && forall i :: 0 <= i < |cs| ==> cs[i].Finished?
    ensures Round(t, cs, rep) == []
  {
    if cs != [] {
      FinishedRoundIsEmpty(t, cs[..|cs| - 1], rep);
    }
  }

  lemma {:induction false} FinishedStreamIsEmpty(t: Table, cs: seq<Cursor>, rep: nat, reps: nat)
    requires Valid(t) && forall i :: 0 <= i < |cs| ==> cs[i].Finished?
    ensures Stream(t, cs, rep, reps) == []
    decreases reps
  {
    if reps > 0 {
      FinishedRoundIsEmpty(t, cs, rep);
      FinishedStreamIsEmpty(t, MoveAll(t, cs), rep + 1, reps - 1);
    }
  }

  lemma {:induction false} RoundPrefix(t: Table, cs: seq<Cursor>, rep: nat, n: nat)
    requires Valid(t) && n <= |cs|
    ensures Round(t, cs[..n], rep) <= Round(t, cs, rep)
  {
    if n < |cs| {
      assert cs[..|cs| - 1][..n] == cs[..n];
      RoundPrefix(t, cs[..|cs| - 1], rep, n);
    } else {
      assert cs[..n] == cs;
    }
  }

  /** A reply that fills up within a repetition is complete. */
  lemma FullWithinRound(t: Table, cs: seq<Cursor>, rep: nat, reps: nat, n: nat, room: nat)
    requires Valid(t) && n <= |cs| && rep < reps && |Round(t, cs[..n], rep)| == room
    ensures Rest(t, cs, rep, reps, room) == Bindings(Round(t, cs[..n], rep))
  {
    RoundPrefix(t, cs, rep, n);
  }

  lemma StreamUnfolds(t: Table, cs: seq<Cursor>, rep: nat, reps: nat)
    requires Valid(t) && rep < reps
    ensures Stream(t, cs, rep, reps - rep) == Round(t, cs, rep) + Stream(t, MoveAll(t, cs), rep + 1, reps - (rep + 1))
  {
  }

  /** A repetition that leaves room is followed by the next. */
  lemma RoundThenRest(t: Table, cs: seq<Cursor>, rep: nat, reps: nat, room: nat)
    requires Valid(t) && rep < reps && |Round(t, cs, rep)| <= room
    ensures
      Rest(t, cs, rep, reps, room)
        == Bindings(Round(t, cs, rep)) + Rest(t, MoveAll(t, cs), rep + 1, reps, room - |Round(t, cs, rep)|)
  {
    StreamUnfolds(t, cs, rep, reps);
    BindingsOfPrefix(Round(t, cs, rep), Stream(t, MoveAll(t, cs), rep + 1, reps - (rep + 1)), room);
  }

  lemma BindingsOfPrefix(first: seq<Slot>, later: seq<Slot>, room: nat)
    requires |first| <= room
    ensures Bindings(Prefix(first + later, room)) == Bindings(first) + Bindings(Prefix(later, room - |first|))
  {
    PrefixAppends(first, later, room);
    BindingsAppend(first, Prefix(later, room - |first|));
  }

  /** The non-repeating columns: one successor each. */
  method Successors(t: Table, oids: seq<Oid>) returns (body: seq<Binding>)
    requires Valid(t)
    ensures body == Answers(t, oids)
  {
    body := [];
    for k := 0 to |oids|
      invariant body == Answers(t, oids[..k])
    {
      AnswersOneMore(t, oids, k);
      var next := NextOid(t, oids[k]);
      body := body + [if next.Some? then Bound(next.value, t.entries[next.value]) else EndOfMibView(oids[k])];
    }
    assert oids[..|oids|] == oids;
  }

  /** _getbulk_body. */
  method GetBulkBody(t: Table, oids: seq<Oid>, nonRepeaters: int, maxRepetitions: int) returns (body: seq<Binding>)
    requires Valid(t)
    ensures body == BulkReply(t, oids, nonRepeaters, maxRepetitions)
  {
    var n := NonRepeating(oids, nonRepeaters);
    body := Successors(t, oids[..n]);
    var cursors, reps := oids[n..], Repetitions(maxRepetitions);
    var exhausted := seq(|cursors|, _ => false);
    ghost var whole := BulkReply(t, oids, nonRepeaters, maxRepetitions);
    assert CursorsOf(cursors, exhausted) == Cursors(oids[n..]);
    var rep := 0;
    while rep < reps
      invariant rep <= reps && |cursors| == |exhausted|
      invariant body + Rest(t, CursorsOf(cursors, exhausted), rep, reps, MAX_VARBINDS_PER_REPLY - |body|) == whole
      decreases reps - rep
    {
      if |body| >= MAX_VARBINDS_PER_REPLY || forall i :: 0 <= i < |exhausted| ==> exhausted[i] {
        break;
      }
      ghost var cs, sent := CursorsOf(cursors, exhausted), body;
      ghost var upTo;
      body, cursors, exhausted, upTo := Repetition(t, cursors, exhausted, body, rep);
      RepetitionKeepsReply(t, cs, CursorsOf(cursors, exhausted), sent, body, rep, reps, upTo);
      rep := rep + 1;
    }
    if |body| < MAX_VARBINDS_PER_REPLY {
      if rep < reps {
        FinishedStreamIsEmpty(t, CursorsOf(cursors, exhausted), rep, reps - rep);
      }
    }
  }

  /** The first `n` columns have made their move, the others not yet. */
  ghost predicate MovedSoFar(t: Table, cs: seq<Cursor>, now: seq<Cursor>, n: nat)
    requires Valid(t)
  {
    |now| == |cs| && forall k :: 0 <= k < |cs| ==> now[k] == if k < n then Moved(t, cs[k]) else cs[k]
  }

  lemma RoundOneMore(t: Table, cs: seq<Cursor>, rep: nat, i: nat)
    requires Valid(t) && i < |cs|
    ensures
      Bindings(Round(t, cs[..i + 1], rep))
        == Bindings(Round(t, cs[..i], rep)) + if cs[i].At? then [Answer(t, cs[i].oid)] else []
  {
    assert cs[..i + 1][..i] == cs[..i] && cs[..i + 1][i] == cs[i];
  }

  /** One unfinished column's move. */
  method Advance(t: Table, cursors0: seq<Oid>, exhausted0: seq<bool>, body0: seq<Binding>, i: nat)
      returns (body: seq<Binding>, cursors: seq<Oid>, exhausted: seq<bool>)
    requires Valid(t) && i < |cursors0| == |exhausted0| && !exhausted0[i]
    ensures |cursors| == |exhausted|
    ensures body == body0 + [Answer(t, cursors0[i])]
    ensures CursorsOf(cursors, exhausted) == CursorsOf(cursors0, exhausted0)[i := Moved(t, At(cursors0[i]))]
  {
    body, cursors, exhausted := body0, cursors0, exhausted0;
    var next := NextOid(t, cursors[i]);
    if next.Some? {
      body, cursors := body + [Bound(next.value, t.entries[next.value])], cursors[i := next.value];
    } else {
      body, exhausted := body + [EndOfMibView(cursors[i])], exhausted[i := true];
    }
  }

  /** The inner loop: one repetition, stopped after the column (`upTo` - 1) that fills the reply. */
  method Repetition(t: Table, cursors0: seq<Oid>, exhausted0: seq<bool>, body0: seq<Binding>, ghost rep: nat)
      returns (body: seq<Binding>, cursors: seq<Oid>, exhausted: seq<bool>, ghost upTo: nat)
    requires Valid(t) && |cursors0| == |exhausted0| && |body0| < MAX_VARBINDS_PER_REPLY
    ensures |cursors| == |exhausted| && upTo <= |cursors0|
    ensures body == body0 + Bindings(Round(t, CursorsOf(cursors0, exhausted0)[..upTo], rep))
    ensures |body| <= MAX_VARBINDS_PER_REPLY
    ensures |body| < MAX_VARBINDS_PER_REPLY ==>
              upTo == |cursors0| && CursorsOf(cursors, exhausted) == MoveAll(t, CursorsOf(cursors0, exhausted0))
  {
    body, cursors, exhausted := body0, cursors0, exhausted0;
    ghost var cs := CursorsOf(cursors0, exhausted0);
    for i := 0 to |cursors0|
      invariant |cursors| == |exhausted| == |cursors0|
      invariant MovedSoFar(t, cs, CursorsOf(cursors, exhausted), i)
      invariant body == body0 + Bindings(Round(t, cs[..i], rep)) && |body| < MAX_VARBINDS_PER_REPLY
    {
      RoundOneMore(t, cs, rep, i);
      assert CursorsOf(cursors, exhausted)[i] == cs[i];
      if exhausted[i] {
        continue;
      }
      body, cursors, exhausted := Advance(t, cursors, exhausted, body, i);
      if |body| >= MAX_VARBINDS_PER_REPLY {
        return body, cursors, exhausted, i + 1;
      }
    }
    upTo := |cursors0|;
  }

  /** A repetition takes from what is still to come exactly what it adds to the reply. */
  lemma RepetitionKeepsReply(t: Table, cs: seq<Cursor>, after: seq<Cursor>, body0: seq<Binding>, body: seq<Binding>,
                             rep: nat, reps: nat, upTo: nat)
    requires Valid(t) && |body0| < MAX_VARBINDS_PER_REPLY && rep < reps && upTo <= |cs|
    requires body == body0 + Bindings(Round(t, cs[..upTo], rep)) && |body| <= MAX_VARBINDS_PER_REPLY
    requires |body| < MAX_VARBINDS_PER_REPLY ==> upTo == |cs| && after == MoveAll(t, cs)
    ensures
      body0 + Rest(t, cs, rep, reps, MAX_VARBINDS_PER_REPLY - |body0|)
        == body + Rest(t, after, rep + 1, reps, MAX_VARBINDS_PER_REPLY - |body|)
  {
    if |body| < MAX_VARBINDS_PER_REPLY {
      assert cs[..upTo] == cs;
      RoundThenRest(t, cs, rep, reps, MAX_VARBINDS_PER_REPLY - |body0|);
    } else {
      FullWithinRound(t, cs, rep, reps, upTo, MAX_VARBINDS_PER_REPLY - |body0|);
    }
  }

  lemma TailSplits(t: Table, i: nat, n: nat)
    requires Valid(t) && 0 < n <= |t.keys| - i
    ensures
      var last := t.keys[i + n - 1];
      Tail(t, i)[n - 1] == Bound(last, t.entries[last]) && Tail(t, i) == Tail(t, i)[..n] + Tail(t, i + n)
  {
  }

  /** What is ahead splits at any object on the way. */
  lemma AheadSplits(t: Table, o: Oid, n: nat)
    requires Valid(t) && 0 < n <= |t.keys| - Rank(t.keys, o)
    ensures
      var last := t.keys[Rank(t.keys, o) + n - 1];
      && Rank(t.keys, last) == Rank(t.keys, o) + n
      && Ahead(t, o)[n - 1] == Bound(last, t.entries[last])
      && Ahead(t, o)[..n] + Ahead(t, last) == Ahead(t, o)
  {
    var i := Rank(t.keys, o);
    RankOfKey(t, i + n - 1);
    TailSplits(t, i, n);
    var last := t.keys[i + n - 1];
    assert LastFrom(t, last) == LastFrom(t, o);
    Regroup(Tail(t, i)[..n], Tail(t, i + n), [EndOfMibView(LastFrom(t, last))]);
    assert Ahead(t, o)[..n] == Tail(t, i)[..n];
  }

  lemma ReplyIsAPart(t: Table, o: Oid, maxRepetitions: int) returns (k: nat)
    requires Valid(t)
    ensures k > 0 && BulkReply(t, [o], 0, maxRepetitions) == Prefix(Ahead(t, o), k)
  {
    SingleColumnReply(t, o, maxRepetitions);
    k := if maxRepetitions < 1 then 1 else if maxRepetitions > 120 then 120 else maxRepetitions;
  }

  /** One reply is everything ahead, or a part of it that ends on an object further on. */
  lemma ReplyGoesForward(t: Table, o: Oid, maxRepetitions: int)
    requires Valid(t)
    ensures
      var reply := BulkReply(t, [o], 0, maxRepetitions);
      && reply != []
      && match reply[|reply| - 1]
         case EndOfMibView(_) => reply == Ahead(t, o)
         case Bound(last, _) => Rank(t.keys, o) < Rank(t.keys, last) && reply + Ahead(t, last) == Ahead(t, o)
         case _ => false
  {
    var k := ReplyIsAPart(t, o, maxRepetitions);
    var reply, ahead := BulkReply(t, [o], 0, maxRepetitions), Ahead(t, o);
    assert reply == ahead[..|reply|];
    if |reply| < |ahead| {
      AheadSplits(t, o, |reply|);
    } else {
      assert reply == ahead;
    }
  }

  /** Chaining single-column replies, each from the last object of the one before: it ends, and
      yields every object after the start once, in order, whatever is asked per reply. */
  method Walk(t: Table, start: Oid, maxRepetitions: int) returns (out: seq<Binding>)
    requires Valid(t)
    ensures out == Ahead(t, start)
  {
    out := [];
    var o, done := start, false;
    while !done
      invariant done ==> out == Ahead(t, start)
      invariant !done ==> out + Ahead(t, o) == Ahead(t, start)
      decreases !done, |t.keys| - Rank(t.keys, o)
    {
      var reply := GetBulkBody(t, [o], 0, maxRepetitions);
      ReplyGoesForward(t, o, maxRepetitions);
      var last := reply[|reply| - 1];
      if last.EndOfMibView? {
        done := true;
      } else {
        Regroup(out, reply, Ahead(t, last.oid));
        o := last.oid;
      }
      out := out + reply;
    }
  }

  // --------------------------------------------------------------- dispatch

  /** A device's agent; `v3` is set for one that answers version 3 alone. */
  class Agent {
    const v3: bool
    const v1Only: bool
    const authFail: bool
    const tooBig: bool
    var drops: nat
    var requests: nat
    var gets: nat
    var getnexts: nat
    var getbulks: nat

    constructor (v3: bool, v1Only: bool, authFail: bool, tooBig: bool)
      ensures this.v3 == v3 && this.v1Only == v1Only && this.authFail == authFail && this.tooBig == tooBig
      ensures drops == requests == gets == getnexts == getbulks == 0
    {
      this.v3, this.v1Only, this.authFail, this.tooBig := v3, v1Only, authFail, tooBig;
      drops, requests, gets, getnexts, getbulks := 0, 0, 0, 0, 0;
    }

    /** Whether the request reaches the agent at all. */
    predicate Accepts(alive: bool, packet: Option<Request>, communityOk: bool) {
      alive && packet.Some? && !v3 && !(v1Only && !packet.value.version.V1?) && communityOk
    }

    /** handle_packet for community-based requests; `packet` is None when it does not decode. Every
        packet is either answered, and counted under one kind of request, or counted as dropped. */
    method HandlePacket(alive: bool, packet: Option<Request>, communityOk: bool,
                        t: Table) returns (reply: Option<Reply>)
      requires Valid(t)
      modifies this
      ensures reply.Some? <==>
              && alive && communityOk && !v3 && packet.Some? && (v1Only ==> packet.value.version == V1)
              && (authFail || packet.value.tag != OtherTag)
      ensures drops == old(drops) + if reply.Some? then 0 else 1
      ensures requests == old(requests) +
              if alive && communityOk && !v3 && packet.Some? && (v1Only ==> packet.value.version == V1) then 1 else 0
      ensures gets + getnexts + getbulks == old(gets + getnexts + getbulks) + if reply.Some? then 1 else 0
      ensures reply.Some? && authFail ==> reply.value == Reply(Nulls(packet.value.oids), 16, 0)
      ensures reply.Some? && !authFail && packet.value.tag.GetNext? ==>
                getnexts == old(getnexts) + 1
                && ForVersion(packet.value.version, Answers(t, packet.value.oids), packet.value.oids, reply.value)
      ensures reply.Some? && !authFail && packet.value.tag.Get? ==>
                var oids := packet.value.oids;
                gets == old(gets) + 1
                && ForVersion(packet.value.version, seq(|oids|, i requires 0 <= i < |oids| => Lookup(t, oids[i])),
                              oids, reply.value)
      ensures reply.Some? && !authFail && packet.value.tag.GetBulkTag? ==>
                var p := packet.value;
                getbulks == old(getbulks) + 1
                && reply.value ==
                   if v1Only then Reply(Nulls(p.oids), 5, 0)
                   else if tooBig && p.errorIndex > 8 then Reply([], 1, 0)
                   else Reply(BulkReply(t, p.oids, p.errorStatus, p.errorIndex), 0, 0)
    {
      if !Accepts(alive, packet, communityOk) {
        drops := drops + 1;
        return None;
      }
      var p := packet.value;
      requests := requests + 1;
      if authFail {
        gets := gets + 1;
        return Some(Reply(Nulls(p.oids), AUTHORIZATION_ERROR, 0));
      }
      match p.tag {
        case Get =>
          gets := gets + 1;
          var r := GetBody(t, p.oids, p.version);
          return Some(r);
        case GetNext =>
          getnexts := getnexts + 1;
          var r := GetNextBody(t, p.oids, p.version);
          return Some(r);
        case GetBulkTag =>
          getbulks := getbulks + 1;
          if v1Only {
            return Some(Reply(Nulls(p.oids), GEN_ERR, 0));
          }
          var nonRepeaters := if p.errorStatus < 0 then 0 else p.errorStatus;
          var maxRepetitions := if p.errorIndex < 1 then 1 else p.errorIndex;
          if tooBig && maxRepetitions > 8 {
            return Some(Reply([], TOO_BIG, 0));
          }
          var body := GetBulkBody(t, p.oids, nonRepeaters, maxRepetitions);
          return Some(Reply(body, 0, 0));
        case OtherTag =>
          drops := drops + 1;
          return None;
      }
    }
  }
}
