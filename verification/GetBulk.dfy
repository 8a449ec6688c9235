/**
 The agent's answers (demo/fleet.py): GETBULK as a capped form of GETNEXT that moves
 several cursors at once. Every repeating column of a reply is its successor chain,
 the columns are interleaved repetition by repetition, and chaining replies walks
 the table once, whatever the number of repetitions asked for.
 */
module GetBulk {
  import opened OidTable

  const MAX_VARBINDS_PER_REPLY := 120

  datatype Binding =
    | Bound(oid: Oid, value: int)
    | EndOfMibView(oid: Oid)
    | NoSuchObject(oid: Oid)
    | Unset(oid: Oid)

  /** The binding that answers a request for the successor of `o`. */
  function Answer(t: Table, o: Oid): Binding
    requires Valid(t)
  {
    match Next(t, o)
    case Some(n) => Bound(n, t.entries[n])
    case None => EndOfMibView(o)
  }

  /** Iterated GETNEXT: what `reps` requests, each for the successor of the last answer, give. The
      end of the table is reported once. */
  function Chain(t: Table, o: Oid, reps: nat): (c: seq<Binding>)
    requires Valid(t)
    ensures |c| <= reps
    decreases reps
  {
    if reps == 0 then []
    else match Next(t, o)
      case Some(n) => [Answer(t, o)] + Chain(t, n, reps - 1)
      case None => [Answer(t, o)]
  }

  /** A column of the request: still moving, or past the end. */
  datatype Cursor = At(oid: Oid) | Finished

  /** One binding of the reply's repeating part, with the repetition and the column it is for. */
  datatype Slot = Slot(rep: nat, col: nat, binding: Binding)

  function Moved(t: Table, c: Cursor): Cursor
    requires Valid(t)
  {
    match c
    case At(o) => (match Next(t, o) case Some(n) => At(n) case None => Finished)
    case Finished => Finished
  }

  function MoveAll(t: Table, cs: seq<Cursor>): (r: seq<Cursor>)
    requires Valid(t)
    ensures |r| == |cs|
  {
    seq(|cs|, i requires 0 <= i < |cs| => Moved(t, cs[i]))
  }

  /** One repetition: the unfinished columns in turn. */
  function Round(t: Table, cs: seq<Cursor>, rep: nat): seq<Slot>
    requires Valid(t)
  {
    if cs == [] then []
    else
      var init, last := Round(t, cs[..|cs| - 1], rep), cs[|cs| - 1];
      if last.At? then init + [Slot(rep, |cs| - 1, Answer(t, last.oid))] else init
  }

  /** The repeating part without a cap, from repetition `rep` on. */
  function Stream(t: Table, cs: seq<Cursor>, rep: nat, reps: nat): seq<Slot>
    requires Valid(t)
    decreases reps
  {
    if reps == 0 then [] else Round(t, cs, rep) + Stream(t, MoveAll(t, cs), rep + 1, reps - 1)
  }

  function Bindings(slots: seq<Slot>): (b: seq<Binding>)
    ensures |b| == |slots|
  {
    seq(|slots|, i requires 0 <= i < |slots| => slots[i].binding)
  }

  function Prefix<T>(s: seq<T>, n: int): seq<T> {
    if n <= 0 then [] else if n <= |s| then s[..n] else s
  }

  function Answers(t: Table, oids: seq<Oid>): (b: seq<Binding>)
    requires Valid(t)
    ensures |b| == |oids|
  {
    seq(|oids|, i requires 0 <= i < |oids| => Answer(t, oids[i]))
  }

  function Cursors(oids: seq<Oid>): (c: seq<Cursor>)
    ensures |c| == |oids|
  {
    seq(|oids|, i requires 0 <= i < |oids| => At(oids[i]))
  }

  /** The number of non-repeating columns, held between 0 and the number of columns. */
  function NonRepeating(oids: seq<Oid>, nonRepeaters: int): (n: nat)
    ensures n <= |oids|
  {
    if nonRepeaters < 0 then 0 else if nonRepeaters > |oids| then |oids| else nonRepeaters
  }

  function Repetitions(maxRepetitions: int): (n: nat)
    ensures n >= 1
  {
    if maxRepetitions < 1 then 1 else maxRepetitions
  }

  /** The slots of a reply's repeating part: the stream, cut where the reply is full. */
  function RepeatingSlots(t: Table, oids: seq<Oid>, nonRepeaters: int, maxRepetitions: int): seq<Slot>
    requires Valid(t)
  {
    var n := NonRepeating(oids, nonRepeaters);
    Prefix(Stream(t, Cursors(oids[n..]), 0, Repetitions(maxRepetitions)), MAX_VARBINDS_PER_REPLY - n)
  }

  function BulkReply(t: Table, oids: seq<Oid>, nonRepeaters: int, maxRepetitions: int): seq<Binding>
    requires Valid(t)
  {
    Answers(t, oids[..NonRepeating(oids, nonRepeaters)])
    + Bindings(RepeatingSlots(t, oids, nonRepeaters, maxRepetitions))
  }

  // ------------------------------------------------------- what a reply holds

  /** Repetition by repetition, and by column within one. */
  ghost predicate InOrder(slots: seq<Slot>) {
    forall j, k :: 0 <= j < k < |slots| ==>
      slots[j].rep < slots[k].rep || (slots[j].rep == slots[k].rep && slots[j].col < slots[k].col)
  }

  function ChainOf(t: Table, c: Cursor, reps: nat): seq<Binding>
    requires Valid(t)
  {
    if c.At? then Chain(t, c.oid, reps) else []
  }

  lemma {:induction false} RoundHolds(t: Table, cs: seq<Cursor>, rep: nat)
    requires Valid(t)
    ensures InOrder(Round(t, cs, rep))
    ensures forall s :: s in Round(t, cs, rep) <==>
              s.rep == rep && s.col < |cs| && cs[s.col].At? && s.binding == Answer(t, cs[s.col].oid)
  {
    if cs != [] {
      var init, n := cs[..|cs| - 1], |cs| - 1;
      RoundHolds(t, init, rep);
      var before := Round(t, init, rep);
      assert forall k :: 0 <= k < |before| ==> before[k] in before;
    }
  }

  lemma ChainStep(t: Table, c: Cursor, reps: nat)
    requires Valid(t) && reps > 0
    ensures ChainOf(t, c, reps) == if c.At? then [Answer(t, c.oid)] + ChainOf(t, Moved(t, c), reps - 1) else []
  {
  }

  /** A slot of the stream holds its column's chain at its repetition; and all chains are there. */
  ghost predicate HoldsChain(t: Table, cs: seq<Cursor>, rep: nat, reps: nat, s: Slot)
    requires Valid(t)
  {
    && s.col < |cs| && rep <= s.rep && s.rep - rep < |ChainOf(t, cs[s.col], reps)|
    && s.binding == ChainOf(t, cs[s.col], reps)[s.rep - rep]
  }

  lemma HoldsChainStep(t: Table, cs: seq<Cursor>, rep: nat, reps: nat, s: Slot)
    requires Valid(t) && reps > 0
    ensures HoldsChain(t, cs, rep, reps, s) <==>
            s in Round(t, cs, rep) || HoldsChain(t, MoveAll(t, cs), rep + 1, reps - 1, s)
  {
    RoundHolds(t, cs, rep);
    if s.col < |cs| {
      var c := cs[s.col];
      ChainStep(t, c, reps);
      assert MoveAll(t, cs)[s.col] == Moved(t, c);
      var rest := ChainOf(t, Moved(t, c), reps - 1);
      if c.At? && s.rep > rep {
        ShiftedIndex(Answer(t, c.oid), rest, s.rep - rep);
      }
    }
  }

  lemma ShiftedIndex<T>(first: T, rest: seq<T>, k: nat)
    requires k > 0
    ensures k < |[first] + rest| <==> k - 1 < |rest|
    ensures k - 1 < |rest| ==> ([first] + rest)[k] == rest[k - 1]
  {
  }

  /** The uncapped repeating part is fixed by two facts: it is in repetition-major order, and it
      holds exactly each column's successor chain. */
  lemma {:induction false} StreamHoldsTheChains(t: Table, cs: seq<Cursor>, rep: nat, reps: nat)
    requires Valid(t)
    ensures InOrder(Stream(t, cs, rep, reps))
    ensures forall s :: s in Stream(t, cs, rep, reps) <==> HoldsChain(t, cs, rep, reps, s)
    decreases reps
  {
    if reps > 0 {
      var first, rest := Round(t, cs, rep), Stream(t, MoveAll(t, cs), rep + 1, reps - 1);
      RoundHolds(t, cs, rep);
      StreamHoldsTheChains(t, MoveAll(t, cs), rep + 1, reps - 1);
      forall s ensures s in Stream(t, cs, rep, reps) <==> HoldsChain(t, cs, rep, reps, s) {
        HoldsChainStep(t, cs, rep, reps, s);
      }
      assert forall k :: 0 <= k < |first| ==> first[k] in first;
      assert forall k :: 0 <= k < |rest| ==> rest[k] in rest;
    }
  }

  /** The bindings of one column, in the order they are sent. */
  function Column(slots: seq<Slot>, col: nat): seq<Binding> {
    if slots == [] then []
    else
      var init, last := Column(slots[..|slots| - 1], col), slots[|slots| - 1];
      if last.col == col then init + [last.binding] else init
  }

  /** Slots that are in repetition-major order and hold exactly the columns' chains. */
  ghost predicate Interleaved(t: Table, cs: seq<Cursor>, reps: nat, all: seq<Slot>)
    requires Valid(t)
  {
    InOrder(all) && forall s :: s in all <==> HoldsChain(t, cs, 0, reps, s)
  }

  lemma ChainIsThere(t: Table, cs: seq<Cursor>, reps: nat, all: seq<Slot>, col: nat, rep: nat)
    requires Valid(t) && Interleaved(t, cs, reps, all) && col < |cs| && rep < |ChainOf(t, cs[col], reps)|
    ensures exists k :: 0 <= k < |all| && all[k].rep == rep && all[k].col == col
  {
    var s := Slot(rep, col, ChainOf(t, cs[col], reps)[rep]);
    assert s in all;
  }

  /** The slots of a column among the first n are those of its first repetitions. */
  ghost predicate SentSoFar(all: seq<Slot>, n: nat, col: nat, done: nat)
    requires n <= |all|
  {
    forall k :: 0 <= k < |all| && all[k].col == col ==> (k < n <==> all[k].rep < done)
  }

  lemma NextOfColumn(t: Table, cs: seq<Cursor>, reps: nat, all: seq<Slot>, n: nat, col: nat, done: nat)
    requires Valid(t) && Interleaved(t, cs, reps, all) && n < |all| && all[n].col == col && col < |cs|
    requires SentSoFar(all, n, col, done)
    ensures all[n].rep == done && done < |ChainOf(t, cs[col], reps)|
    ensures all[n].binding == ChainOf(t, cs[col], reps)[done]
    ensures SentSoFar(all, n + 1, col, done + 1)
  {
    assert all[n] in all;
    ChainIsThere(t, cs, reps, all, col, done);
  }

  /** A leading part of the slots holds a leading part of every column's chain, and all of them all
      of it. */
  lemma {:induction false} ColumnIsAPrefix(t: Table, cs: seq<Cursor>, reps: nat, all: seq<Slot>, n: nat, col: nat)
    requires Valid(t) && Interleaved(t, cs, reps, all) && n <= |all| && col < |cs|
    ensures
      var sent, chain := Column(all[..n], col), ChainOf(t, cs[col], reps);
      sent <= chain && SentSoFar(all, n, col, |sent|) && (n == |all| ==> sent == chain)
  {
    if n > 0 {
      assert all[..n][..n - 1] == all[..n - 1];
      ColumnIsAPrefix(t, cs, reps, all, n - 1, col);
      if all[n - 1].col == col {
        NextOfColumn(t, cs, reps, all, n - 1, col, |Column(all[..n - 1], col)|);
      }
    }
    var sent, chain := Column(all[..n], col), ChainOf(t, cs[col], reps);
    if n == |all| && |sent| < |chain| {
      ChainIsThere(t, cs, reps, all, col, |sent|);
    }
  }

  /** A reply in the request's own numbers, with n of its columns not repeating and r repetitions: first the
      successors of the first n columns, once each; then slots for the others, repetition-major, each
      column's a leading part of its chain of r -- the whole chain when the reply did not fill up. */
  lemma RepeatingColumns(t: Table, oids: seq<Oid>, n: nat, r: nat, col: nat)
    requires Valid(t) && n + col < |oids| && r >= 1
    ensures
      var reply, slots := BulkReply(t, oids, n, r), RepeatingSlots(t, oids, n, r);
      && reply == Answers(t, oids[..n]) + Bindings(slots)
      && InOrder(slots) && Column(slots, col) <= Chain(t, oids[n + col], r)
      && (|reply| < 120 ==> Column(slots, col) == Chain(t, oids[n + col], r))
  {
    assert oids[n..][col] == oids[n + col];
    CappedColumn(t, Cursors(oids[n..]), r, MAX_VARBINDS_PER_REPLY - n, col);
  }

  /** The non-repeating columns come first, in order, each with its successor or the end of the table. */
  lemma NonRepeatingComeFirst(t: Table, oids: seq<Oid>, n: nat, r: int, col: nat)
    requires Valid(t) && col < n <= |oids|
    ensures
      var reply := BulkReply(t, oids, n, r);
      && col < |reply|
      && reply[col] == match Next(t, oids[col])
                       case Some(o) => Bound(o, t.entries[o])
                       case None => EndOfMibView(oids[col])
  {
    assert Answers(t, oids[..n])[col] == Answer(t, oids[col]);
  }

  /** Numbers out of range: fewer than no columns counts as none, more than there are as all of them, and
      fewer than one repetition as one. */
  lemma OutOfRange(t: Table, oids: seq<Oid>, n: int, r: int)
    requires Valid(t)
    ensures n < 0 ==> BulkReply(t, oids, n, r) == BulkReply(t, oids, 0, r)
    ensures n >= |oids| ==> BulkReply(t, oids, n, r) == Answers(t, oids)
    ensures r < 1 ==> BulkReply(t, oids, n, r) == BulkReply(t, oids, n, 1)
  {
    if n >= |oids| {
      assert oids[..|oids|] == oids && Cursors(oids[|oids|..]) == [];
      NoColumnsNoSlots(t, 0, if r < 1 then 1 else r);
    }
  }

  lemma {:induction false} NoColumnsNoSlots(t: Table, rep: nat, reps: nat)
    requires Valid(t)
    ensures Stream(t, [], rep, reps) == []
    decreases reps
  {
    if reps > 0 {
      NoColumnsNoSlots(t, rep + 1, reps - 1);
      assert MoveAll(t, []) == [];
    }
  }

  lemma CappedColumn(t: Table, cs: seq<Cursor>, reps: nat, room: int, col: nat)
    requires Valid(t) && col < |cs|
    ensures
      var slots := Prefix(Stream(t, cs, 0, reps), room);
      && InOrder(slots) && Column(slots, col) <= ChainOf(t, cs[col], reps)
      && (|slots| < room ==> Column(slots, col) == ChainOf(t, cs[col], reps))
  {
    var all := Stream(t, cs, 0, reps);
    var slots := Prefix(all, room);
    StreamHoldsTheChains(t, cs, 0, reps);
    PrefixIsTaken(all, room);
    ColumnIsAPrefix(t, cs, reps, all, |slots|, col);
    TakenInOrder(all, |slots|);
    if |slots| < room {
      assert slots == all;
    }
  }

  lemma PrefixIsTaken<T>(s: seq<T>, n: int)
    ensures |Prefix(s, n)| <= |s| && Prefix(s, n) == s[..|Prefix(s, n)|]
    ensures |Prefix(s, n)| < n ==> |Prefix(s, n)| == |s|
  {
  }

  lemma TakenInOrder(slots: seq<Slot>, n: nat)
    requires InOrder(slots) && n <= |slots|
    ensures InOrder(slots[..n])
  {
  }

  /** A reply holds at most 120 bindings, or as many as there are non-repeating columns. */
  lemma ReplySize(t: Table, oids: seq<Oid>, nonRepeaters: int, maxRepetitions: int)
    requires Valid(t)
    ensures
      var n := NonRepeating(oids, nonRepeaters);
      n <= |BulkReply(t, oids, nonRepeaters, maxRepetitions)| <= if n > 120 then n else 120
  {
  }

  lemma RoundOfAll(t: Table, oids: seq<Oid>)
    requires Valid(t)
    ensures Bindings(Round(t, Cursors(oids), 0)) == Answers(t, oids)
  {
    if oids != [] {
      var n := |oids| - 1;
      RoundOfAll(t, oids[..n]);
      assert Cursors(oids)[..n] == Cursors(oids[..n]);
      assert Answers(t, oids) == Answers(t, oids[..n]) + [Answer(t, oids[n])];
    }
  }

  /** One GETBULK of one repetition is a GETNEXT, whatever the number of non-repeaters, cut where the
      reply is full: after 120 bindings, or after the non-repeating columns if they are more. */
  lemma OneRepetitionIsGetNext(t: Table, oids: seq<Oid>, nonRepeaters: int)
    requires Valid(t)
    ensures
      var n := NonRepeating(oids, nonRepeaters);
      BulkReply(t, oids, nonRepeaters, 1)
        == Prefix(Answers(t, oids), if n < 120 then 120 else n)
  {
    var n := NonRepeating(oids, nonRepeaters);
    var first := Round(t, Cursors(oids[n..]), 0);
    RoundOfAll(t, oids[n..]);
    OneRound(t, Cursors(oids[n..]));
    BindingsPrefix(first, MAX_VARBINDS_PER_REPLY - n);
    AnswersSplit(t, oids, n, MAX_VARBINDS_PER_REPLY - n);
  }

  lemma OneRound(t: Table, cs: seq<Cursor>)
    requires Valid(t)
    ensures Stream(t, cs, 0, 1) == Round(t, cs, 0)
  {
    assert Stream(t, MoveAll(t, cs), 1, 0) == [];
  }

  lemma BindingsPrefix(slots: seq<Slot>, n: int)
    ensures Bindings(Prefix(slots, n)) == Prefix(Bindings(slots), n)
  {
  }

  lemma AnswersSplit(t: Table, oids: seq<Oid>, n: nat, room: int)
    requires Valid(t) && n <= |oids|
    ensures Answers(t, oids[..n]) + Prefix(Answers(t, oids[n..]), room) ==
                Prefix(Answers(t, oids), if room > 0 then n + room else n)
  {
  }

  // --------------------------------------------------------------- the walk

  /** Everything from the key at i on, then the end of the table. */
  function Tail(t: Table, i: nat): seq<Binding>
    requires Valid(t) && i <= |t.keys|
  {
    seq(|t.keys| - i, j requires 0 <= j < |t.keys| - i => Bound(t.keys[i + j], t.entries[t.keys[i + j]]))
  }

  /** The end of a walk is reported on the last object it reached. */
  function LastFrom(t: Table, o: Oid): Oid
    requires Valid(t)
  {
    if Rank(t.keys, o) == |t.keys| then o else t.keys[|t.keys| - 1]
  }

  /** What a walk from `o` yields: every object after it, then the end. */
  function Ahead(t: Table, o: Oid): seq<Binding>
    requires Valid(t)
  {
    Tail(t, Rank(t.keys, o)) + [EndOfMibView(LastFrom(t, o))]
  }

  /** The same, object by object, from the key at i on; `o` is the last object reached. */
  function AheadFrom(t: Table, i: nat, o: Oid): seq<Binding>
    requires Valid(t) && i <= |t.keys|
    decreases |t.keys| - i
  {
    if i == |t.keys| then [EndOfMibView(o)]
    else [Bound(t.keys[i], t.entries[t.keys[i]])] + AheadFrom(t, i + 1, t.keys[i])
  }

  lemma {:induction false} AheadFromIsTheTail(t: Table, i: nat, o: Oid)
    requires Valid(t) && i <= |t.keys|
    ensures AheadFrom(t, i, o) == Tail(t, i) + [EndOfMibView(if i == |t.keys| then o else t.keys[|t.keys| - 1])]
    decreases |t.keys| - i
  {
    if i < |t.keys| {
      AheadFromIsTheTail(t, i + 1, t.keys[i]);
      TailStarts(t, i);
    }
  }

  lemma {:induction false} ChainFrom(t: Table, o: Oid, reps: nat, i: nat)
    requires Valid(t) && Rank(t.keys, o) == i
    ensures Chain(t, o, reps) == Prefix(AheadFrom(t, i, o), reps)
    decreases reps
  {
    if reps > 0 && i < |t.keys| {
      RankOfKey(t, i);
      ChainFrom(t, t.keys[i], reps - 1, i + 1);
      PrefixStarts(Answer(t, o), AheadFrom(t, i + 1, t.keys[i]), reps);
    }
  }

  /** A chain is the table from the request on, one object after the other, cut at `reps`. */
  lemma ChainIsTheTail(t: Table, o: Oid, reps: nat)
    requires Valid(t)
    ensures Chain(t, o, reps) == Prefix(Ahead(t, o), reps)
  {
    ChainFrom(t, o, reps, Rank(t.keys, o));
    AheadFromIsTheTail(t, Rank(t.keys, o), o);
  }

  lemma TailStarts(t: Table, i: nat)
    requires Valid(t) && i < |t.keys|
    ensures Tail(t, i) == [Bound(t.keys[i], t.entries[t.keys[i]])] + Tail(t, i + 1)
  {
  }

  lemma Regroup<T>(a: seq<T>, b: seq<T>, c: seq<T>)
    ensures (a + b) + c == a + (b + c)
  {
  }

  lemma PrefixStarts<T>(first: T, rest: seq<T>, n: nat)
    requires n > 0
    ensures Prefix([first] + rest, n) == [first] + Prefix(rest, n - 1)
  {
  }

  lemma PrefixAppends<T>(first: seq<T>, rest: seq<T>, n: nat)
    requires |first| <= n
    ensures Prefix(first + rest, n) == first + Prefix(rest, n - |first|)
  {
  }

  lemma BindingsAppend(a: seq<Slot>, b: seq<Slot>)
    ensures Bindings(a + b) == Bindings(a) + Bindings(b)
  {
  }

  lemma AnswersOneMore(t: Table, oids: seq<Oid>, k: nat)
    requires Valid(t) && k < |oids|
    ensures Answers(t, oids[..k + 1]) == Answers(t, oids[..k]) + [Answer(t, oids[k])]
  {
  }

  lemma {:induction false} SingleColumnStream(t: Table, c: Cursor, rep: nat, reps: nat)
    requires Valid(t)
    ensures Bindings(Stream(t, [c], rep, reps)) == ChainOf(t, c, reps)
    decreases reps
  {
    if reps > 0 {
      ChainStep(t, c, reps);
      SingleColumnStream(t, Moved(t, c), rep + 1, reps - 1);
      assert MoveAll(t, [c]) == [Moved(t, c)];
      assert [c][..0] == [];
      assert Round(t, [c], rep) == if c.At? then [Slot(rep, 0, Answer(t, c.oid))] else [];
      if c.Finished? {
        assert Stream(t, [c], rep, reps) == Stream(t, [c], rep + 1, reps - 1);
      } else {
        assert Stream(t, [c], rep, reps)
            == [Slot(rep, 0, Answer(t, c.oid))] + Stream(t, [Moved(t, c)], rep + 1, reps - 1);
      }
    }
  }

  /** A single-column reply is the next part of the table: as many objects as asked for, one if less than
      one is, and never more than fit. */
  lemma SingleColumnReply(t: Table, o: Oid, r: int)
    requires Valid(t)
    ensures r < 1 ==> BulkReply(t, [o], 0, r) == Prefix(Ahead(t, o), 1)
    ensures 1 <= r <= 120 ==> BulkReply(t, [o], 0, r) == Prefix(Ahead(t, o), r)
    ensures r > 120 ==> BulkReply(t, [o], 0, r) == Prefix(Ahead(t, o), 120)
  {
    var reps := Repetitions(r);
    SingleColumnParts(t, o, r);
    BindingsPrefix(Stream(t, [At(o)], 0, reps), MAX_VARBINDS_PER_REPLY);
    SingleColumnStream(t, At(o), 0, reps);
    ChainIsTheTail(t, o, reps);
    PrefixTwice(Ahead(t, o), reps, MAX_VARBINDS_PER_REPLY);
  }

  lemma SingleColumnParts(t: Table, o: Oid, maxRepetitions: int)
    requires Valid(t)
    ensures BulkReply(t, [o], 0, maxRepetitions)
            == Bindings(Prefix(Stream(t, [At(o)], 0, Repetitions(maxRepetitions)), MAX_VARBINDS_PER_REPLY))
  {
    assert [o][0..] == [o] && Cursors([o]) == [At(o)];
    assert Answers(t, [o][..0]) == [];
  }

  lemma PrefixTwice<T>(s: seq<T>, a: nat, b: nat)
    ensures Prefix(Prefix(s, a), b) == Prefix(s, if a < b then a else b)
  {
  }
}
