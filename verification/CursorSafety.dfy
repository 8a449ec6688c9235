/**
 Cursor safety over whole runs: whatever fails and whenever, a stored cursor never
 stands above a row that no apply loop was given. Rows come and go in the source
 tables between any two steps; stages, ticks and flushes may stop anywhere.
 */
module CursorSafety {
  import opened Wrappers
  import opened Cursors

  datatype Phase = Idle | Draining | Applied

  /** The engine and its sources. `batch` is what this tick's drains have handed over so far;
      `handed` what some apply loop has been through; `exempt` the rows that were already there
      when their source was seeded. */
  datatype Engine = Engine(
    tables: map<Source, seq<SourceRow>>, cursors: map<Source, nat>, advances: map<Source, nat>, phase: Phase,
    ghost batch: set<(Source, SourceRow)>, ghost handed: set<(Source, SourceRow)>,
        ghost exempt: set<(Source, SourceRow)>)

  datatype Event =
    | Insert(s: Source, row: SourceRow)
    | Delete(s: Source, ids: set<nat>)
    | BeginTick
    | Drain(s: Source, n: nat, completed: bool)   // hands over n rows, then ends or raises
    | LateFailure(s: Source, n: nat)              // hands over n rows to the end, then its stage raises
    | ApplyLoop
    | FlushOne(s: Source)                         // one source of _flush_cursors
    | EndTick                                     // the tick ends, or is aborted at this point

  function Keep(rows: seq<SourceRow>, ids: set<nat>): seq<SourceRow> {
    if rows == [] then []
    else
      var kept := Keep(rows[..|rows| - 1], ids);
      if rows[|rows| - 1].id in ids then kept else kept + [rows[|rows| - 1]]
  }

  function Rows(e: Engine, s: Source): seq<SourceRow> {
    if s in e.tables then e.tables[s] else []
  }

  /** What a drain of s that gets n rows hands over. */
  function Yielded(e: Engine, s: Source, n: nat): seq<SourceRow> {
    if s !in e.cursors then []
    else
      var pending := After(Rows(e, s), DrainStart(e.cursors, s, Rows(e, s)));
      pending[..Least(n, |pending|)]
  }

  ghost function Tagged(s: Source, rows: seq<SourceRow>): set<(Source, SourceRow)> {
    set r | r in rows :: (s, r)
  }

  ghost function DrainStep(e: Engine, s: Source, n: nat, completed: bool, delivered: bool): Engine {
    var got := Yielded(e, s, n);
    var (cursors, advances) := DrainState(e.cursors, e.advances, s, Rows(e, s), |got|, completed);
    e.(cursors := cursors, advances := advances,
       batch := if delivered then e.batch + Tagged(s, got) else e.batch,
       exempt := if s in e.cursors then e.exempt else e.exempt + Tagged(s, Rows(e, s)))
  }

  ghost function Next(e: Engine, v: Event): Engine {
    match v
    case Insert(s, row) => e.(tables := e.tables[s := Rows(e, s) + [row]])
    case Delete(s, ids) => e.(tables := e.tables[s := Keep(Rows(e, s), ids)])
    case BeginTick => e.(phase := Draining, advances := map[], batch := {})
    case Drain(s, n, completed) => DrainStep(e, s, n, completed, completed)
    case LateFailure(s, n) => DrainStep(e, s, n, true, false)
    case ApplyLoop => e.(phase := Applied, handed := e.handed + e.batch)
    case FlushOne(s) =>
      if s in e.advances then e.(cursors := Flushed(e.cursors, map[s := e.advances[s]])) else e
    case EndTick => e.(phase := Idle)
  }

  /** A new row's id is above the table's maximum. It must also be above what the engine has
      stored or is about to store: an id re-used after a deletion the engine has not observed is
      below the cursor already. */
  ghost predicate Observed(e: Engine, s: Source, row: SourceRow) {
    && row.id > MaxId(Rows(e, s))
    && (s in e.cursors ==> row.id > e.cursors[s])
    && (e.phase != Idle && s in e.advances ==> row.id > e.advances[s])
  }

  /** A stage that raises after its drain of s ended has lost nothing: whatever the drain handed over had
      been handed on before. */
  ghost predicate Harmless(e: Engine, s: Source, n: nat) {
    forall r :: r in Yielded(e, s, n) ==> (s, r) in e.handed + e.exempt + e.batch
  }

  /** The order of a tick, no unobserved id re-use, and no stage that raises after a drain that handed
      over anything new. */
  ghost predicate Allowed(e: Engine, v: Event) {
    match v
    case Insert(s, row) => Observed(e, s, row)
    case Delete(_, _) => true
    case BeginTick => e.phase == Idle
    case Drain(_, _, _) => e.phase == Draining
    case LateFailure(s, n) => e.phase == Draining && Harmless(e, s, n)
    case ApplyLoop => e.phase == Draining
    case FlushOne(_) => e.phase == Applied
    case EndTick => true
  }

  /** Every row at or below a stored cursor was given to an apply loop that ran, or predates the seed. */
  ghost predicate Safe(e: Engine) {
    forall s, r :: s in e.cursors && r in Rows(e, s) && r.id <= e.cursors[s] ==> (s, r) in e.handed + e.exempt
  }

  /** Every row an advance would pass is accounted for: in this tick's batch until the apply loop
      has run, handed from then on. */
  ghost predicate AdvancesHonest(e: Engine) {
    e.phase != Idle ==>
      && e.advances.Keys <= e.cursors.Keys
      && forall s, r :: s in e.advances && r in Rows(e, s) && r.id <= e.advances[s] ==>
           (s, r) in e.handed + e.exempt + if e.phase == Draining then e.batch else {}
  }

  ghost predicate Inv(e: Engine) {
    && (forall s :: s in e.tables ==> InIdOrder(e.tables[s]))
    && Safe(e) && AdvancesHonest(e)
  }

  lemma {:induction false} KeepFacts(rows: seq<SourceRow>, ids: set<nat>)
    requires InIdOrder(rows)
    ensures InIdOrder(Keep(rows, ids)) && forall r :: r in Keep(rows, ids) ==> r in rows
  {
    if rows != [] {
      var init, last := rows[..|rows| - 1], rows[|rows| - 1];
      KeepFacts(init, ids);
      var kept := Keep(init, ids);
      forall k | 0 <= k < |kept| ensures kept[k].id < last.id {
        assert kept[k] in init;
      }
      assert Keep(rows, ids) == kept || Keep(rows, ids) == kept + [last];
    }
  }

  /** The rows a drain hands over are all those above its start and not above the last of them. */
  lemma YieldedCovers(e: Engine, s: Source, n: nat, r: SourceRow)
    requires InIdOrder(Rows(e, s)) && s in e.cursors && r in Rows(e, s)
    requires Yielded(e, s, n) != []
    requires DrainStart(e.cursors, s, Rows(e, s)) < r.id <= Yielded(e, s, n)[|Yielded(e, s, n)| - 1].id
    ensures r in Yielded(e, s, n)
  {
    var start := DrainStart(e.cursors, s, Rows(e, s));
    AfterMembers(Rows(e, s), start, r);
    AfterIsSuffix(Rows(e, s), start);
    var pending := After(Rows(e, s), start);
    var i :| 0 <= i < |pending| && pending[i] == r;
  }

  lemma DrainKeepsInv(e: Engine, s: Source, n: nat, completed: bool)
    requires Inv(e) && e.phase == Draining
    ensures Inv(DrainStep(e, s, n, completed, completed))
  {
    var after := DrainStep(e, s, n, completed, completed);
    if s in e.cursors {
      forall r | r in Rows(e, s) && s in after.advances && r.id <= after.advances[s]
        ensures (s, r) in after.handed + after.exempt + after.batch
      {
        if !(s in e.advances && r.id <= e.advances[s]) && r.id > after.cursors[s] {
          YieldedCovers(e, s, n, r);
        }
      }
    } else {
      AfterMaxNothing(Rows(e, s));
    }
  }

  /** A stage may raise after its drain ended exactly when that drain handed over nothing new: the advance
      it leaves behind passes each row it yielded. */
  lemma LateFailureIsSafeExactlyWhenHarmless(e: Engine, s: Source, n: nat)
    requires Inv(e) && e.phase == Draining
    ensures Inv(Next(e, LateFailure(s, n))) <==> Harmless(e, s, n)
  {
    DrainKeepsInv(e, s, n, true);
    var kept, after, got := DrainStep(e, s, n, true, true), Next(e, LateFailure(s, n)), Yielded(e, s, n);
    if Harmless(e, s, n) {
      assert kept.batch <= after.handed + after.exempt + after.batch;
    } else {
      var r :| r in got && (s, r) !in e.handed + e.exempt + e.batch;
      YieldedArePassed(e, s, n, r);
    }
  }

  /** A completed drain's advance is at or past every row it yielded. */
  lemma YieldedArePassed(e: Engine, s: Source, n: nat, r: SourceRow)
    requires InIdOrder(Rows(e, s)) && r in Yielded(e, s, n)
    ensures
      var after := DrainStep(e, s, n, true, false);
      s in e.cursors && r in Rows(e, s) && s in after.advances && r.id <= after.advances[s]
  {
    var start, got := DrainStart(e.cursors, s, Rows(e, s)), Yielded(e, s, n);
    AfterIsSuffix(Rows(e, s), start);
    var i :| 0 <= i < |got| && got[i] == r;
    assert got[i] == After(Rows(e, s), start)[i];
  }

  lemma AfterMaxNothing(rows: seq<SourceRow>)
    requires InIdOrder(rows)
    ensures forall r :: r in rows ==> r.id <= MaxId(rows)
  {
  }

  lemma InsertKeepsInv(e: Engine, s: Source, row: SourceRow)
    requires Inv(e) && Observed(e, s, row)
    ensures Inv(Next(e, Insert(s, row)))
  {
    var rows := Rows(e, s);
    assert forall r :: r in rows + [row] ==> r in rows || r == row;
    OrderOneMore(rows, row);
  }

  lemma OrderOneMore(rows: seq<SourceRow>, row: SourceRow)
    requires InIdOrder(rows) && row.id > MaxId(rows)
    ensures InIdOrder(rows + [row])
  {
    AfterMaxNothing(rows);
    forall i | 0 <= i < |rows| ensures rows[i].id < row.id {
      assert rows[i] in rows;
    }
  }

  lemma DeleteKeepsInv(e: Engine, s: Source, ids: set<nat>)
    requires Inv(e)
    ensures Inv(Next(e, Delete(s, ids)))
  {
    KeepFacts(Rows(e, s), ids);
  }

  lemma StepKeepsInv(e: Engine, v: Event)
    requires Inv(e) && Allowed(e, v)
    ensures Inv(Next(e, v))
  {
    match v
    case Insert(s, row) => InsertKeepsInv(e, s, row);
    case Delete(s, ids) => DeleteKeepsInv(e, s, ids);
    case Drain(s, n, completed) => DrainKeepsInv(e, s, n, completed);
    case LateFailure(s, n) => LateFailureIsSafeExactlyWhenHarmless(e, s, n);
    case _ =>
  }

  ghost function Run(e: Engine, events: seq<Event>): Engine {
    if events == [] then e else Next(Run(e, events[..|events| - 1]), events[|events| - 1])
  }

  ghost predicate AllowedRun(e: Engine, events: seq<Event>) {
    events == [] ||
    (AllowedRun(e, events[..|events| - 1]) && Allowed(Run(e, events[..|events| - 1]), events[|events| - 1]))
  }

  ghost const START := Engine(map[], map[], map[], Idle, {}, {}, {})

  /** In every reachable state, every row at or below a stored cursor was handed to an apply loop
      that ran, or was there before its source was seeded. */
  lemma {:induction false} CursorsNeverPassUnhandedRows(events: seq<Event>)
    requires AllowedRun(START, events)
    ensures Inv(Run(START, events))
  {
    if events != [] {
      CursorsNeverPassUnhandedRows(events[..|events| - 1]);
      StepKeepsInv(Run(START, events[..|events| - 1]), events[|events| - 1]);
    }
  }

  /** Nothing but a flush after the apply loop moves a stored cursor forward: an abandoned drain, a
      failed stage and an aborted tick leave it or take it back. */
  lemma OnlyFlushMovesForward(e: Engine, v: Event, s: Source)
    requires Allowed(e, v) && s in e.cursors
    ensures s in Next(e, v).cursors
    ensures Next(e, v).cursors[s] > e.cursors[s] ==> v == FlushOne(s) && e.phase == Applied
  {
  }

  /** A full drain of a source with a pending row records an advance to its maximum. */
  lemma FullDrainAdvances(e: Engine, s: Source, r: SourceRow)
    requires InIdOrder(Rows(e, s)) && s in e.cursors && r in Rows(e, s) && r.id > e.cursors[s] && e.advances == map[]
    ensures
      var after := DrainStep(e, s, |Rows(e, s)|, true, false);
      && after.advances == map[s := MaxId(Rows(e, s))] && after.cursors == e.cursors
      && after.batch == e.batch && after.exempt == e.exempt
  {
    var rows := Rows(e, s);
    AfterMaxNothing(rows);
    var start := DrainStart(e.cursors, s, rows);
    assert start == e.cursors[s];
    AfterIsSuffix(rows, start);
    AfterMembers(rows, start, r);
    assert Yielded(e, s, |rows|) == After(rows, start);
  }

  // ------------------------------------------------------------- from tick to tick

  /** The table of s has not dropped below its cursor. */
  ghost predicate Reaches(e: Engine, s: Source)
    requires s in e.cursors
  {
    e.cursors[s] == 0 || exists r :: r in Rows(e, s) && r.id >= e.cursors[s]
  }

  /** A tick that drains s of n rows, completely or not, and gets to its flush. */
  ghost function Ticked(e: Engine, s: Source, n: nat, completed: bool): Engine {
    Next(Next(Next(Next(Next(e, BeginTick), Drain(s, n, completed)), ApplyLoop), FlushOne(s)), EndTick)
  }

  /** The events of a tick over one source, in the order they happen. */
  function TickEvents(s: Source, n: nat, completed: bool): seq<Event> {
    [BeginTick, Drain(s, n, completed), ApplyLoop, FlushOne(s), EndTick]
  }

  /** Such a tick is an allowed run from any idle engine, and leaves it idle. */
  lemma TickIsAllowed(e: Engine, s: Source, n: nat, completed: bool)
    requires e.phase == Idle
    ensures AllowedRun(e, TickEvents(s, n, completed))
    ensures Run(e, TickEvents(s, n, completed)) == Ticked(e, s, n, completed)
    ensures Ticked(e, s, n, completed).phase == Idle
  {
    var drain := Drain(s, n, completed);
    RunThree(e, BeginTick, drain, ApplyLoop);
    var mid := [BeginTick, drain, ApplyLoop];
    OneEventMore(e, mid, FlushOne(s));
    OneEventMore(e, mid + [FlushOne(s)], EndTick);
    assert TickEvents(s, n, completed) == mid + [FlushOne(s)] + [EndTick];
    PhasesOfATick(e, s, n, completed);
  }

  lemma RunThree(e: Engine, a: Event, b: Event, c: Event)
    ensures Run(e, [a, b, c]) == Next(Next(Next(e, a), b), c)
    ensures AllowedRun(e, [a, b, c]) <==>
            Allowed(e, a) && Allowed(Next(e, a), b) && Allowed(Next(Next(e, a), b), c)
  {
    OneEventMore(e, [], a);
    OneEventMore(e, [a], b);
    OneEventMore(e, [a, b], c);
    assert [] + [a] == [a] && [a] + [b] == [a, b] && [a, b] + [c] == [a, b, c];
  }

  lemma PhasesOfATick(e: Engine, s: Source, n: nat, completed: bool)
    ensures
      var begun := Next(e, BeginTick);
      var drained := Next(begun, Drain(s, n, completed));
      var applied := Next(drained, ApplyLoop);
      && begun.phase == Draining && drained.phase == Draining && applied.phase == Applied
      && Next(applied, FlushOne(s)).phase == Applied && Ticked(e, s, n, completed).phase == Idle
  {
  }

  lemma OneEventMore(e: Engine, events: seq<Event>, v: Event)
    ensures Run(e, events + [v]) == Next(Run(e, events), v)
    ensures AllowedRun(e, events + [v]) <==> AllowedRun(e, events) && Allowed(Run(e, events), v)
  {
    var more := events + [v];
    assert more[..|more| - 1] == events;
  }

  /** What a completed tick leaves: the same table, the rows handed over, and the cursor at the last of them. */
  lemma TickLeaves(e: Engine, s: Source, n: nat)
    requires Inv(e) && s in e.cursors && Reaches(e, s)
    ensures
      var got, after := Yielded(e, s, n), Ticked(e, s, n, true);
      && Rows(after, s) == Rows(e, s) && s in after.cursors
      && after.cursors[s] == (if got == [] then e.cursors[s] else got[|got| - 1].id)
      && forall r :: r in got ==> (s, r) in after.handed
  {
    var got := Yielded(e, s, n);
    AfterMaxNothing(Rows(e, s));
    if got != [] {
      assert got[|got| - 1] in After(Rows(e, s), e.cursors[s]);
      AfterMembers(Rows(e, s), e.cursors[s], got[|got| - 1]);
    }
  }

  lemma CutTwice<T>(all: seq<T>, k: nat, m: nat)
    requires k <= |all|
    ensures all[..k] + all[k..][..Least(m, |all| - k)] == all[..Least(k + m, |all|)]
  {
  }

  /** A tick hands over what its drain yielded, and the next reads on from there: together they yield what one
      drain of both sizes would have, no row twice and none left out. */
  lemma TickReadsOn(e: Engine, s: Source, n: nat, m: nat)
    requires Inv(e) && s in e.cursors && Reaches(e, s)
    ensures
      var got, after := Yielded(e, s, n), Ticked(e, s, n, true);
      && (forall r :: r in got ==> (s, r) in after.handed)
      && got + Yielded(after, s, m) == Yielded(e, s, |got| + m)
  {
    var rows, at, got := Rows(e, s), e.cursors[s], Yielded(e, s, n);
    var pending := After(rows, at);
    AfterMaxNothing(rows);
    TickLeaves(e, s, n);
    CutTwice(pending, |got|, m);
    if got != [] {
      PagesJoin(rows, at, |got|);
      LastIsInTheTable(rows, at, |got|);
    }
  }

  lemma LastIsInTheTable(rows: seq<SourceRow>, at: nat, n: nat)
    requires InIdOrder(rows) && 0 < n <= |After(rows, at)|
    ensures at < After(rows, at)[n - 1].id <= MaxId(rows)
  {
    AfterMaxNothing(rows);
    assert After(rows, at)[n - 1] in After(rows, at);
    AfterMembers(rows, at, After(rows, at)[n - 1]);
  }

  /** A drain that is abandoned hands over nothing and is read again. */
  lemma AbandonedIsReadAgain(e: Engine, s: Source, n: nat, m: nat)
    requires Inv(e) && s in e.cursors && Reaches(e, s)
    ensures
      var after := Ticked(e, s, n, false);
      Yielded(after, s, m) == Yielded(e, s, m) && after.handed == e.handed
  {
    AfterMaxNothing(Rows(e, s));
  }

  lemma AfterItsMaximum(rows: seq<SourceRow>)
    ensures After(rows, MaxId(rows)) == []
  {
  }

  /** With the cursor at its table's maximum, a row inserted next is all there is to read. */
  lemma OnlyTheNewRow(e: Engine, s: Source, row: SourceRow, m: nat)
    requires s in e.cursors && e.cursors[s] == MaxId(Rows(e, s)) && m > 0
    requires row.id > 0 && forall r :: r in Rows(e, s) ==> r.id < row.id
    ensures Yielded(Next(e, Insert(s, row)), s, m) == [row]
  {
    var rows := Rows(e, s);
    assert Rows(Next(e, Insert(s, row)), s) == rows + [row];
    NewRowAlone(rows, row);
  }

  lemma NewRowAlone(rows: seq<SourceRow>, row: SourceRow)
    requires row.id > 0 && forall r :: r in rows ==> r.id < row.id
    ensures After(rows + [row], MaxId(rows)) == [row] && MaxId(rows + [row]) >= MaxId(rows)
  {
    assert (rows + [row])[..|rows|] == rows;
    assert rows != [] ==> rows[|rows| - 1] in rows;
    AfterItsMaximum(rows);
  }

  /** A deletion takes exactly those rows of exactly that table, and leaves the cursors where they are. */
  lemma DeletionExactly(e: Engine, s: Source, ids: set<nat>, other: Source, r: SourceRow)
    ensures
      var after := Next(e, Delete(s, ids));
      && (r in Rows(after, other) <==> r in Rows(e, other) && (other == s ==> r.id !in ids))
      && after.cursors == e.cursors && after.advances == e.advances
  {
    KeepMembers(Rows(e, s), ids, r);
  }

  lemma {:induction false} KeepMembers(rows: seq<SourceRow>, ids: set<nat>, r: SourceRow)
    ensures r in Keep(rows, ids) <==> r in rows && r.id !in ids
  {
    if rows != [] {
      var init, last := rows[..|rows| - 1], rows[|rows| - 1];
      assert rows == init + [last];
      KeepMembers(init, ids, r);
    }
  }

  /** A table seen to drop below its cursor takes the cursor with it: a row inserted next is handed over. */
  lemma SeenDropRewinds(e: Engine, s: Source, n: nat, completed: bool, row: SourceRow, m: nat)
    requires Inv(e) && s in e.cursors && !Reaches(e, s) && m > 0 && row.id > 0
    requires forall r :: r in Rows(e, s) ==> r.id < row.id
    ensures Yielded(Next(Next(e, Drain(s, n, completed)), Insert(s, row)), s, m) == [row]
  {
    AfterMaxNothing(Rows(e, s));
    OnlyTheNewRow(Next(e, Drain(s, n, completed)), s, row, m);
  }

  // ----------------------------------------------------------------- new sources

  /** Whenever the run drains s, its table still reaches up to the stored cursor. */
  ghost predicate NeverSeenToDrop(e: Engine, events: seq<Event>, s: Source) {
    events == [] ||
    (NeverSeenToDrop(e, events[..|events| - 1], s)
     && ReachesCursor(Run(e, events[..|events| - 1]), events[|events| - 1], s))
  }

  ghost predicate ReachesCursor(e: Engine, v: Event, s: Source) {
    (v.Drain? || v.LateFailure?) && v.s == s && s in e.cursors ==> Reaches(e, s)
  }

  /** The stored cursor is at or past row r, which no apply loop has had or is about to. */
  ghost predicate Behind(e: Engine, s: Source, r: SourceRow) {
    s in e.cursors && r.id <= e.cursors[s] && (s, r) !in e.handed + e.batch
  }

  lemma BehindIsNotYielded(e: Engine, s: Source, r: SourceRow, n: nat)
    requires Behind(e, s, r) && InIdOrder(Rows(e, s)) && Reaches(e, s)
    ensures r !in Yielded(e, s, n) && DrainStart(e.cursors, s, Rows(e, s)) == e.cursors[s]
  {
    AfterMaxNothing(Rows(e, s));
    AfterMembers(Rows(e, s), DrainStart(e.cursors, s, Rows(e, s)), r);
  }

  lemma BehindStays(e: Engine, v: Event, s: Source, r: SourceRow)
    requires Behind(e, s, r) && InIdOrder(Rows(e, s)) && ReachesCursor(e, v, s)
    ensures Behind(Next(e, v), s, r)
  {
    match v
    case Drain(s2, n, completed) =>
      if s2 == s {
        BehindIsNotYielded(e, s, r, n);
      }
    case LateFailure(s2, n) =>
      if s2 == s {
        BehindIsNotYielded(e, s, r, n);
      }
    case _ =>
  }

  lemma {:induction false} BehindForGood(e: Engine, events: seq<Event>, s: Source, r: SourceRow)
    requires Inv(e) && AllowedRun(e, events) && NeverSeenToDrop(e, events, s) && Behind(e, s, r)
    ensures Inv(Run(e, events)) && Behind(Run(e, events), s, r)
  {
    if events != [] {
      var init, last := events[..|events| - 1], events[|events| - 1];
      BehindForGood(e, init, s, r);
      StepKeepsInv(Run(e, init), last);
      BehindStays(Run(e, init), last, s, r);
    }
  }

  /** A source with no cursor yet is seeded by its first drain: no row then in its table is handed over by
      that drain or by any later one, whatever happens, unless its table is seen to drop. */
  lemma SeedHidesHistory(e: Engine, s: Source, n: nat, completed: bool, r: SourceRow, events: seq<Event>)
    requires Inv(e) && e.phase == Draining && s !in e.cursors && r in Rows(e, s) && (s, r) !in e.handed + e.batch
    requires
      var seeded := Next(e, Drain(s, n, completed));
      AllowedRun(seeded, events) && NeverSeenToDrop(seeded, events, s)
    ensures r !in Yielded(e, s, n)
    ensures (s, r) !in Run(Next(e, Drain(s, n, completed)), events).handed
    ensures
      var later := Run(Next(e, Drain(s, n, completed)), events);
      forall m: nat :: ReachesCursor(later, Drain(s, m, true), s) ==> r !in Yielded(later, s, m)
  {
    var seeded := Next(e, Drain(s, n, completed));
    StepKeepsInv(e, Drain(s, n, completed));
    AfterMaxNothing(Rows(e, s));
    BehindForGood(seeded, events, s, r);
    var later := Run(seeded, events);
    forall m: nat | ReachesCursor(later, Drain(s, m, true), s) ensures r !in Yielded(later, s, m) {
      BehindIsNotYielded(later, s, r, m);
    }
  }

  /** And what comes after the seed is not hidden: a row inserted next, with an id above all of them, is all
      that the next drain hands over. */
  lemma SeedHidesNothingElse(e: Engine, s: Source, n: nat, completed: bool, row: SourceRow, m: nat)
    requires Inv(e) && s !in e.cursors && m > 0 && row.id > 0 && forall r :: r in Rows(e, s) ==> r.id < row.id
    ensures Yielded(Next(Next(e, Drain(s, n, completed)), Insert(s, row)), s, m) == [row]
  {
    OnlyTheNewRow(Next(e, Drain(s, n, completed)), s, row, m);
  }

  /** Nothing of s was handed over or is about to be. */
  ghost predicate Untouched(e: Engine, s: Source) {
    s !in e.advances && forall r :: (s, r) !in e.handed + e.batch
  }

  lemma UnseededStaysUntouched(e: Engine, v: Event, s: Source)
    requires Untouched(e, s) && s !in Next(e, v).cursors
    ensures s !in e.cursors && Untouched(Next(e, v), s)
  {
  }

  /** No run from the start hands over, or is about to, a row of a source it has not seeded. */
  lemma {:induction false} UnseededIsUntouched(events: seq<Event>, s: Source)
    requires s !in Run(START, events).cursors
    ensures Untouched(Run(START, events), s)
  {
    if events != [] {
      var init := events[..|events| - 1];
      if s in Run(START, init).cursors {
        SeededStaysSeeded(Run(START, init), events[|events| - 1], s);
      }
      UnseededIsUntouched(init, s);
      UnseededStaysUntouched(Run(START, init), events[|events| - 1], s);
    }
  }

  lemma SeededStaysSeeded(e: Engine, v: Event, s: Source)
    requires s in e.cursors
    ensures s in Next(e, v).cursors
  {
  }

  // ------------------------------------------------------------- ids re-used

  /** A row new to everyone is safe to insert exactly when its id is above what is stored and about to be
      stored. */
  lemma InsertIsSafeExactlyWhenObserved(e: Engine, s: Source, row: SourceRow)
    requires Inv(e) && row.id > MaxId(Rows(e, s)) && (s, row) !in e.handed + e.exempt + e.batch
    ensures Inv(Next(e, Insert(s, row))) <==> Observed(e, s, row)
  {
    var after := Next(e, Insert(s, row));
    if Observed(e, s, row) {
      InsertKeepsInv(e, s, row);
    } else {
      assert row in Rows(after, s);
    }
  }

  /** The row stays in its table, in order, through an event. */
  ghost predicate KeepsRow(e: Engine, v: Event, s: Source, row: SourceRow) {
    match v
    case Insert(s2, other) => s2 == s ==> other.id > MaxId(Rows(e, s))
    case Delete(s2, ids) => s2 == s ==> row.id !in ids
    case _ => true
  }

  ghost predicate KeepsRowRun(e: Engine, events: seq<Event>, s: Source, row: SourceRow) {
    events == [] ||
    (KeepsRowRun(e, events[..|events| - 1], s, row)
     && KeepsRow(Run(e, events[..|events| - 1]), events[|events| - 1], s, row))
  }

  /** The cursor is past the row, and no apply loop has had it or is about to. */
  ghost predicate Passed(e: Engine, s: Source, row: SourceRow) {
    && s in e.cursors && InIdOrder(Rows(e, s)) && row in Rows(e, s) && row.id <= e.cursors[s]
    && (s, row) !in e.handed + e.batch
  }

  lemma PassedIsNotYielded(e: Engine, s: Source, row: SourceRow, n: nat)
    requires Passed(e, s, row)
    ensures row !in Yielded(e, s, n) && DrainStart(e.cursors, s, Rows(e, s)) >= row.id
  {
    AfterMaxNothing(Rows(e, s));
    AfterMembers(Rows(e, s), DrainStart(e.cursors, s, Rows(e, s)), row);
  }

  lemma PassedStays(e: Engine, v: Event, s: Source, row: SourceRow)
    requires Passed(e, s, row) && KeepsRow(e, v, s, row)
    ensures Passed(Next(e, v), s, row)
  {
    match v
    case Delete(s2, ids) =>
      if s2 == s {
        KeepMembers(Rows(e, s), ids, row);
        KeepFacts(Rows(e, s), ids);
      }
    case Drain(s2, n, completed) => PassedThroughDrain(e, s2, n, completed, completed, s, row);
    case LateFailure(s2, n) => PassedThroughDrain(e, s2, n, true, false, s, row);
    case _ =>
  }

  lemma PassedThroughDrain(e: Engine, s2: Source, n: nat, completed: bool, delivered: bool, s: Source, row: SourceRow)
    requires Passed(e, s, row)
    ensures Passed(DrainStep(e, s2, n, completed, delivered), s, row)
  {
    if s2 == s {
      PassedIsNotYielded(e, s, row, n);
    }
  }

  /** A row the cursor has passed unhanded is lost for good: while it stays in its table, no run of any
      events -- failing or not -- hands it over. */
  lemma {:induction false} PassedIsLost(e: Engine, events: seq<Event>, s: Source, row: SourceRow)
    requires Passed(e, s, row) && KeepsRowRun(e, events, s, row)
    ensures Passed(Run(e, events), s, row) && forall n :: row !in Yielded(Run(e, events), s, n)
  {
    if events != [] {
      PassedIsLost(e, events[..|events| - 1], s, row);
      PassedStays(Run(e, events[..|events| - 1]), events[|events| - 1], s, row);
    }
    forall n {
      PassedIsNotYielded(Run(e, events), s, row, n);
    }
  }

  /** An id re-used at or below the stored cursor, before the engine has observed the deletion. */
  lemma UnobservedReuseLosesRows(e: Engine, s: Source, row: SourceRow, events: seq<Event>)
    requires Inv(e) && s in e.cursors && MaxId(Rows(e, s)) < row.id <= e.cursors[s] && (s, row) !in e.handed + e.batch
    requires KeepsRowRun(Next(e, Insert(s, row)), events, s, row)
    ensures
      var after := Run(Next(e, Insert(s, row)), events);
      (s, row) !in after.handed && forall n :: row !in Yielded(after, s, n)
  {
    AfterMaxNothing(Rows(e, s));
    PassedIsLost(Next(e, Insert(s, row)), events, s, row);
  }

  /** The tick after an id is re-used at or below a pending advance: the apply loop, if it is still to
      come, and the flush. */
  ghost function FlushedAfterReuse(e: Engine, s: Source, row: SourceRow): Engine {
    var inserted := Next(e, Insert(s, row));
    Next(if e.phase == Draining then Next(inserted, ApplyLoop) else inserted, FlushOne(s))
  }

  /** An id re-used within a tick, at or below an advance not yet flushed: the flush passes it. */
  lemma ReuseBelowPendingAdvanceLosesRows(e: Engine, s: Source, row: SourceRow, events: seq<Event>)
    requires Inv(e) && e.phase != Idle && s in e.advances && MaxId(Rows(e, s)) < row.id <= e.advances[s]
    requires (s, row) !in e.handed + e.batch
    requires KeepsRowRun(FlushedAfterReuse(e, s, row), events, s, row)
    ensures
      var after := Run(FlushedAfterReuse(e, s, row), events);
      (s, row) !in after.handed && forall n :: row !in Yielded(after, s, n)
  {
    AfterMaxNothing(Rows(e, s));
    PassedIsLost(FlushedAfterReuse(e, s, row), events, s, row);
  }

  // ------------------------------------------------------- stages that fail late

  /** A tick whose stage raises after its drain of s has ended, to the flush of s. */
  ghost function LateFailureTick(e: Engine, s: Source): Engine {
    var drained := Next(Next(e, BeginTick), LateFailure(s, |Rows(e, s)|));
    Next(Next(drained, ApplyLoop), FlushOne(s))
  }

  lemma LateFailurePasses(e: Engine, s: Source, r: SourceRow)
    requires Inv(e) && s in e.cursors && r in Rows(e, s) && r.id > e.cursors[s] && (s, r) !in e.handed
    ensures Passed(LateFailureTick(e, s), s, r)
  {
    var begun := Next(e, BeginTick);
    FullDrainAdvances(begun, s, r);
    AfterMaxNothing(Rows(e, s));
    var drained := Next(begun, LateFailure(s, |Rows(e, s)|));
    assert drained.advances == map[s := MaxId(Rows(e, s))];
    assert Next(drained, ApplyLoop).batch == {};
  }

  /** A stage that raises after its drain has ended records an advance for rows it then throws away:
      the tick goes on, the flush passes them, and no run of later events hands them over. */
  lemma LateFailureLosesRows(e: Engine, s: Source, r: SourceRow, events: seq<Event>)
    requires Inv(e) && s in e.cursors && r in Rows(e, s) && r.id > e.cursors[s] && (s, r) !in e.handed
    requires KeepsRowRun(LateFailureTick(e, s), events, s, r)
    ensures
      var after := Run(LateFailureTick(e, s), events);
      (s, r) !in after.handed && forall n :: r !in Yielded(after, s, n)
  {
    LateFailurePasses(e, s, r);
    PassedIsLost(LateFailureTick(e, s), events, s, r);
  }
}
