/**
 Draining the alert engine's sources: paged reads past a cursor under a per-tick
 row budget, and cursors that move only once what they stand for has been handed
 to an apply loop that ran.
 */
module Cursors {
  import opened Wrappers

  /** A source row. `uid` tells two rows apart that were given the same id at different times. */
  datatype SourceRow = SourceRow(id: nat, uid: nat)

  type Source = string

  const DRAIN_ROW_BUDGET: nat := 5000

  /** A source table: rows in increasing id order. */
  ghost predicate InIdOrder(rows: seq<SourceRow>) {
    forall i, j :: 0 <= i < j < |rows| ==> rows[i].id < rows[j].id
  }

  function MaxId(rows: seq<SourceRow>): nat {
    if rows == [] then 0 else rows[|rows| - 1].id
  }

  /** The rows newer than `at`, oldest first. */
  function After(rows: seq<SourceRow>, at: nat): seq<SourceRow> {
    if rows == [] || rows[|rows| - 1].id <= at then [] else After(rows[..|rows| - 1], at) + [rows[|rows| - 1]]
  }

  /** A reader's page: at most `limit` rows newer than `at`. */
  function Fetch(rows: seq<SourceRow>, at: nat, limit: nat): seq<SourceRow> {
    After(rows, at)[..Least(limit, |After(rows, at)|)]
  }

  /** `After` is a suffix of the table, and exactly the rows with larger ids. */
  lemma {:induction false} AfterIsSuffix(rows: seq<SourceRow>, at: nat)
    requires InIdOrder(rows)
    ensures |After(rows, at)| <= |rows| && After(rows, at) == rows[|rows| - |After(rows, at)|..]
    ensures forall i :: 0 <= i < |rows| ==> (rows[i].id > at <==> i >= |rows| - |After(rows, at)|)
  {
    if rows != [] && rows[|rows| - 1].id > at {
      var init, n := rows[..|rows| - 1], |rows| - 1;
      AfterIsSuffix(init, at);
      var cut := n - |After(init, at)|;
      assert After(rows, at) == rows[cut..n] + [rows[n]];
      forall i | 0 <= i < |rows| ensures rows[i].id > at <==> i >= cut {
        assert i < n ==> init[i] == rows[i];
      }
    }
  }

  lemma AfterMembers(rows: seq<SourceRow>, at: nat, r: SourceRow)
    requires InIdOrder(rows)
    ensures r in After(rows, at) <==> r in rows && r.id > at
  {
  }

  /** Reading on from the last row of a prefix gives the rest: paging skips and repeats nothing. */
  lemma PagesJoin(rows: seq<SourceRow>, at: nat, n: nat)
    requires InIdOrder(rows) && 0 < n <= |After(rows, at)|
    ensures After(rows, After(rows, at)[n - 1].id) == After(rows, at)[n..]
    ensures After(rows, at)[n - 1].id > at
  {
    AfterIsSuffix(rows, at);
    var pending := After(rows, at);
    var last := pending[n - 1].id;
    AfterIsSuffix(rows, last);
    var cut := |rows| - |pending|;
    assert rows[cut + n - 1].id == last;
    if n < |pending| {
      assert rows[cut + n].id > last;
    }
    assert |After(rows, last)| == |pending| - n;
  }

  /** Where a drain that has handed out n rows reads on from. */
  function ReadFrom(pending: seq<SourceRow>, at: nat, n: nat): nat
    requires n <= |pending|
  {
    if n == 0 then at else pending[n - 1].id
  }

  /** The next page of a drain that has handed out n rows. */
  lemma NextPage(rows: seq<SourceRow>, at: nat, n: nat, batch: nat)
    requires InIdOrder(rows) && n <= |After(rows, at)|
    ensures
      var pending := After(rows, at);
      Fetch(rows, ReadFrom(pending, at, n), batch) == pending[n..n + Least(batch, |pending| - n)]
  {
    var pending := After(rows, at);
    if n > 0 {
      PagesJoin(rows, at, n);
    }
    assert After(rows, ReadFrom(pending, at, n)) == pending[n..];
  }

  lemma AppendSlice(s: seq<SourceRow>, n: nat, h: nat)
    requires n + h <= |s|
    ensures s[..n] + s[n..n + h] == s[..n + h]
  {
  }

  lemma SliceOfSlice(s: seq<SourceRow>, n: nat, k: nat, h: nat)
    requires h <= k && n + k <= |s|
    ensures s[n..n + k][..h] == s[n..n + h] && (k > 0 ==> s[n..n + k][k - 1] == s[n + k - 1])
  {
  }

  // ----------------------------------------------------- what one drain does

  /** _advance_cursor. */
  function Advance(advances: map<Source, nat>, s: Source, value: nat): map<Source, nat> {
    if value > (if s in advances then advances[s] else 0) then advances[s := value] else advances
  }

  /** The cursor a drain reads from, once a drop of the table's own maximum has been observed. */
  function DrainStart(cursors: map<Source, nat>, s: Source, rows: seq<SourceRow>): nat
    requires s in cursors
  {
    Least(cursors[s], MaxId(rows))
  }

  /** The stored cursors and pending advances after a drain that handed out n rows and either ran
      to its end or was abandoned. */
  function DrainState(cursors: map<Source, nat>, advances: map<Source, nat>, s: Source,
                      rows: seq<SourceRow>, n: nat, completed: bool): (map<Source, nat>, map<Source, nat>)
    requires s in cursors ==> n <= |After(rows, DrainStart(cursors, s, rows))|
  {
    if s !in cursors then (cursors[s := MaxId(rows)], advances)
    else
      var start := DrainStart(cursors, s, rows);
      (cursors[s := start],
       if completed && n > 0 then Advance(advances, s, After(rows, start)[n - 1].id) else advances)
  }

  /** What _flush_cursors leaves: every advance that is ahead of its stored cursor. */
  function Flushed(cursors: map<Source, nat>, advances: map<Source, nat>): map<Source, nat> {
    map s | s in cursors.Keys + advances.Keys ::
      if s !in advances then cursors[s]
      else if s in cursors then Greatest(cursors[s], advances[s])
      else advances[s]
  }

  class Drainer {
    var cursors: map<Source, nat>       // the `meta` table
    var advances: map<Source, nat>
    var drainRows: nat

    constructor ()
      ensures cursors == map[] && advances == map[] && drainRows == 0
    {
      cursors, advances, drainRows := map[], map[], 0;
    }

    /** The consumer takes the rows of one page, one by one, until it raises. */
    method HandOut(page: seq<SourceRow>, already: nat, failAt: Option<nat>) returns (handed: nat, raised: bool)
      ensures handed <= |page| && (!raised ==> handed == |page|)
      ensures raised ==> failAt == Some(already + handed)
      ensures !raised ==> forall k :: already <= k < already + |page| ==> failAt != Some(k)
    {
      handed, raised := 0, false;
      while handed < |page|
        invariant handed <= |page| && forall k :: already <= k < already + handed ==> failAt != Some(k)
      {
        if failAt == Some(already + handed) {
          raised := true;
          return;
        }
        handed := handed + 1;
      }
    }

    /** One page past `cursor`, and the consumer's part of it. */
    method TakePage(rows: seq<SourceRow>, ghost at: nat, cursor: nat, n: nat, batch: nat, failAt: Option<nat>)
      returns (handed: seq<SourceRow>, size: nat, next: nat, raised: bool)
      requires InIdOrder(rows) && batch > 0 && n <= |After(rows, at)| && cursor == ReadFrom(After(rows, at), at, n)
      ensures
        var pending := After(rows, at);
        && size == Least(batch, |pending| - n) && |handed| <= size && handed == pending[n..n + |handed|]
        && (size > 0 ==> next == ReadFrom(pending, at, n + size))
      ensures if raised then failAt == Some(n + |handed|) else |handed| == size
    {
      NextPage(rows, at, n, batch);
      var got := Fetch(rows, cursor, batch);
      var taken, failed := HandOut(got, n, failAt);
      SliceOfSlice(After(rows, at), n, |got|, taken);
      return got[..taken], |got|, if got == [] then cursor else got[|got| - 1].id, failed;
    }

    /** _read_forward and its consumer: pages past `at` until the source is caught up or the tick's
        budget is spent; `expired(p)` is whether the deadline has passed after page p. The consumer
        raises on receiving row number failAt, if there is one. `fetched` counts every row read,
        drainRows only those of finished pages. */
    method ReadForward(rows: seq<SourceRow>, at: nat, batch: nat, expired: nat -> bool, failAt: Option<nat>)
      returns (yielded: seq<SourceRow>, raised: bool, caughtUp: bool, fetched: nat)
      requires InIdOrder(rows) && batch > 0
      modifies this`drainRows
      ensures |yielded| <= |After(rows, at)| && yielded == After(rows, at)[..|yielded|]
      ensures raised ==> failAt == Some(|yielded|)
      ensures !raised && caughtUp ==> yielded == After(rows, at)
      ensures !raised && After(rows, at) != [] ==> yielded != []
      ensures !raised && !caughtUp ==> drainRows >= 5000 || exists page: nat :: expired(page)
      ensures !raised ==> drainRows == old(drainRows) + |yielded| && fetched == |yielded|
      ensures !raised ==> drainRows <= Greatest(old(drainRows), DRAIN_ROW_BUDGET - 1) + batch
      ensures raised ==> drainRows <= Greatest(old(drainRows), DRAIN_ROW_BUDGET - 1)
      ensures raised ==> old(drainRows) <= drainRows && fetched <= drainRows - old(drainRows) + batch
    {
      ghost var pending := After(rows, at);
      var cursor, page, more := at, 0, true;
      yielded, raised, caughtUp, fetched := [], false, false, 0;
      while more
        invariant |yielded| <= |pending| && yielded == pending[..|yielded|]
        invariant more ==> !raised && !caughtUp && cursor == ReadFrom(pending, at, |yielded|)
        invariant more ==> yielded == [] || drainRows < DRAIN_ROW_BUDGET
        invariant raised ==> failAt == Some(|yielded|)
        invariant !raised && caughtUp ==> |yielded| == |pending|
        invariant !raised && !more && pending != [] ==> yielded != []
        invariant !raised && !more && !caughtUp ==> drainRows >= DRAIN_ROW_BUDGET || exists p: nat :: expired(p)
        invariant !raised ==> drainRows == old(drainRows) + |yielded| && fetched == |yielded|
        invariant !raised ==> drainRows <= Greatest(old(drainRows), DRAIN_ROW_BUDGET - 1) + batch
        invariant raised ==> old(drainRows) <= drainRows <= Greatest(old(drainRows), DRAIN_ROW_BUDGET - 1)
        invariant raised ==> fetched <= drainRows - old(drainRows) + batch
        decreases more, |pending| - |yielded|
      {
        var handed, size, next, failed := TakePage(rows, at, cursor, |yielded|, batch, failAt);
        AppendSlice(pending, |yielded|, |handed|);
        yielded := yielded + handed;
        fetched := fetched + size;
        if failed {
          raised, more := true, false;
        } else {
          if size > 0 {
            cursor := next;
            drainRows := drainRows + size;
          }
          if size < batch {
            caughtUp, more := true, false;
          } else if drainRows >= DRAIN_ROW_BUDGET || expired(page) {
            more := false;
          }
          page := page + 1;
        }
      }
      assert pending[..|pending|] == pending;
    }

    /** _drain_from: seed a new source at its maximum, rewind a cursor its table has dropped
        below, hand out what is pending, and remember how far -- unless the consumer raised. */
    method DrainFrom(s: Source, rows: seq<SourceRow>, batch: nat, expired: nat -> bool, failAt: Option<nat>)
      returns (yielded: seq<SourceRow>, raised: bool, fetched: nat)
      requires InIdOrder(rows) && batch > 0
      modifies this
      ensures s !in old(cursors) ==> yielded == [] && !raised
      ensures s in old(cursors) ==>
        var pending := After(rows, DrainStart(old(cursors), s, rows));
        && |yielded| <= |pending| && yielded == pending[..|yielded|]
        && (!raised && pending != [] ==> yielded != [])
      ensures (cursors, advances) == DrainState(old(cursors), old(advances), s, rows, |yielded|, !raised)
      ensures !raised ==> drainRows <= Greatest(old(drainRows), DRAIN_ROW_BUDGET - 1) + batch
      ensures !raised ==> fetched == drainRows - old(drainRows)
      ensures raised ==> old(drainRows) <= drainRows <= Greatest(old(drainRows), DRAIN_ROW_BUDGET - 1)
      ensures raised ==> fetched <= drainRows - old(drainRows) + batch
    {
      yielded, raised, fetched := [], false, 0;
      if s !in cursors {
        cursors := cursors[s := MaxId(rows)];
        return;
      }
      var cursor := cursors[s];
      if MaxId(rows) < cursor {
        cursor := MaxId(rows);
        cursors := cursors[s := cursor];
      }
      assert cursors == old(cursors)[s := cursor];
      var caughtUp;
      yielded, raised, caughtUp, fetched := ReadForward(rows, cursor, batch, expired, failAt);
      if !raised && yielded != [] {
        PagesJoin(rows, cursor, |yielded|);
        advances := Advance(advances, s, yielded[|yielded| - 1].id);
      }
    }

    /** All the drains of one tick over sources that share a batch size: however many fall behind or
        raise, the tick reads at most 4999 rows and one batch per source. */
    method DrainTick(sources: seq<(Source, seq<SourceRow>)>, batch: nat, expired: nat -> bool, failAt: seq<Option<nat>>)
      returns (read: nat)
      requires |failAt| == |sources| && batch > 0
      requires forall i :: 0 <= i < |sources| ==> InIdOrder(sources[i].1)
      modifies this
      ensures read <= 4999 + |sources| * batch
    {
      advances, drainRows, read := map[], 0, 0;
      var abandoned := 0;
      for i := 0 to |sources|
        invariant abandoned <= i
        invariant read <= drainRows + abandoned * batch
        invariant drainRows <= DRAIN_ROW_BUDGET - 1 + (i - abandoned) * batch
      {
        var yielded, raised, fetched := DrainFrom(sources[i].0, sources[i].1, batch, expired, failAt[i]);
        read := read + fetched;
        Distribute(i - abandoned, batch);
        Distribute(abandoned, batch);
        if raised {
          abandoned := abandoned + 1;
        }
      }
      assert drainRows + abandoned * batch <= DRAIN_ROW_BUDGET - 1 + |sources| * batch by {
        assert (|sources| - abandoned) * batch + abandoned * batch == |sources| * batch;
      }
    }

    /** _flush_cursors. */
    method FlushCursors()
      modifies this
      ensures cursors == Flushed(old(cursors), old(advances))
      ensures advances == map[]
    {
      var todo := advances.Keys;
      while todo != {}
        invariant todo <= advances.Keys && advances == old(advances)
        invariant cursors == Flushed(old(cursors), map s | s in advances.Keys - todo :: advances[s])
      {
        var s :| s in todo;
        var done := map x | x in advances.Keys - todo :: advances[x];
        assert (map x | x in advances.Keys - (todo - {s}) :: advances[x]) == done[s := advances[s]];
        if s !in cursors || advances[s] > cursors[s] {
          cursors := cursors[s := advances[s]];
        }
        todo := todo - {s};
      }
      assert (map s | s in advances.Keys - {} :: advances[s]) == advances;
      advances := map[];
    }
  }

  lemma Distribute(a: nat, b: nat)
    ensures (a + 1) * b == a * b + b
    ensures a * b >= 0
  {
  }
}
