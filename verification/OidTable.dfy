/**
 Object identifiers in their lexicographic order, and the ordered table an agent
 answers from: GETNEXT is a binary search (demo/personas.py, class Table).
 */
module OidTable {
  import opened Wrappers
  import opened Lexicographic

  type Oid = seq<nat>

  /** The agent's objects, with their values at one moment, and their names in order. */
  datatype Table = Table(entries: map<Oid, int>, keys: seq<Oid>)

  ghost predicate Valid(t: Table) {
    && (forall i, j :: 0 <= i < j < |t.keys| ==> Less(t.keys[i], t.keys[j]))
    && (forall k :: k in t.keys <==> k in t.entries)
  }

  /** How many keys lead up to `o`, itself included. */
  function Rank(keys: seq<Oid>, o: Oid): (r: nat)
    ensures r <= |keys|
  {
    if keys == [] || Less(o, keys[0]) then 0 else 1 + Rank(keys[1..], o)
  }

  /** The successor of `o`: the first object after it. */
  function Next(t: Table, o: Oid): (r: Option<Oid>)
    ensures r.Some? ==> r.value in t.keys
  {
    var i := Rank(t.keys, o);
    if i < |t.keys| then Some(t.keys[i]) else None
  }

  lemma {:induction false} RankSplits(keys: seq<Oid>, o: Oid)
    requires forall i, j :: 0 <= i < j < |keys| ==> Less(keys[i], keys[j])
    ensures forall i :: 0 <= i < |keys| ==> (Less(o, keys[i]) <==> Rank(keys, o) <= i)
  {
    if keys != [] {
      if Less(o, keys[0]) {
        forall i | 0 < i < |keys| ensures Less(o, keys[i]) {
          LessTransitive(o, keys[0], keys[i]);
        }
      } else {
        RankSplits(keys[1..], o);
        forall i | 0 < i < |keys| ensures Less(o, keys[i]) <==> Rank(keys, o) <= i {
          assert keys[i] == keys[1..][i - 1];
        }
      }
    }
  }

  /** GETNEXT's meaning: an object greater than the request with none between them, and none only
      when no object is greater. */
  lemma NextIsLeastGreater(t: Table, o: Oid)
    requires Valid(t)
    ensures
      match Next(t, o)
      case Some(n) => n in t.entries && Less(o, n) && forall k :: k in t.entries && Less(o, k) ==> k == n || Less(n, k)
      case None => forall k :: k in t.entries ==> !Less(o, k)
  {
    RankSplits(t.keys, o);
  }

  lemma RankUnique(keys: seq<Oid>, o: Oid, r: nat)
    requires forall i, j :: 0 <= i < j < |keys| ==> Less(keys[i], keys[j])
    requires r <= |keys| && (r > 0 ==> !Less(o, keys[r - 1])) && (r < |keys| ==> Less(o, keys[r]))
    ensures Rank(keys, o) == r
  {
    RankSplits(keys, o);
  }

  /** The successor of the key at i is the key after it. */
  lemma RankOfKey(t: Table, i: nat)
    requires Valid(t) && i < |t.keys|
    ensures Rank(t.keys, t.keys[i]) == i + 1
  {
    LessTotal(t.keys[i], t.keys[i]);
    RankUnique(t.keys, t.keys[i], i + 1);
  }

  /** bisect_right, and next_oid. */
  method NextOid(t: Table, o: Oid) returns (r: Option<Oid>)
    requires Valid(t)
    ensures r == Next(t, o)
  {
    var lo, hi := 0, |t.keys|;
    while lo < hi
      invariant 0 <= lo <= hi <= |t.keys|
      invariant lo > 0 ==> !Less(o, t.keys[lo - 1])
      invariant hi < |t.keys| ==> Less(o, t.keys[hi])
    {
      var mid := (lo + hi) / 2;
      if Less(o, t.keys[mid]) {
        hi := mid;
      } else {
        lo := mid + 1;
      }
    }
    RankUnique(t.keys, o, lo);
    r := if lo < |t.keys| then Some(t.keys[lo]) else None;
  }
}
