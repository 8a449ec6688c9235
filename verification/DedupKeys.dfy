/**
 Dedup keys as the text the alert store holds: "rule:kind:id". Shows that the text
 and the pair it stands for determine each other, and that the range scan with
 which an outage sweeps "c:interface:7:" meets device 7's ports and no other key.
 */
module DedupKeys {
  import opened Lexicographic
  import opened RollupRules
  import opened Rollup

  predicate NoColon(s: string) {
    ':' !in s
  }

  /** The decimal text of a number. */
  function Decimal(n: nat): (s: string)
    ensures s != [] && forall c :: c in s ==> '0' <= c <= '9'
  {
    if n < 10 then [Digit(n)] else Decimal(n / 10) + [Digit(n % 10)]
  }

  function Digit(n: nat): (c: char)
    requires n < 10
    ensures '0' <= c <= '9' && c as int == '0' as int + n
  {
    '0' + n as char
  }

  lemma {:induction false} DecimalInjective(m: nat, n: nat)
    requires Decimal(m) == Decimal(n)
    ensures m == n
  {
    var s := Decimal(m);
    assert s[|s| - 1] == Digit(m % 10) && s[|s| - 1] == Digit(n % 10);
    if m >= 10 && n >= 10 {
      assert s[..|s| - 1] == Decimal(m / 10) && s[..|s| - 1] == Decimal(n / 10);
      DecimalInjective(m / 10, n / 10);
    }
  }

  function KindText(e: Entity): string {
    match e
    case Device(_) => "device"
    case Interface(_, _) => "interface"
    case Sensor(_, _) => "sensor"
    case NetpathTarget(_) => "netpath_target"
    case OtherEntity(kind, _) => kind
  }

  function IdText(e: Entity): string {
    match e
    case Device(id) => Decimal(id)
    case Interface(d, i) => Decimal(d) + ":" + Decimal(i)
    case Sensor(d, i) => Decimal(d) + ":" + Decimal(i)
    case NetpathTarget(t) => Decimal(t)
    case OtherEntity(_, text) => text
  }

  /** An entity of another kind is named by none of the four kinds above. */
  predicate WellKinded(e: Entity) {
    e.OtherEntity? ==> NoColon(e.kind) && e.kind !in {"device", "interface", "sensor", "netpath_target"}
  }

  /** dedup_key. */
  function KeyText(name: string, e: Entity): string {
    name + ":" + KindText(e) + ":" + IdText(e)
  }

  /** A text before the first colon, and the rest after it, are determined by the whole. */
  lemma FirstColonSplits(a: string, b: string, x: string, y: string)
    requires NoColon(a) && NoColon(b) && a + ":" + x == b + ":" + y
    ensures a == b && x == y
  {
    var s := a + ":" + x;
    assert s == b + ":" + y;
    assert s[|a|] == ':' && s[|b|] == ':';
    assert forall i :: 0 <= i < |a| ==> s[i] == a[i];
    assert forall i :: 0 <= i < |b| ==> s[i] == b[i];
    assert a == s[..|a|] && b == s[..|b|];
    assert x == s[|a| + 1..] && y == s[|b| + 1..];
  }

  lemma KindHasNoColon(e: Entity)
    requires WellKinded(e)
    ensures NoColon(KindText(e))
  {
  }

  lemma IdInjective(e: Entity, f: Entity)
    requires WellKinded(e) && WellKinded(f) && KindText(e) == KindText(f) && IdText(e) == IdText(f)
    ensures e == f
  {
    match e
    case Device(d) => DecimalInjective(d, f.id);
    case NetpathTarget(t) => DecimalInjective(t, f.target);
    case Interface(d, i) =>
      FirstColonSplits(Decimal(d), Decimal(f.device), Decimal(i), Decimal(f.index));
      DecimalInjective(d, f.device);
      DecimalInjective(i, f.index);
    case Sensor(d, i) =>
      FirstColonSplits(Decimal(d), Decimal(f.device), Decimal(i), Decimal(f.index));
      DecimalInjective(d, f.device);
      DecimalInjective(i, f.index);
    case OtherEntity(_, _) =>
  }

  lemma SplitKeyText(name: string, e: Entity)
    ensures KeyText(name, e) == name + ":" + (KindText(e) + ":" + IdText(e))
  {
  }

  /** Two rules about two entities never share a key. */
  lemma KeyTextInjective(m: string, e: Entity, n: string, f: Entity)
    requires NoColon(m) && NoColon(n) && WellKinded(e) && WellKinded(f)
    requires KeyText(m, e) == KeyText(n, f)
    ensures m == n && e == f
  {
    SplitKeyText(m, e);
    SplitKeyText(n, f);
    FirstColonSplits(m, n, KindText(e) + ":" + IdText(e), KindText(f) + ":" + IdText(f));
    KindHasNoColon(e);
    KindHasNoColon(f);
    FirstColonSplits(KindText(e), KindText(f), IdText(e), IdText(f));
    IdInjective(e, f);
  }

  // --------------------------------------------------------- the range scan

  /** The code points of a text. */
  function Codes(s: string): (c: seq<nat>)
    ensures |c| == |s|
  {
    seq(|s|, i requires 0 <= i < |s| => s[i] as nat)
  }

  /** The exclusive upper bound: the last code point bumped by one. */
  function Bumped(p: seq<nat>): seq<nat>
    requires p != []
  {
    p[..|p| - 1] + [p[|p| - 1] + 1]
  }

  /** The keys the range scan of resolve_by_dedup_prefix selects. */
  predicate InRange(k: string, p: string)
    requires p != ""
  {
    !Less(Codes(k), Codes(p)) && Less(Codes(k), Bumped(Codes(p)))
  }

  lemma {:induction false} RangeOfCodes(k: seq<nat>, p: seq<nat>)
    requires p != []
    ensures !Less(k, p) && Less(k, Bumped(p)) <==> p <= k
  {
    var u := Bumped(p);
    if k == [] {
      assert Less(k, p);
    } else if |p| > 1 {
      assert u[0] == p[0];
      if k[0] == p[0] {
        assert u[1..] == Bumped(p[1..]);
        RangeOfCodes(k[1..], p[1..]);
        assert p == [p[0]] + p[1..] && k == [k[0]] + k[1..];
      }
    } else {
      assert u == [p[0] + 1];
      assert k[0] == p[0] ==> !Less(k[1..], p[1..]);
      assert k[0] == u[0] ==> !Less(k[1..], u[1..]);
    }
  }

  lemma CodesBegin(k: string, p: string)
    ensures Codes(p) <= Codes(k) <==> p <= k
  {
    if Codes(p) <= Codes(k) {
      forall i | 0 <= i < |p| ensures p[i] == k[i] {
        assert Codes(p)[i] == Codes(k)[i];
      }
    }
    if p <= k {
      assert Codes(k)[..|p|] == Codes(p);
    }
  }

  /** The range is exactly the keys that begin with the prefix. */
  lemma RangeIsPrefix(k: string, p: string)
    requires p != ""
    ensures InRange(k, p) <==> p <= k
  {
    RangeOfCodes(Codes(k), Codes(p));
    CodesBegin(k, p);
  }

  /** The prefix of a rule's alerts about the ports of device `d`. */
  function PortPrefix(name: string, d: nat): (p: string)
    ensures p != ""
  {
    name + ":" + "interface" + ":" + Decimal(d) + ":"
  }

  lemma PrefixHasRest(k: string, p: string)
    requires p <= k
    ensures k == p + k[|p|..]
  {
  }

  /** A key that begins with a rule's port prefix is that rule's alert about one of those ports. */
  lemma BeginsWithPortPrefix(name: string, d: nat, n: string, e: Entity)
    requires NoColon(name) && NoColon(n) && WellKinded(e) && PortPrefix(name, d) <= KeyText(n, e)
    ensures n == name && e.Interface? && e.device == d
  {
    var k, p := KeyText(n, e), PortPrefix(name, d);
    var rest := k[|p|..];
    PrefixHasRest(k, p);
    SplitKeyText(n, e);
    SplitPortPrefix(name, d, rest);
    var id := Decimal(d) + ":" + rest;
    FirstColonSplits(n, name, KindText(e) + ":" + IdText(e), "interface" + ":" + id);
    KindHasNoColon(e);
    FirstColonSplits(KindText(e), "interface", IdText(e), id);
    assert e.Interface?;
    FirstColonSplits(Decimal(e.device), Decimal(d), Decimal(e.index), rest);
    DecimalInjective(e.device, d);
  }

  lemma SplitPortPrefix(name: string, d: nat, rest: string)
    ensures PortPrefix(name, d) + rest == name + ":" + ("interface" + ":" + (Decimal(d) + ":" + rest))
  {
  }

  lemma PortKeyBegins(name: string, d: nat, i: nat)
    ensures PortPrefix(name, d) <= KeyText(name, Interface(d, i))
  {
  }

  /** The range scan meets exactly the rule's alerts about that device's ports: neither another
      rule's, nor another kind's, nor those of a device whose number merely starts with it. */
  lemma RangeSelectsExactlyTheDevicesPorts(name: string, d: nat, n: string, e: Entity)
    requires NoColon(name) && NoColon(n) && WellKinded(e)
    ensures InRange(KeyText(n, e), PortPrefix(name, d)) <==> n == name && e.Interface? && e.device == d
  {
    RangeIsPrefix(KeyText(n, e), PortPrefix(name, d));
    if PortPrefix(name, d) <= KeyText(n, e) {
      BeginsWithPortPrefix(name, d, n, e);
    } else if n == name && e.Interface? && e.device == d {
      PortKeyBegins(name, d, e.index);
      assert false;
    }
  }

  // ------------------------------------------- the sweep, on stored text

  /** How the rules are named in the store: distinct names without a colon. */
  ghost predicate Naming(names: map<RuleKey, string>) {
    && (forall r :: r in names ==> NoColon(names[r]))
    && forall r, q :: r in names && q in names && names[r] == names[q] ==> r == q
  }

  ghost predicate Storable(names: map<RuleKey, string>, active: map<Key, Row>) {
    forall k :: k in active ==> k.rule in names && WellKinded(k.entity)
  }

  /** What _absorb_one asks the store to resolve: one key exactly and, for a device, one range. */
  predicate AskedFor(name: string, e: Entity, k: string) {
    k == KeyText(name, e) || (e.Device? && InRange(k, PortPrefix(name, e.id)))
  }

  /** On stored text the sweep resolves exactly the alerts it is meant to. */
  lemma SweepOnTextIsTheSweep(names: map<RuleKey, string>, active: map<Key, Row>, child: RuleKey, e: Entity)
    requires Naming(names) && Storable(names, active) && child in names && WellKinded(e)
    ensures forall k :: k in active ==>
              (AskedFor(names[child], e, KeyText(names[k.rule], k.entity)) <==> k in SweptAlerts(active, [child], e))
  {
    forall k | k in active
      ensures AskedFor(names[child], e, KeyText(names[k.rule], k.entity)) <==> k in SweptAlerts(active, [child], e)
    {
      AskedForOne(names[child], e, names[k.rule], k.entity);
      assert k in SweptAlerts(active, [child], e) <==> k.rule == child && Sweeps(e, k.entity);
    }
  }

  lemma AskedForOne(name: string, e: Entity, n: string, f: Entity)
    requires NoColon(name) && NoColon(n) && WellKinded(e) && WellKinded(f)
    ensures AskedFor(name, e, KeyText(n, f)) <==> n == name && Sweeps(e, f)
  {
    if KeyText(n, f) == KeyText(name, e) {
      KeyTextInjective(n, f, name, e);
    }
    if e.Device? {
      RangeSelectsExactlyTheDevicesPorts(name, e.id, n, f);
    }
  }
}
