/**
 Bit-packed port and VLAN sets: the agent's encoders (demo/personas.py) and the
 poller's decoders (netpath/nodepoll/_decode.py). Octets are big-endian, the most
 significant bit first; port lists count from 1, VLAN bitmaps from their base.
 */
module Bitmaps {
  import opened Wrappers

  type Octets = seq<bv8>

  /** 0x80 >> bit. */
  function Mask(bit: nat): bv8
    requires bit < 8
  {
    if bit == 0 then 0x80 else if bit == 1 then 0x40 else if bit == 2 then 0x20 else if bit == 3 then 0x10
    else if bit == 4 then 0x08 else if bit == 5 then 0x04 else if bit == 6 then 0x02 else 0x01
  }

  predicate HasBit(octet: bv8, bit: nat)
    requires bit < 8
  {
    octet & Mask(bit) != 0
  }

  predicate BitAt(octets: Octets, pos: int) {
    0 <= pos / 8 < |octets| && HasBit(octets[pos / 8], pos % 8)
  }

  /** The most significant bit comes first: bit k of an octet is the one worth 2 to the power 7 - k. */
  lemma MostSignificantFirst(octet: bv8, bit: nat)
    requires bit < 8
    ensures HasBit(octet, bit) <==> (octet >> (7 - bit)) & 1 == 1
  {
  }

  lemma SetBit(octet: bv8, bit: nat, other: nat)
    requires bit < 8 && other < 8
    ensures HasBit(octet | Mask(bit), other) <==> HasBit(octet, other) || other == bit
  {
  }

  lemma OctetByBits(a: bv8, b: bv8)
    requires forall bit: nat :: bit < 8 ==> (HasBit(a, bit) <==> HasBit(b, bit))
    ensures a == b
  {
    assert HasBit(a, 0) <==> HasBit(b, 0);
    assert HasBit(a, 1) <==> HasBit(b, 1);
    assert HasBit(a, 2) <==> HasBit(b, 2);
    assert HasBit(a, 3) <==> HasBit(b, 3);
    assert HasBit(a, 4) <==> HasBit(b, 4);
    assert HasBit(a, 5) <==> HasBit(b, 5);
    assert HasBit(a, 6) <==> HasBit(b, 6);
    assert HasBit(a, 7) <==> HasBit(b, 7);
  }

  /** Octets of one length are equal when their bits are. */
  lemma OctetsByBits(a: Octets, b: Octets)
    requires |a| == |b| && forall pos :: BitAt(a, pos) <==> BitAt(b, pos)
    ensures a == b
  {
    forall i | 0 <= i < |a| ensures a[i] == b[i] {
      forall bit: nat | bit < 8 ensures HasBit(a[i], bit) <==> HasBit(b[i], bit) {
        var pos := 8 * i + bit;
        assert pos / 8 == i && pos % 8 == bit;
        assert BitAt(a, pos) <==> BitAt(b, pos);
      }
      OctetByBits(a[i], b[i]);
    }
  }

  // --------------------------------------------------------------- encoding

  /** Where position `p` lands among `n` octets; a negative index counts from the end. */
  function Home(p: int, n: int): int {
    if p < 0 then p + 8 * n else p
  }

  function Homes(positions: set<int>, n: int): set<int> {
    set p | p in positions :: Home(p, n)
  }

  predicate IsHighest(positions: set<int>, m: int) {
    m in positions && forall p :: p in positions ==> p <= m
  }

  /** `octets` are n octets with exactly the homes of `positions` set. */
  ghost predicate Encodes(positions: set<int>, n: int, octets: Octets) {
    |octets| == n && forall pos :: BitAt(octets, pos) <==> pos in Homes(positions, n)
  }

  /** So a position counts from the front, or from the end when it is negative, and lies within the octets. */
  lemma PositionsWrap(positions: set<int>, octets: Octets, p: int)
    requires Encodes(positions, |octets|, octets) && p in positions
    ensures -8 * |octets| <= p < 8 * |octets| && BitAt(octets, if p < 0 then 8 * |octets| + p else p)
  {
    assert Home(p, |octets|) in Homes(positions, |octets|);
  }

  /** Python's max, of a collection that is not empty. */
  method Highest(positions: seq<int>) returns (m: int)
    requires positions != []
    ensures IsHighest(Elements(positions), m)
  {
    m := positions[0];
    for i := 0 to |positions|
      invariant m in positions && forall k :: 0 <= k < i ==> positions[k] <= m
    {
      if positions[i] > m {
        m := positions[i];
      }
    }
  }

  lemma OneBitMore(octets: Octets, i: nat, bit: nat, pos: int)
    requires i < |octets| && bit < 8
    ensures BitAt(octets[i := octets[i] | Mask(bit)], pos) <==> BitAt(octets, pos) || pos == 8 * i + bit
  {
    if pos / 8 == i {
      SetBit(octets[i], bit, pos % 8);
    }
  }

  /** _encode_bitmap, over the positions in any order. It raises (None) exactly when a negative
      position reaches further back than there are octets. */
  method EncodeBitmap(positions: seq<int>) returns (r: Option<Octets>)
    ensures positions == [] ==> r == Some([])
    ensures forall m :: IsHighest(Elements(positions), m) ==>
              match r
              case Some(octets) => Encodes(Elements(positions), m / 8 + 1, octets)
              case None => exists p :: p in positions && p < -8 * (m / 8 + 1)
  {
    if positions == [] {
      return Some([]);
    }
    var highest := Highest(positions);
    assert forall m :: IsHighest(Elements(positions), m) ==> m == highest;
    var n := highest / 8 + 1;
    if n < 0 {
      assert highest in positions;
      return None;
    }
    var out := new bv8[n](_ => 0);
    for k := 0 to |positions|
      invariant Encodes(Elements(positions[..k]), n, out[..])
    {
      var p := positions[k];
      assert p in Elements(positions);
      if p / 8 < -n {
        return None;
      }
      var i, bit := if p < 0 then p / 8 + n else p / 8, p % 8;
      ghost var before := out[..];
      out[i] := out[i] | Mask(bit);
      assert out[..] == before[i := before[i] | Mask(bit)];
      EncodesOneMore(positions[..k], p, n, before, i, bit);
      assert positions[..k + 1] == positions[..k] + [p];
    }
    assert positions[..|positions|] == positions;
    return Some(out[..]);
  }

  lemma EncodesOneMore(done: seq<int>, p: int, n: int, before: Octets, i: nat, bit: nat)
    requires i < |before| && bit < 8 && Encodes(Elements(done), n, before) && Home(p, n) == 8 * i + bit
    ensures Encodes(Elements(done + [p]), n, before[i := before[i] | Mask(bit)])
  {
    assert Elements(done + [p]) == Elements(done) + {p};
    assert Homes(Elements(done) + {p}, n) == Homes(Elements(done), n) + {Home(p, n)};
    forall pos
      ensures BitAt(before[i := before[i] | Mask(bit)], pos) <==> pos in Homes(Elements(done + [p]), n)
    {
      OneBitMore(before, i, bit, pos);
    }
  }

  /** encode_port_list: bridge port N at position N - 1. */
  method EncodePortList(ports: seq<int>) returns (r: Option<Octets>)
    ensures ports == [] ==> r == Some([])
    ensures forall m :: IsHighest(Elements(ports), m) ==>
              match r
              case Some(octets) => Encodes(PortPositions(Elements(ports)), (m - 1) / 8 + 1, octets)
              case None => exists p :: p in ports && p - 1 < -8 * ((m - 1) / 8 + 1)
  {
    var positions := seq(|ports|, i requires 0 <= i < |ports| => ports[i] - 1);
    r := EncodeBitmap(positions);
    ShiftedPorts(ports, positions);
    forall m | IsHighest(Elements(ports), m)
      ensures IsHighest(PortPositions(Elements(ports)), m - 1)
      ensures r.None? ==> exists p :: p in ports && p - 1 < -8 * ((m - 1) / 8 + 1)
    {
      assert IsHighest(PortPositions(Elements(ports)), m - 1);
      if r.None? {
        var q :| q in positions && q < -8 * ((m - 1) / 8 + 1);
        assert q in Elements(positions);
        assert q + 1 in ports;
      }
    }
  }

  lemma ShiftedPorts(ports: seq<int>, positions: seq<int>)
    requires |positions| == |ports| && forall i :: 0 <= i < |ports| ==> positions[i] == ports[i] - 1
    ensures Elements(positions) == PortPositions(Elements(ports))
  {
    forall x ensures x in positions <==> x + 1 in ports {
      if x + 1 in ports {
        var i :| 0 <= i < |ports| && ports[i] == x + 1;
        assert positions[i] == x;
      }
    }
    forall x ensures x in PortPositions(Elements(ports)) <==> x + 1 in ports {
      if x + 1 in ports {
        assert x + 1 in Elements(ports);
      }
    }
  }

  function PortPositions(ports: set<int>): set<int> {
    set p | p in ports :: p - 1
  }

  /** encode_vlan_bitmap: the VLANs of one column, VLAN `base` at position 0. */
  function VlanPositions(vlans: set<int>, base: int): set<int> {
    set v | v in vlans && base <= v < base + 1024 :: v - base
  }

  // --------------------------------------------------------------- decoding

  /** The numbers of the set bits, position 0 being number `origin`. */
  function Numbers(octets: Octets, origin: int): set<int> {
    set pos | 0 <= pos < 8 * |octets| && BitAt(octets, pos) :: pos + origin
  }

  /** _decode_port_list with origin 1, _decode_vlan_bitmap with its base: the set bits in order. */
  method Decode(octets: Octets, origin: int) returns (numbers: seq<int>)
    ensures forall i, j :: 0 <= i < j < |numbers| ==> numbers[i] < numbers[j]
    ensures Elements(numbers) == Numbers(octets, origin)
  {
    numbers := [];
    for i := 0 to |octets|
      invariant Listed(octets, origin, numbers, 8 * i)
    {
      for bit := 0 to 8
        invariant Listed(octets, origin, numbers, 8 * i + bit)
      {
        if octets[i] & Mask(bit) != 0 {
          ListedOneMore(octets, origin, numbers, i, bit);
          numbers := numbers + [origin + i * 8 + bit];
        } else {
          ListedNoMore(octets, origin, numbers, i, bit);
        }
      }
    }
    forall x ensures x in numbers <==> x in Numbers(octets, origin) {
      NumbersAre(octets, origin, x);
    }
  }

  /** `numbers` lists the set bits below `limit`, in order. */
  ghost predicate Listed(octets: Octets, origin: int, numbers: seq<int>, limit: nat) {
    && (forall i, j :: 0 <= i < j < |numbers| ==> numbers[i] < numbers[j])
    && (forall x :: x in numbers <==> origin <= x < origin + limit && BitAt(octets, x - origin))
  }

  lemma ListedOneMore(octets: Octets, origin: int, numbers: seq<int>, i: nat, bit: nat)
    requires i < |octets| && bit < 8 && HasBit(octets[i], bit) && Listed(octets, origin, numbers, 8 * i + bit)
    ensures Listed(octets, origin, numbers + [origin + i * 8 + bit], 8 * i + bit + 1)
  {
    assert forall k :: 0 <= k < |numbers| ==> numbers[k] in numbers;
  }

  lemma ListedNoMore(octets: Octets, origin: int, numbers: seq<int>, i: nat, bit: nat)
    requires i < |octets| && bit < 8 && !HasBit(octets[i], bit) && Listed(octets, origin, numbers, 8 * i + bit)
    ensures Listed(octets, origin, numbers, 8 * i + bit + 1)
  {
  }

  // ------------------------------------------------------------- round trips

  lemma NumbersAre(octets: Octets, origin: int, x: int)
    ensures x in Numbers(octets, origin) <==> BitAt(octets, x - origin)
  {
  }

  /** Every port comes back, and no other, exactly when all ports are at least 1: port 0 and below
      wrap round to the far end. */
  lemma PortListRoundTrip(ports: set<int>, m: int, octets: Octets)
    requires IsHighest(ports, m) && Encodes(PortPositions(ports), (m - 1) / 8 + 1, octets)
    ensures Numbers(octets, 1) == ports <==> forall p :: p in ports ==> p >= 1
  {
    var n := (m - 1) / 8 + 1;
    if forall p :: p in ports ==> p >= 1 {
      forall x ensures x in Numbers(octets, 1) <==> x in ports {
        NumbersAre(octets, 1, x);
        if x in ports {
          assert x - 1 in PortPositions(ports);
          assert Home(x - 1, n) in Homes(PortPositions(ports), n);
        }
      }
    } else {
      var p :| p in ports && p < 1;
      assert p !in Numbers(octets, 1);
    }
  }

  /** No shorter bitmap could hold the set: its highest port is in the last octet. */
  lemma PortListIsMinimal(ports: set<int>, m: int, octets: Octets, other: Octets)
    requires IsHighest(ports, m) && m >= 1 && Encodes(PortPositions(ports), (m - 1) / 8 + 1, octets)
    requires BitAt(other, m - 1)
    ensures |octets| <= |other|
  {
  }

  /** And the octets are determined by the set. */
  lemma PortListIsUnique(ports: set<int>, m: int, a: Octets, b: Octets)
    requires IsHighest(ports, m)
    requires Encodes(PortPositions(ports), (m - 1) / 8 + 1, a) && Encodes(PortPositions(ports), (m - 1) / 8 + 1, b)
    ensures a == b
  {
    OctetsByBits(a, b);
  }

  /** Port 1 alone is the top bit of one octet, port 8 alone its lowest. */
  lemma FirstAndEighthPort(octets: Octets)
    ensures Encodes(PortPositions({1}), 1, octets) <==> octets == [0x80]
    ensures Encodes(PortPositions({8}), 1, octets) <==> octets == [0x01]
  {
    OnePortsBit([0x80], 0);
    OnePortsBit([0x01], 7);
    assert PortPositions({1}) == {0} && PortPositions({8}) == {7};
    assert Homes({0}, 1) == {0} && Homes({7}, 1) == {7};
    if Encodes({0}, 1, octets) {
      OctetsByBits(octets, [0x80]);
    }
    if Encodes({7}, 1, octets) {
      OctetsByBits(octets, [0x01]);
    }
  }

  lemma OnePortsBit(octets: Octets, bit: nat)
    requires |octets| == 1 && bit < 8 && octets[0] == Mask(bit)
    ensures forall pos :: BitAt(octets, pos) <==> pos == bit
  {
    forall pos ensures BitAt(octets, pos) <==> pos == bit {
      if 0 <= pos < 8 {
        OnlyItsBit(bit, pos);
      }
    }
  }

  lemma OnlyItsBit(bit: nat, other: nat)
    requires bit < 8 && other < 8
    ensures HasBit(Mask(bit), other) <==> other == bit
  {
  }

  /** One VLAN column holds what EncodeBitmap gives for its positions. */
  ghost predicate IsColumn(vlans: set<int>, base: int, octets: Octets) {
    var positions := VlanPositions(vlans, base);
    if positions == {} then octets == []
    else exists m :: IsHighest(positions, m) && Encodes(positions, m / 8 + 1, octets)
  }

  /** The VLANs of one column. */
  function InColumn(vlans: set<int>, base: int): set<int> {
    set v | v in vlans && base <= v < base + 1024
  }

  /** A column gives back its own 1024 VLANs, and fits in 128 octets. */
  lemma VlanColumnRoundTrip(vlans: set<int>, base: int, octets: Octets)
    requires IsColumn(vlans, base, octets)
    ensures Numbers(octets, base) == InColumn(vlans, base) && |octets| <= 128
  {
    forall x ensures x in Numbers(octets, base) <==> x in InColumn(vlans, base) {
      NumbersAre(octets, base, x);
      ColumnPosition(vlans, base, x);
      ColumnBit(vlans, base, octets, x - base);
    }
    ColumnFits(vlans, base, octets);
  }

  lemma ColumnPosition(vlans: set<int>, base: int, x: int)
    ensures x - base in VlanPositions(vlans, base) <==> x in InColumn(vlans, base)
  {
  }

  lemma ColumnFits(vlans: set<int>, base: int, octets: Octets)
    requires IsColumn(vlans, base, octets)
    ensures |octets| <= 128
  {
  }

  lemma ColumnBit(vlans: set<int>, base: int, octets: Octets, pos: int)
    requires IsColumn(vlans, base, octets)
    ensures BitAt(octets, pos) <==> pos in VlanPositions(vlans, base)
  {
  }

  /** The four columns decode to disjoint sets that together are the VLANs 0..4095 of the input. */
  lemma FourColumnsRoundTrip(vlans: set<int>, a: Octets, b: Octets, c: Octets, d: Octets)
    requires IsColumn(vlans, 0, a) && IsColumn(vlans, 1024, b) && IsColumn(vlans, 2048, c) && IsColumn(vlans, 3072, d)
    ensures
      var (na, nb, nc, nd) := (Numbers(a, 0), Numbers(b, 1024), Numbers(c, 2048), Numbers(d, 3072));
      && na + nb + nc + nd == (set v | v in vlans && 0 <= v < 4096)
      && na !! nb && na !! nc && na !! nd && nb !! nc && nb !! nd && nc !! nd
  {
    VlanColumnRoundTrip(vlans, 0, a);
    VlanColumnRoundTrip(vlans, 1024, b);
    VlanColumnRoundTrip(vlans, 2048, c);
    VlanColumnRoundTrip(vlans, 3072, d);
  }

  /** encode_vlan_bitmap: the VLANs inside one column. */
  method EncodeVlanBitmap(vlans: seq<int>, base: int) returns (octets: Octets)
    ensures IsColumn(Elements(vlans), base, octets)
  {
    var positions := [];
    for i := 0 to |vlans|
      invariant Elements(positions) == VlanPositions(Elements(vlans[..i]), base)
    {
      ghost var before := positions;
      if base <= vlans[i] < base + 1024 {
        positions := positions + [vlans[i] - base];
      }
      VlanOneMore(vlans[..i], vlans[i], base, before, positions);
      assert vlans[..i + 1] == vlans[..i] + [vlans[i]];
    }
    assert vlans[..|vlans|] == vlans;
    var r := EncodeBitmap(positions);
    if positions == [] {
      return [];
    }
    var m := Highest(positions);
    assert m in Elements(positions);
    assert forall p :: p in positions ==> p in Elements(positions);
    octets := r.value;
  }

  lemma VlanOneMore(done: seq<int>, v: int, base: int, before: seq<int>, after: seq<int>)
    requires Elements(before) == VlanPositions(Elements(done), base)
    requires after == before + if base <= v < base + 1024 then [v - base] else []
    ensures Elements(after) == VlanPositions(Elements(done + [v]), base)
  {
    assert Elements(done + [v]) == Elements(done) + {v};
    assert Elements(after) == Elements(before) + if base <= v < base + 1024 then {v - base} else {};
  }
}
