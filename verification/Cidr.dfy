/**
  `ValidateCIDR` of `internal/tunnel/validate.go`: the byte-wise network and
  broadcast computation, related to the arithmetic of address blocks.
 */
module Cidr {

  // A byte is its eight bits, most significant first; &, | and ^ work bit by bit.
  type Octet = b: seq<bool> | |b| == 8 witness [false, false, false, false, false, false, false, false]

  function And(a: Octet, b: Octet): Octet { seq(8, j requires 0 <= j < 8 => a[j] && b[j]) }
  function Or(a: Octet, b: Octet): Octet { seq(8, j requires 0 <= j < 8 => a[j] || b[j]) }
  function Not(a: Octet): Octet { seq(8, j requires 0 <= j < 8 => !a[j]) }

  // What net.ParseCIDR makes of the text: an address of 4 or 16 bytes and a prefix length.
  datatype Text =
    | Empty
    | Malformed
    | Parsed(ip: seq<Octet>, ones: nat)

  predicate WellFormed(c: Text) {
    c.Parsed? ==> (|c.ip| == 4 || |c.ip| == 16) && c.ones <= 8 * |c.ip|
  }

  datatype Verdict = Accepted | EmptyText | BadNotation | NotIPv4 | NetworkAddress | BroadcastAddress

  const ZERO: Octet := [false, false, false, false, false, false, false, false]
  const ALL_ONES: Octet := [true, true, true, true, true, true, true, true]

  // ip.To4() != nil: four bytes, or the IPv4-mapped IPv6 form.
  predicate IsV4(ip: seq<Octet>) {
    |ip| == 4 || (|ip| == 16 && (forall i | 0 <= i < 10 :: ip[i] == ZERO) && ip[10] == ip[11] == ALL_ONES)
  }

  // Octet i of net.CIDRMask(ones, 8 * len).
  function Mask(ones: nat, i: nat): Octet { seq(8, j requires 0 <= j < 8 => 8 * i + j < ones) }

  function Network(ip: seq<Octet>, ones: nat): (r: seq<Octet>)
    ensures |r| == |ip|
  {
    seq(|ip|, i requires 0 <= i < |ip| => And(ip[i], Mask(ones, i)))
  }

  function Broadcast(ip: seq<Octet>, ones: nat): (r: seq<Octet>)
    ensures |r| == |ip|
  {
    seq(|ip|, i requires 0 <= i < |ip| => Or(Network(ip, ones)[i], Not(Mask(ones, i))))
  }

  // --- The same as numbers ---

  function Pow2(n: nat): (r: nat)
    ensures r > 0
  {
    if n == 0 then 1 else 2 * Pow2(n - 1)
  }

  function Number(bits: seq<bool>): nat {
    if bits == [] then 0 else 2 * Number(bits[..|bits| - 1]) + if bits[|bits| - 1] then 1 else 0
  }

  function Bits(ip: seq<Octet>): (s: seq<bool>)
    ensures |s| == 8 * |ip|
  {
    seq(8 * |ip|, p requires 0 <= p < 8 * |ip| => ip[p / 8][p % 8])
  }

  function Value(ip: seq<Octet>): nat { Number(Bits(ip)) }

  // Number of addresses in the block, and the position of the address in it.
  function BlockSize(c: Text): nat
    requires c.Parsed? && WellFormed(c)
  {
    Pow2(8 * |c.ip| - c.ones)
  }

  function HostPart(c: Text): nat
    requires c.Parsed? && WellFormed(c)
  {
    Value(c.ip) % BlockSize(c)
  }

  // The verdict in arithmetic terms: only strictly interior addresses of a block
  // are accepted, except that a prefix length of 32 is always accepted.
  function Judge(c: Text): Verdict
    requires WellFormed(c)
  {
    match c
    case Empty => EmptyText
    case Malformed => BadNotation
    case Parsed(ip, ones) =>
      if !IsV4(ip) then NotIPv4
      else if ones == 32 then Accepted
      else if HostPart(c) == 0 then NetworkAddress
      else if HostPart(c) == BlockSize(c) - 1 then BroadcastAddress
      else Accepted
  }

  method BroadcastOf(network: seq<Octet>, ones: nat) returns (r: seq<Octet>)
    ensures |r| == |network|
    ensures forall i | 0 <= i < |r| :: r[i] == Or(network[i], Not(Mask(ones, i)))
  {
    var broadcast := new Octet[|network|](i requires 0 <= i < |network| => network[i]);
    for i := 0 to broadcast.Length
      invariant forall j | 0 <= j < i :: broadcast[j] == Or(network[j], Not(Mask(ones, j)))
      invariant forall j | i <= j < broadcast.Length :: broadcast[j] == network[j]
    {
      broadcast[i] := Or(broadcast[i], Not(Mask(ones, i)));
    }
    r := broadcast[..];
  }

  method ValidateCidr(c: Text) returns (v: Verdict)
    requires WellFormed(c)
    ensures v == Judge(c)
  {
    match c {
      case Empty => return EmptyText;
      case Malformed => return BadNotation;
      case Parsed(ip, ones) =>
        if !IsV4(ip) { return NotIPv4; }
        if ones == 32 { return Accepted; }
        var network := Network(ip, ones);
        BlockBounds(ip, ones);
        if ip == network { return NetworkAddress; }
        var broadcast := BroadcastOf(network, ones);
        assert broadcast == Broadcast(ip, ones);
        if ip == broadcast { return BroadcastAddress; }
        return Accepted;
    }
  }

  // --- What the verdicts mean ---

  // The rejected addresses are the first and the last of the block, as the byte-wise masks give them.
  lemma VerdictIff(ip: seq<Octet>, ones: nat)
    requires WellFormed(Parsed(ip, ones))
    ensures var v, judged := Judge(Parsed(ip, ones)), IsV4(ip) && ones != 32;
            && (v == NotIPv4 <==> !IsV4(ip))
            && (v == NetworkAddress <==> judged && ip == Network(ip, ones))
            && (v == BroadcastAddress <==> judged && ip != Network(ip, ones) && ip == Broadcast(ip, ones))
  {
    BlockBounds(ip, ones);
  }

  // The prefix of a number.
  lemma {:induction false} NumberPrefix(s: seq<bool>, h: nat)
    requires h <= |s|
    ensures Number(s) / Pow2(h) == Number(s[..|s| - h])
    decreases h
  {
    if h == 0 {
      assert s[..|s|] == s;
    } else {
      var t := s[..|s| - 1];
      NumberPrefix(t, h - 1);
      assert t[..|t| - (h - 1)] == s[..|s| - h];
      Halved(Number(s), Number(t), Pow2(h - 1));
    }
  }

  lemma Halved(x: nat, y: nat, d: nat)
    requires d > 0 && 2 * y <= x <= 2 * y + 1
    ensures x / (2 * d) == y / d
  {
    var q, r := y / d, y % d;
    assert x == q * (2 * d) + (x - 2 * y + 2 * r);
    DivModUnique(x, 2 * d, q, x - 2 * y + 2 * r);
  }

  // ::ffff:0:0/96 as bits.
  function MappedPrefix(): (s: seq<bool>)
    ensures |s| == 96
  {
    seq(96, p => p >= 80)
  }

  lemma {:induction false} MappedNumber(n: nat)
    requires n <= 96
    ensures Number(MappedPrefix()[..n]) == if n <= 80 then 0 else Pow2(n - 80) - 1
  {
    if n == 0 {
    } else {
      MappedNumber(n - 1);
      assert MappedPrefix()[..n][..n - 1] == MappedPrefix()[..n - 1];
    }
  }

  lemma MappedBits(ip: seq<Octet>)
    requires |ip| == 16
    ensures IsV4(ip) <==> Bits(ip)[..96] == MappedPrefix()
  {
    var b := Bits(ip);
    if IsV4(ip) {
      forall p | 0 <= p < 96 ensures b[p] == (p >= 80) {}
      assert b[..96] == MappedPrefix();
    }
    if b[..96] == MappedPrefix() {
      forall i, j | 0 <= i < 12 && 0 <= j < 8 ensures ip[i][j] == (i >= 10) {
        assert b[..96][8 * i + j] == ip[(8 * i + j) / 8][(8 * i + j) % 8];
      }
      forall i | 0 <= i < 12 ensures ip[i] == if i >= 10 then ALL_ONES else ZERO {}
    }
  }

  lemma MappedValue()
    ensures Number(MappedPrefix()) == 0xffff
  {
    MappedNumber(96);
    assert MappedPrefix()[..96] == MappedPrefix();
    Pow16();
  }

  lemma Pow16()
    ensures Pow2(16) == 0x1_0000
  {
    assert Pow2(4) == 16;
    assert Pow2(8) == 256;
    assert Pow2(12) == 4096;
  }

  lemma MappedNumberIff(ip: seq<Octet>)
    requires |ip| == 16
    ensures IsV4(ip) <==> Number(Bits(ip)[..96]) == 0xffff
  {
    MappedBits(ip);
    MappedValue();
    if Number(Bits(ip)[..96]) == 0xffff { NumberInjective(Bits(ip)[..96], MappedPrefix()); }
  }

  // An address of 16 bytes counts as IPv4 exactly if it lies in ::ffff:0:0/96.
  lemma MappedIff(ip: seq<Octet>)
    requires |ip| == 16
    ensures IsV4(ip) <==> Value(ip) / Pow2(32) == 0xffff
  {
    NumberPrefix(Bits(ip), 32);
    MappedNumberIff(ip);
  }

  // --- From bytes to bits ---

  function KeepFirst(s: seq<bool>, ones: nat, fill: bool): (r: seq<bool>)
    ensures |r| == |s|
  {
    seq(|s|, p requires 0 <= p < |s| => if p < ones then s[p] else fill)
  }

  lemma BytesToBits(ip: seq<Octet>, ones: nat)
    ensures Bits(Network(ip, ones)) == KeepFirst(Bits(ip), ones, false)
    ensures Bits(Broadcast(ip, ones)) == KeepFirst(Bits(ip), ones, true)
  {
    forall p | 0 <= p < 8 * |ip|
      ensures Bits(Network(ip, ones))[p] == KeepFirst(Bits(ip), ones, false)[p]
      ensures Bits(Broadcast(ip, ones))[p] == KeepFirst(Bits(ip), ones, true)[p]
    {
      assert 8 * (p / 8) + p % 8 == p;
    }
  }

  // v followed by h zero bits
  function Shifted(v: nat, h: nat): nat { if h == 0 then v else 2 * Shifted(v, h - 1) }

  lemma {:induction false} ShiftedValue(v: nat, h: nat)
    ensures Shifted(v, h) == v * Pow2(h)
  {
    if h == 0 {
    } else {
      ShiftedValue(v, h - 1);
    }
  }

  lemma KeepFirstStep(s: seq<bool>, ones: nat, fill: bool)
    requires ones < |s|
    ensures Number(KeepFirst(s, ones, fill)) ==
            2 * Number(KeepFirst(s[..|s| - 1], ones, fill)) + if fill then 1 else 0
  {
    assert KeepFirst(s, ones, fill)[..|s| - 1] == KeepFirst(s[..|s| - 1], ones, fill);
  }

  // The block of all numbers that share the first `ones` bits.
  lemma {:induction false} BitsBlock(s: seq<bool>, ones: nat)
    requires ones <= |s|
    ensures var base := Shifted(Number(s[..ones]), |s| - ones);
            && Number(KeepFirst(s, ones, false)) == base
            && Number(KeepFirst(s, ones, true)) == base + Pow2(|s| - ones) - 1
            && base <= Number(s) < base + Pow2(|s| - ones)
    decreases |s|
  {
    if ones == |s| {
      assert KeepFirst(s, ones, false) == s == KeepFirst(s, ones, true) && s[..ones] == s;
    } else {
      var k := |s| - 1;
      KeepFirstStep(s, ones, false);
      KeepFirstStep(s, ones, true);
      assert s[..k][..ones] == s[..ones];
      BitsBlock(s[..k], ones);
    }
  }

  lemma {:induction false} NumberInjective(a: seq<bool>, b: seq<bool>)
    requires |a| == |b| && Number(a) == Number(b)
    ensures a == b
    decreases |a|
  {
    if a == [] {
    } else {
      var k := |a| - 1;
      NumberInjective(a[..k], b[..k]);
      assert a == a[..k] + [a[k]] && b == b[..k] + [b[k]];
    }
  }

  lemma SameValue(a: seq<Octet>, b: seq<Octet>)
    requires |a| == |b|
    ensures a == b <==> Value(a) == Value(b)
  {
    if Value(a) == Value(b) {
      NumberInjective(Bits(a), Bits(b));
      forall i | 0 <= i < |a| ensures a[i] == b[i] {
        forall j | 0 <= j < 8 ensures a[i][j] == b[i][j] {
          assert Bits(a)[8 * i + j] == a[i][j] && Bits(b)[8 * i + j] == b[i][j];
        }
      }
    }
  }

  lemma DivModUnique(x: nat, d: nat, q: nat, r: nat)
    requires d > 0 && x == q * d + r && r < d
    ensures x % d == r
  {
    var k := x / d;
    if k < q { MulStep(k, q, d); }
    if q < k { MulStep(q, k, d); }
  }

  lemma MulStep(a: nat, b: nat, d: nat)
    requires a < b
    ensures a * d + d <= b * d
  {
    assert b * d == a * d + d + (b - a - 1) * d;
  }

  lemma InBlock(x: nat, v: nat, size: nat)
    requires size > 0 && v * size <= x < v * size + size
    ensures x - x % size == v * size
    ensures x == v * size <==> x % size == 0
    ensures x == v * size + size - 1 <==> x % size == size - 1
  {
    DivModUnique(x, size, v, x - v * size);
  }

  // The byte-wise computation is arithmetic on the block of 2^(8w-ones) addresses.
  lemma BlockBounds(ip: seq<Octet>, ones: nat)
    requires ones <= 8 * |ip|
    ensures var size := Pow2(8 * |ip| - ones);
            && Value(Network(ip, ones)) == Value(ip) - Value(ip) % size
            && Value(Broadcast(ip, ones)) == Value(Network(ip, ones)) + size - 1
            && (ip == Network(ip, ones) <==> Value(ip) % size == 0)
            && (ip == Broadcast(ip, ones) <==> Value(ip) % size == size - 1)
  {
    var v := BlockValues(ip, ones);
    InBlock(Value(ip), v, Pow2(8 * |ip| - ones));
    SameValue(ip, Network(ip, ones));
    SameValue(ip, Broadcast(ip, ones));
  }

  lemma BlockValues(ip: seq<Octet>, ones: nat) returns (v: nat)
    requires ones <= 8 * |ip|
    ensures var size := Pow2(8 * |ip| - ones);
            && Value(Network(ip, ones)) == v * size <= Value(ip) < v * size + size
            && Value(Broadcast(ip, ones)) == v * size + size - 1
  {
    BytesToBits(ip, ones);
    v := BitsBlockValue(Bits(ip), ones, 8 * |ip| - ones);
  }

  lemma BitsBlockValue(s: seq<bool>, ones: nat, h: nat) returns (v: nat)
    requires |s| == ones + h
    ensures Number(KeepFirst(s, ones, false)) == v * Pow2(h) <= Number(s) < v * Pow2(h) + Pow2(h)
    ensures Number(KeepFirst(s, ones, true)) == v * Pow2(h) + Pow2(h) - 1
  {
    v := Number(s[..ones]);
    BitsBlock(s, ones);
    ShiftedValue(v, h);
  }

  // For every IPv4 address and prefix length: the broadcast address is the network
  // address + 2^(32-len) - 1, and acceptance is being strictly between the two, or /32.
  lemma DottedQuadAccepted(ip: seq<Octet>, ones: nat)
    requires |ip| == 4 && ones <= 32
    ensures var size := Pow2(32 - ones);
            var network := Value(Network(ip, ones));
            && network == Value(ip) - Value(ip) % size
            && Value(Broadcast(ip, ones)) == network + size - 1
            && (Judge(Parsed(ip, ones)) == Accepted <==> ones == 32 || network < Value(ip) < network + size - 1)
  {
    BlockBounds(ip, ones);
  }
}
