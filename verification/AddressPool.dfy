/**
  The IPv4 prefix from which `internal/coord/store.go` draws tunnel addresses.
 */
module AddressPool {
  import Cidr

  // An IPv4 address as a number; the number after the last one stands for netip's invalid address.
  type Address = nat

  const ADDRESSES: nat := 0x1_0000_0000

  // netip.ParsePrefix keeps the host bits of the address it is given.
  datatype Pool = Pool(address: Address, bits: nat) {
    predicate Valid() { address < ADDRESSES && bits <= 32 }

    function Size(): (s: nat)
      requires Valid()
      ensures s > 0
    {
      Cidr.Pow2(32 - bits)
    }

    // Prefix.Contains: the first `bits` bits agree.
    predicate Contains(a: Address)
      requires Valid()
    {
      a < ADDRESSES && a / Size() == address / Size()
    }

    // The last address of the block.
    function Last(): nat
      requires Valid()
    {
      address / Size() * Size() + Size() - 1
    }

    // How many peers can get an address: those strictly between the pool's address and the last.
    function Capacity(): nat
      requires Valid()
    {
      if address < Last() then Last() - address - 1 else 0
    }
  }

  // A pool written as /24 holds the addresses that differ in the last octet only, and serves as many peers as
  // there are octets between that of its own address and 255.
  lemma SlashTwentyFour(p: Pool, a: Address)
    requires p.Valid() && p.bits == 24
    ensures p.Contains(a) <==> a < 0x1_0000_0000 && a / 256 == p.address / 256
    ensures p.Capacity() == if p.address % 256 < 255 then 254 - p.address % 256 else 0
  {
    assert Cidr.Pow2(4) == 16;
    PowAdd(4, 4);
  }

  lemma ContainsIff(p: Pool, a: Address)
    requires p.Valid() && a >= p.address
    ensures p.Contains(a) <==> a <= p.Last()
  {
    LastInRange(p);
    SameBlock(a, p.address, p.Size());
  }

  lemma LastInRange(p: Pool)
    requires p.Valid()
    ensures p.address <= p.Last() < ADDRESSES
  {
    SizeDivides(p.bits);
    QuotientBelow(p.address, p.Size(), Cidr.Pow2(p.bits));
  }

  lemma SameBlock(a: nat, b: nat, d: nat)
    requires d > 0 && a >= b
    ensures a / d == b / d <==> a < b / d * d + d
  {
    var q := b / d;
    if a < q * d + d { QuotientIs(a, d, q); } else { QuotientAbove(a, d, q); }
  }

  lemma SizeDivides(n: nat)
    requires n <= 32
    ensures Cidr.Pow2(n) * Cidr.Pow2(32 - n) == ADDRESSES
  {
    PowAdd(n, 32 - n);
    Pow32();
  }

  lemma Pow32()
    ensures Cidr.Pow2(32) == ADDRESSES
  {
    assert Cidr.Pow2(4) == 16;
    PowAdd(4, 4);
    PowAdd(8, 8);
    PowAdd(16, 16);
  }

  lemma {:induction false} PowAdd(a: nat, b: nat)
    ensures Cidr.Pow2(a + b) == Cidr.Pow2(a) * Cidr.Pow2(b)
  {
    if b == 0 {
    } else {
      PowAdd(a, b - 1);
    }
  }

  lemma QuotientIs(x: nat, d: nat, q: nat)
    requires d > 0 && q * d <= x < q * d + d
    ensures x / d == q
  {
    var k := x / d;
    if k < q { Cidr.MulStep(k, q, d); }
    if q < k { Cidr.MulStep(q, k, d); }
  }

  lemma QuotientAbove(x: nat, d: nat, q: nat)
    requires d > 0 && x >= q * d + d
    ensures x / d > q
  {
    var k := x / d;
    if k <= q { Cidr.MulStep(k, q + 1, d); }
  }

  lemma QuotientBelow(x: nat, d: nat, n: nat)
    requires d > 0 && x < n * d
    ensures x / d * d + d <= n * d
  {
    var k := x / d;
    if k < n { Cidr.MulStep(k, n, d); } else if n < k { Cidr.MulStep(n, k, d); }
  }
}
