/**
  Addresses handed out by the coordinator (`internal/coord/store.go`), written as /30
  by the daemon (`internal/daemon/peer.go`) and judged by `internal/tunnel/validate.go`.
 */
module AddressPlan {
  import Cidr
  import opened AddressPool
  import opened PeerRegistry

  // --- An address as its four octets ---

  function Binary(n: nat, count: nat): (s: seq<bool>)
    ensures |s| == count
  {
    if count == 0 then [] else Binary(n / 2, count - 1) + [n % 2 == 1]
  }

  lemma {:induction false} BinaryNumber(n: nat, count: nat)
    requires n < Cidr.Pow2(count)
    ensures Cidr.Number(Binary(n, count)) == n
  {
    if count == 0 {
    } else {
      BinaryNumber(n / 2, count - 1);
      assert Binary(n, count)[..count - 1] == Binary(n / 2, count - 1);
    }
  }

  function Quad(a: Address): (ip: seq<Cidr.Octet>)
    ensures |ip| == 4
  {
    var b := Binary(a, 32);
    [b[..8], b[8..16], b[16..24], b[24..]]
  }

  lemma QuadValue(a: Address)
    requires a < ADDRESSES
    ensures Cidr.Value(Quad(a)) == a
  {
    Pow32();
    BinaryNumber(a, 32);
    QuadBits(Binary(a, 32));
  }

  lemma QuadBits(b: seq<bool>)
    requires |b| == 32
    ensures Cidr.Bits([b[..8], b[8..16], b[16..24], b[24..]]) == b
  {
    var ip: seq<Cidr.Octet> := [b[..8], b[8..16], b[16..24], b[24..]];
    forall p | 0 <= p < 32 ensures Cidr.Bits(ip)[p] == b[p] {
      assert ip[p / 8][p % 8] == b[p / 8 * 8 + p % 8];
    }
  }

  // --- As /30 ---

  lemma SlashThirty(ip: seq<Cidr.Octet>)
    requires |ip| == 4
    ensures Cidr.Judge(Cidr.Parsed(ip, 30)) == Cidr.Accepted <==> Cidr.Value(ip) % 4 == 1 || Cidr.Value(ip) % 4 == 2
  {
    assert Cidr.Pow2(2) == 4;
  }

  // A pool whose address has no host bits and that is no longer than /30 starts at a multiple of four.
  lemma MaskedPoolAligned(pool: Pool)
    requires pool.Valid() && pool.bits <= 30 && pool.address % pool.Size() == 0
    ensures pool.address % 4 == 0
  {
    var h := 30 - pool.bits;
    assert Cidr.Pow2(2) == 4;
    PowAdd(h, 2);
    MultipleOfFour(pool.address / pool.Size(), Cidr.Pow2(h), pool.address);
  }

  lemma MultipleOfFour(q: nat, p: nat, a: nat)
    requires a == q * (p * 4)
    ensures a % 4 == 0
  {
    assert a == (q * p) * 4;
  }

  lemma InsideBlock(base: nat, n: nat)
    requires base % 4 == 0
    ensures (base + n) % 4 == n % 4
  {}

  // The address of the n-th distinct key (n = i + 1), written as /30, is accepted exactly when it lies
  // inside its block of four; for a masked pool that is when n mod 4 is 1 or 2, so the daemon's
  // assignment is refused for every other peer.
  lemma NthPeerAssignable(pool: Pool, ops: seq<Op>, i: nat)
    requires pool.Valid() && i < |FirstSeen(ops)| && FirstSeen(ops)[i] in Exec(Empty(pool), ops).entries
    ensures var a := Exec(Empty(pool), ops).AddressOf(FirstSeen(ops)[i]);
            var accepted := Cidr.Judge(Cidr.Parsed(Quad(a), 30)) == Cidr.Accepted;
            && Cidr.Value(Quad(a)) == a
            && (accepted <==> (pool.address + i + 1) % 4 == 1 || (pool.address + i + 1) % 4 == 2)
            && (pool.bits <= 30 && pool.address % pool.Size() == 0 ==>
                  (accepted <==> (i + 1) % 4 == 1 || (i + 1) % 4 == 2))
  {
    var a := Exec(Empty(pool), ops).AddressOf(FirstSeen(ops)[i]);
    assert a == pool.address + i + 1 < pool.Last() by { AddressOfKey(pool, ops, i); }
    LastInRange(pool);
    QuadValue(a);
    SlashThirty(Quad(a));
    if pool.bits <= 30 && pool.address % pool.Size() == 0 {
      MaskedPoolAligned(pool);
      InsideBlock(pool.address, i + 1);
    }
  }
}
