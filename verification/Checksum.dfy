/**
  The Internet checksum of `internal/health/probe.go`, with the 32-bit
  accumulator written out, against the one's-complement sum with end-around
  carry of RFC 1071.
 */
module Checksum {
  import opened Basics

  type Word = x: int | 0 <= x < 0x1_0000

  const UINT32: int := 0x1_0000_0000

  // 65537 words of 0xffff add up to exactly 2^32 - 1.
  const MAX_SAFE_LENGTH: nat := 131074

  // --- The message as big-endian 16-bit words, an odd last byte padded with zero ---

  function NumWords(b: seq<Byte>): nat { (|b| + 1) / 2 }

  function WordAt(b: seq<Byte>, k: nat): Word
    requires k < NumWords(b)
  {
    (b[2 * k] as int) * 0x100 + if 2 * k + 1 < |b| then b[2 * k + 1] else 0
  }

  // The exact (unbounded) sum of the first n words.
  function RawSum(b: seq<Byte>, n: nat): nat
    requires n <= NumWords(b)
  {
    if n == 0 then 0 else RawSum(b, n - 1) + WordAt(b, n - 1)
  }

  function Total(b: seq<Byte>): nat { RawSum(b, NumWords(b)) }

  // --- RFC 1071, sections 1 and 2: carries are added back at every step ---

  function OnesAdd(x: Word, y: Word): Word {
    if x + y < 0x1_0000 then x + y else x + y - 0x1_0000 + 1
  }

  function OnesSum(b: seq<Byte>, n: nat): Word
    requires n <= NumWords(b)
  {
    if n == 0 then 0 else OnesAdd(OnesSum(b, n - 1), WordAt(b, n - 1))
  }

  function Rfc1071(b: seq<Byte>): Word { 0xffff - OnesSum(b, NumWords(b)) }

  // --- The code: deferred carries in a uint32, folded at the end ---

  function FoldOnce(s: nat): nat { s % 0x1_0000 + s / 0x1_0000 }

  function Fold(s: nat): nat {
    if s < 0x1_0000 then s else Fold(FoldOnce(s))
  }

  // Number of iterations of the fold loop.
  function FoldRounds(s: nat): nat {
    if s < 0x1_0000 then 0 else 1 + FoldRounds(FoldOnce(s))
  }

  // What the code computes on any buffer, wrap-around of the accumulator included.
  function Deferred(b: seq<Byte>): int { 0xffff - Fold(Total(b) % UINT32) }

  method IcmpChecksum(b: seq<Byte>) returns (c: Word)
    ensures c == Deferred(b)
    ensures |b| <= MAX_SAFE_LENGTH ==> c == Rfc1071(b)
  {
    var sum := SumWords(b);
    sum := FoldCarries(sum);
    c := 0xffff - sum;
    if |b| <= MAX_SAFE_LENGTH { SafeLength(b); }
  }

  // The first loop and the odd byte, in a 32-bit accumulator.
  method SumWords(b: seq<Byte>) returns (sum: nat)
    ensures sum == Total(b) % UINT32
  {
    sum := 0;
    var k := 0;
    while 2 * k + 1 < |b|
      invariant 2 * k <= |b| && sum == RawSum(b, k) % UINT32
    {
      WrapAdd(RawSum(b, k), WordAt(b, k));
      sum := (sum + (b[2 * k] as int) * 0x100 + b[2 * k + 1]) % UINT32;
      k := k + 1;
    }
    if |b| % 2 != 0 {
      WrapAdd(RawSum(b, k), WordAt(b, k));
      sum := (sum + (b[|b| - 1] as int) * 0x100) % UINT32;
    }
  }

  // The second loop.
  method FoldCarries(s: nat) returns (sum: nat)
    ensures sum == Fold(s) < 0x1_0000
  {
    sum := s;
    while sum / 0x1_0000 != 0
      invariant Fold(sum) == Fold(s)
      decreases sum
    {
      sum := sum % 0x1_0000 + sum / 0x1_0000;
    }
  }

  lemma WrapAdd(s: nat, w: nat)
    ensures (s + w) % UINT32 == (s % UINT32 + w) % UINT32
  {
    assert s == s / UINT32 * UINT32 + s % UINT32;
    var q := s / UINT32;
    assert (s % UINT32 + w) % UINT32 == (s % UINT32 + w + q * UINT32) % UINT32 by { ModShift(s % UINT32 + w, q); }
  }

  lemma {:induction false} ModShift(x: nat, q: nat)
    ensures (x + q * UINT32) % UINT32 == x % UINT32
    decreases q
  {
    if q == 0 {
    } else {
      ModShift(x, q - 1);
    }
  }

  // --- Both sums are the exact sum modulo 65535, and zero only for a zero sum ---

  lemma {:induction false} FoldValue(s: nat)
    ensures Fold(s) < 0x1_0000
    ensures Fold(s) % 0xffff == s % 0xffff
    ensures Fold(s) == 0 <==> s == 0
    decreases s
  {
    if s >= 0x1_0000 {
      assert s == FoldOnce(s) + 0xffff * (s / 0x1_0000);
      FoldValue(FoldOnce(s));
    }
  }

  lemma FoldAtMostTwice(s: nat)
    requires s < UINT32
    ensures FoldRounds(s) <= 2
    ensures Fold(s) % 0xffff == s % 0xffff
    ensures Fold(s) == 0 <==> s == 0
  {
    FoldValue(s);
    if s >= 0x1_0000 {
      var t := FoldOnce(s);
      assert t <= 0x1_fffe;
      assert FoldOnce(t) < 0x1_0000;
      assert FoldRounds(t) <= 1;
    }
  }

  // Congruence modulo 65535 is kept by addition.
  lemma CongruentAdd(x: int, y: int, w: int)
    requires x % 0xffff == y % 0xffff
    ensures (x + w) % 0xffff == (y + w) % 0xffff
  {
    assert x == x / 0xffff * 0xffff + x % 0xffff;
    assert y == y / 0xffff * 0xffff + y % 0xffff;
    assert x + w == y + w + (x / 0xffff - y / 0xffff) * 0xffff;
  }

  lemma {:induction false} OnesSumValue(b: seq<Byte>, n: nat)
    requires n <= NumWords(b)
    ensures OnesSum(b, n) % 0xffff == RawSum(b, n) % 0xffff
    ensures OnesSum(b, n) == 0 <==> RawSum(b, n) == 0
  {
    if n == 0 {
    } else {
      OnesSumValue(b, n - 1);
      CongruentAdd(OnesSum(b, n - 1), RawSum(b, n - 1), WordAt(b, n - 1));
      OnesAddValue(OnesSum(b, n - 1), WordAt(b, n - 1));
    }
  }

  // End-around carry is addition modulo 65535.
  lemma OnesAddValue(x: Word, y: Word)
    ensures OnesAdd(x, y) % 0xffff == ((x as int) + y) % 0xffff
    ensures OnesAdd(x, y) == 0 <==> x == 0 && y == 0
  {}

  // Exactly when the deferred computation is the RFC's: the number of times the
  // 32-bit accumulator wrapped is a multiple of 65535 and no non-zero sum wrapped to zero.
  predicate WrapsHarmlessly(total: nat) {
    (total / UINT32) % 0xffff == 0 && (total % UINT32 == 0 ==> total == 0)
  }

  lemma WrapArithmetic(t: nat, f: Word, o: Word)
    requires f % 0xffff == (t % UINT32) % 0xffff && (f == 0 <==> t % UINT32 == 0)
    requires o % 0xffff == t % 0xffff && (o == 0 <==> t == 0)
    ensures f == o <==> WrapsHarmlessly(t)
  {
    var r, w := t % UINT32, t / UINT32;
    WrapsSubtract(t);
    CongruentAdd(f, r, w);
    SameResidue(f, w, o);
  }

  // 2^32 = 65537 * 65535 + 1, so every wrap of the accumulator subtracts one modulo 65535.
  lemma WrapsSubtract(t: nat)
    ensures t % 0xffff == (t % UINT32 + t / UINT32) % 0xffff
  {
    assert t == t % UINT32 + t / UINT32 + 0xffff * (0x1_0001 * (t / UINT32));
  }

  lemma SameResidue(f: Word, w: nat, o: Word)
    requires o % 0xffff == (f + w) % 0xffff
    ensures f % 0xffff == o % 0xffff <==> w % 0xffff == 0
  {
    if f % 0xffff == o % 0xffff {
      CongruentAdd((f as int) + w, f, 0 - (f as int));
    } else if w % 0xffff == 0 {
      CongruentAdd(w, 0, f);
    }
  }

  lemma CorrectIff(b: seq<Byte>)
    ensures Deferred(b) == Rfc1071(b) <==> WrapsHarmlessly(Total(b))
  {
    FoldValue(Total(b) % UINT32);
    OnesSumValue(b, NumWords(b));
    WrapArithmetic(Total(b), Fold(Total(b) % UINT32), OnesSum(b, NumWords(b)));
  }

  lemma {:induction false} RawSumBound(b: seq<Byte>, n: nat)
    requires n <= NumWords(b)
    ensures RawSum(b, n) <= n * 0xffff
  {
    if n == 0 {
    } else {
      RawSumBound(b, n - 1);
    }
  }

  lemma SafeLength(b: seq<Byte>)
    requires |b| <= MAX_SAFE_LENGTH
    ensures Total(b) < UINT32 && Deferred(b) == Rfc1071(b)
  {
    RawSumBound(b, NumWords(b));
    CorrectIff(b);
  }

  // The bound is sharp: a length is safe for every content if and only if it is at most 131074.
  lemma SafeLengthIsSharp(n: nat)
    ensures n <= MAX_SAFE_LENGTH <==> forall b: seq<Byte> | |b| == n :: Deferred(b) == Rfc1071(b)
  {
    if n <= MAX_SAFE_LENGTH {
      forall b: seq<Byte> | |b| == n ensures Deferred(b) == Rfc1071(b) { SafeLength(b); }
    } else {
      var b := Overflowing(n);
      OverflowingTotal(b, NumWords(b));
      CorrectIff(b);
      assert |b| == n && Deferred(b) != Rfc1071(b);
    }
  }

  function Overflowing(n: nat): (b: seq<Byte>)
    ensures |b| == n
  {
    seq(n, i => if i <= MAX_SAFE_LENGTH then 0xff else 0)
  }

  lemma {:induction false} OverflowingTotal(b: seq<Byte>, n: nat)
    requires b == Overflowing(|b|) && |b| > MAX_SAFE_LENGTH && n <= NumWords(b)
    ensures RawSum(b, n) == if n <= 0x1_0001 then n * 0xffff else UINT32 - 1 + 0xff00
  {
    if n == 0 {
    } else {
      OverflowingTotal(b, n - 1);
    }
  }

  // --- Storing the checksum makes the message verify ---

  function Store(b: seq<Byte>, c: Word): seq<Byte>
    requires |b| >= 4
  {
    b[2 := c / 0x100][3 := c % 0x100]
  }

  lemma {:induction false} StoreSum(b: seq<Byte>, c: Word, n: nat)
    requires |b| >= 4 && b[2] == 0 && b[3] == 0 && n <= NumWords(b)
    ensures RawSum(Store(b, c), n) == RawSum(b, n) + if n >= 2 then c else 0
  {
    if n == 0 {
    } else {
      StoreSum(b, c, n - 1);
      var s := Store(b, c);
      if n - 1 == 1 {
        assert WordAt(s, 1) == c && WordAt(b, 1) == 0;
      } else {
        assert WordAt(s, n - 1) == WordAt(b, n - 1);
      }
    }
  }

  lemma SelfVerifies(b: seq<Byte>)
    requires 4 <= |b| <= MAX_SAFE_LENGTH && b[2] == 0 && b[3] == 0
    ensures Deferred(Store(b, Rfc1071(b))) == 0
  {
    var o := OnesSum(b, NumWords(b));
    var s := Store(b, Rfc1071(b));
    OnesSumValue(b, NumWords(b));
    StoreSum(b, Rfc1071(b), NumWords(b));
    assert Total(s) == Total(b) + (0xffff - o);
    CongruentAdd(Total(b), o, 0xffff - o);
    VerifiesIff(s);
  }

  // A receiver that recomputes the checksum sees zero exactly for messages whose
  // words add up to a non-zero multiple of 65535.
  lemma VerifiesIff(b: seq<Byte>)
    requires |b| <= MAX_SAFE_LENGTH
    ensures Deferred(b) == 0 <==> Total(b) % 0xffff == 0 && Total(b) != 0
  {
    SafeLength(b);
    FoldValue(Total(b));
  }

  // Word k replaced by v; the padding byte after an odd last byte is not part of the message.
  predicate Replaceable(b: seq<Byte>, k: nat, v: Word) {
    k < NumWords(b) && (2 * k + 1 == |b| ==> v % 0x100 == 0)
  }

  function ReplaceWord(b: seq<Byte>, k: nat, v: Word): (r: seq<Byte>)
    requires Replaceable(b, k, v)
    ensures |r| == |b|
  {
    var r := b[2 * k := v / 0x100];
    if 2 * k + 1 < |b| then r[2 * k + 1 := v % 0x100] else r
  }

  lemma ReplacedWords(b: seq<Byte>, k: nat, v: Word, n: nat)
    requires Replaceable(b, k, v) && n < NumWords(b)
    ensures WordAt(ReplaceWord(b, k, v), n) == if n == k then v else WordAt(b, n)
  {}

  lemma {:induction false} ReplaceSum(b: seq<Byte>, k: nat, v: Word, n: nat)
    requires Replaceable(b, k, v) && n <= NumWords(b)
    ensures RawSum(ReplaceWord(b, k, v), n) == RawSum(b, n) + if n > k then v - WordAt(b, k) else 0
  {
    if n == 0 {
    } else {
      ReplaceSum(b, k, v, n - 1);
      ReplacedWords(b, k, v, n - 1);
    }
  }

  // Replacing any word of a message that verifies goes unnoticed only between 0x0000 and 0xffff, the two
  // zeros of one's complement, and not even then if nothing else in the message is non-zero.
  lemma DetectsWordChange(b: seq<Byte>, k: nat, v: Word)
    requires |b| <= MAX_SAFE_LENGTH && Replaceable(b, k, v) && Deferred(b) == 0
    ensures Deferred(ReplaceWord(b, k, v)) == 0 <==>
            || v == WordAt(b, k)
            || (v == 0xffff && WordAt(b, k) == 0)
            || (v == 0 && WordAt(b, k) == 0xffff && Total(b) != 0xffff)
  {
    ReplaceSum(b, k, v, NumWords(b));
    VerifiesIff(b);
    VerifiesIff(ReplaceWord(b, k, v));
    WordInSum(b, k, NumWords(b));
    WordChange(Total(b), Total(ReplaceWord(b, k, v)), WordAt(b, k), v);
  }

  lemma {:induction false} WordInSum(b: seq<Byte>, k: nat, n: nat)
    requires k < n <= NumWords(b)
    ensures RawSum(b, n) >= WordAt(b, k)
  {
    if n == k + 1 {
    } else {
      WordInSum(b, k, n - 1);
    }
  }

  lemma WordChange(t: nat, u: nat, w: Word, v: Word)
    requires t % 0xffff == 0 && t != 0 && t >= w && u == t - w + v
    ensures u % 0xffff == 0 && u != 0 <==>
            v == w || (v == 0xffff && w == 0) || (v == 0 && w == 0xffff && t != 0xffff)
  {
    CongruentAdd(t, 0, (v as int) - w);
  }

  // --- The echo request of RFC 792 ---

  const ECHO_SIZE: nat := 20
  const ECHO_REQUEST: Byte := 8
  const ECHO_SEQUENCE: Word := 1

  // "gretun-probe"
  const PROBE_DATA: seq<Byte> := [0x67, 0x72, 0x65, 0x74, 0x75, 0x6e, 0x2d, 0x70, 0x72, 0x6f, 0x62, 0x65]

  function EchoBeforeChecksum(id: Word): (b: seq<Byte>)
    ensures |b| == ECHO_SIZE
  {
    [ECHO_REQUEST, 0, 0, 0, id / 0x100, id % 0x100, ECHO_SEQUENCE / 0x100, ECHO_SEQUENCE % 0x100] + PROBE_DATA
  }

  method CopyInto(dst: array<Byte>, at: nat, data: seq<Byte>)
    requires at + |data| <= dst.Length
    modifies dst
    ensures dst[..at] == old(dst[..at]) && dst[at + |data|..] == old(dst[at + |data|..])
    ensures dst[at..at + |data|] == data
  {
    for i := 0 to |data|
      invariant dst[..at] == old(dst[..at]) && dst[at + |data|..] == old(dst[at + |data|..])
      invariant dst[at..at + i] == data[..i]
    {
      dst[at + i] := data[i];
    }
  }

  method BuildEchoRequest(dst: array<Byte>, pid: nat)
    requires dst.Length >= ECHO_SIZE
    modifies dst
    ensures dst[ECHO_SIZE..] == old(dst[ECHO_SIZE..])
    ensures dst[..ECHO_SIZE] == EchoRequest(pid % 0x1_0000)
    ensures Deferred(dst[..ECHO_SIZE]) == 0
  {
    dst[0] := ECHO_REQUEST;
    dst[1] := 0;
    dst[2] := 0;
    dst[3] := 0;
    var id := pid % 0x1_0000;
    dst[4], dst[5] := id / 0x100, id % 0x100;
    dst[6], dst[7] := ECHO_SEQUENCE / 0x100, ECHO_SEQUENCE % 0x100;
    assert dst[..8] == EchoBeforeChecksum(id)[..8];
    CopyInto(dst, 8, PROBE_DATA);
    assert dst[..ECHO_SIZE] == dst[..8] + dst[8..ECHO_SIZE];
    assert dst[..ECHO_SIZE] == EchoBeforeChecksum(id);
    var c := IcmpChecksum(dst[..ECHO_SIZE]);
    dst[2], dst[3] := c / 0x100, c % 0x100;
    EchoVerifies(id);
  }

  function EchoRequest(id: Word): seq<Byte> {
    Store(EchoBeforeChecksum(id), Rfc1071(EchoBeforeChecksum(id)))
  }

  // The message is an echo request as RFC 792 lays it out: type 8, code 0, checksum, identifier and sequence
  // number 1, each in network order, then the 12 bytes of "gretun-probe".
  lemma EchoLayout(id: Word)
    ensures var b := EchoRequest(id);
            && |b| == 20 && b[0] == 8 && b[1] == 0
            && b[4] as int * 256 + b[5] as int == id as int
            && b[6] == 0 && b[7] == 1
            && b[8..] == [103, 114, 101, 116, 117, 110, 45, 112, 114, 111, 98, 101]
  {}

  lemma EchoVerifies(id: Word)
    ensures Deferred(EchoRequest(id)) == 0
  {
    SafeLength(EchoBeforeChecksum(id));
    SelfVerifies(EchoBeforeChecksum(id));
  }
}
