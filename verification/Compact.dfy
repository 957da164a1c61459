/**
  Difficulty targets in compact form (CBigNum::SetCompact and GetCompact in src/bignum.h)
  and the trust a block earns from its target (CBlockIndex::GetBlockTrust in src/chain.cpp).
*/
module Compact {
  import opened Primitives
  import opened Numerals

  /** The bytes of a positive number, with room for the sign bit. */
  function Magnitude(x: nat): (r: seq<byte>)
    ensures r != [] && r[0] < 128
  {
    if x < 128 then [x as byte] else Magnitude(x / 256) + [(x % 256) as byte]
  }

  /** BN_bn2mpi without its four length bytes: sign and magnitude, big endian, as short as possible. */
  function Mpi(n: int): (r: seq<byte>) {
    if n == 0 then []
    else if n > 0 then Magnitude(n)
    else
      var v := Magnitude(-n);
      v[0 := v[0] + 128]
  }

  /** BN_mpi2bn. */
  function Unmpi(v: seq<byte>): (r: int) {
    if v != [] && v[0] >= 128 then 0 - Value(256, v[0 := v[0] - 128]) as int else Value(256, v)
  }

  function ByteAt(v: seq<byte>, i: nat): (r: int) {
    if i < |v| then v[i] as int else 0
  }

  /** CBigNum::GetCompact: the length in the top byte, the three leading bytes below it. */
  function GetCompact(n: int): (r: nat) {
    var v := Mpi(n);
    (|v| % 256) * 0x100_0000 + ByteAt(v, 0) * 0x1_0000 + ByteAt(v, 1) * 0x100 + ByteAt(v, 2)
  }

  /** The buffer SetCompact fills in. */
  function Expand(c: nat): (r: seq<byte>)
    ensures |r| == (c / 0x100_0000) % 256
  {
    seq((c / 0x100_0000) % 256, i =>
      if i == 0 then ((c / 0x1_0000) % 256) as byte
      else if i == 1 then ((c / 0x100) % 256) as byte
      else if i == 2 then (c % 256) as byte
      else 0)
  }

  function SetCompact(c: nat): (r: int) { Unmpi(Expand(c)) }

  // --------------------------------------------------------------- truncation

  /** As short as a positive number's bytes can be. */
  predicate Canonical(v: seq<byte>) {
    v != [] && v[0] < 128 && (v[0] > 0 || (|v| > 1 && v[1] >= 128))
  }

  lemma {:induction false} MagnitudeCanonical(x: nat)
    requires x > 0
    ensures Canonical(Magnitude(x)) && Value(256, Magnitude(x)) == x
  {
    if x >= 256 {
      MagnitudeCanonical(x / 256);
      assert Magnitude(x)[..|Magnitude(x)| - 1] == Magnitude(x / 256);
    } else if x >= 128 {
      assert Magnitude(x) == [0, x as byte];
      assert Magnitude(x)[..1] == [0];
      assert Value(256, [0]) == 0;
    } else {
      assert Magnitude(x)[..0] == [];
    }
  }

  lemma {:induction false} CanonicalValue(v: seq<byte>)
    requires Canonical(v)
    ensures Value(256, v) > 0 && Magnitude(Value(256, v)) == v
  {
    var front := v[..|v| - 1];
    if |v| == 1 {
      assert front == [];
    } else if |v| == 2 && v[0] == 0 {
      assert front == [0] && front[..0] == [];
      assert Value(256, front) == 0;
    } else {
      CanonicalValue(front);
    }
  }

  /** All bytes after the third set to zero. */
  function Cut(v: seq<byte>): (r: seq<byte>)
    ensures |r| == |v|
  {
    seq(|v|, i requires 0 <= i < |v| => if i < 3 then v[i] else 0)
  }

  lemma {:induction false} CutBelow(v: seq<byte>)
    ensures Value(256, Cut(v)) <= Value(256, v)
  {
    if v != [] {
      CutBelow(v[..|v| - 1]);
      assert Cut(v)[..|v| - 1] == Cut(v[..|v| - 1]);
    }
  }

  lemma Digits(s: nat, a: nat, b: nat, d: nat)
    requires s < 256 && a < 256 && b < 256 && d < 256
    ensures var c := s * 0x100_0000 + a * 0x1_0000 + b * 0x100 + d;
      (c / 0x100_0000) % 256 == s && (c / 0x1_0000) % 256 == a && (c / 0x100) % 256 == b && c % 256 == d
  {
    var c := s * 0x100_0000 + a * 0x1_0000 + b * 0x100 + d;
    assert c / 0x100 == s * 0x1_0000 + a * 0x100 + b;
    assert c / 0x1_0000 == s * 0x100 + a;
    assert c / 0x100_0000 == s;
  }

  lemma ExpandCuts(x: nat)
    requires x > 0 && |Mpi(x)| < 256
    ensures Expand(GetCompact(x)) == Cut(Mpi(x))
  {
    var v := Mpi(x);
    Digits(|v|, ByteAt(v, 0), ByteAt(v, 1), ByteAt(v, 2));
  }

  /** Encoding truncates a positive number to a positive one not above it, and loses nothing the second time. */
  lemma CompactTruncates(x: nat)
    requires x > 0 && |Mpi(x)| < 256
    ensures 0 < SetCompact(GetCompact(x)) <= x
    ensures GetCompact(SetCompact(GetCompact(x))) == GetCompact(x)
  {
    MagnitudeCanonical(x);
    ExpandCuts(x);
    CutBelow(Mpi(x));
    CanonicalValue(Cut(Mpi(x)));
  }

  /** Three leading bytes are all there is: such numbers come back exactly. */
  lemma CompactExact(x: nat)
    requires x > 0 && |Mpi(x)| < 256
    ensures SetCompact(GetCompact(x)) == x <==> forall i :: 3 <= i < |Mpi(x)| ==> Mpi(x)[i] == 0
  {
    MagnitudeCanonical(x);
    ExpandCuts(x);
    var v := Mpi(x);
    CanonicalValue(v);
    CanonicalValue(Cut(v));
    assert Cut(v) == v <==> forall i :: 3 <= i < |v| ==> v[i] == 0;
  }

  // ------------------------------------------------------------------- limits

  lemma {:induction false} SizeBound(x: nat, k: nat)
    requires x < 128 * Pow(256, k)
    ensures |Magnitude(x)| <= k + 1
  {
    if x >= 128 {
      assert k > 0 by {
        assert Pow(256, 0) == 1;
      }
      SizeBound(x / 256, k - 1);
    }
  }

  /** Both proof-of-work and proof-of-stake targets are at most this. */
  const TARGET_LIMIT: nat := 0xFFF_FFFFFFFF_FFFFFFFF_FFFFFFFF_FFFFFFFF_FFFFFFFF_FFFFFFFF_FFFFFFFF

  const TWO_256: nat := 0x1_00000000_00000000_00000000_00000000_00000000_00000000_00000000_00000000

  lemma LimitFits(x: nat)
    requires 0 < x <= TARGET_LIMIT
    ensures |Mpi(x)| < 256
  {
    assert Pow(256, 4) == 0x1_00000000;
    assert Pow(256, 8) == 0x1_00000000_00000000;
    assert Pow(256, 12) == 0x1_00000000_00000000_00000000;
    assert Pow(256, 16) == 0x1_00000000_00000000_00000000_00000000;
    assert Pow(256, 20) == 0x1_00000000_00000000_00000000_00000000_00000000;
    assert Pow(256, 24) == 0x1_00000000_00000000_00000000_00000000_00000000_00000000;
    assert Pow(256, 28) == 0x1_00000000_00000000_00000000_00000000_00000000_00000000_00000000;
    assert Pow(256, 32) == TWO_256;
    SizeBound(x, 32);
  }

  /** CBlockIndex::GetBlockTrust. */
  function BlockTrust(nBits: nat): (r: nat)
    ensures 0 < SetCompact(nBits) < TWO_256 <==> r > 0
  {
    var target := SetCompact(nBits);
    if target <= 0 then 0
    else
      DivPositive(target);
      TWO_256 / (target + 1)
  }

  lemma DivPositive(target: nat)
    ensures target < TWO_256 <==> TWO_256 / (target + 1) > 0
  {
    var q := TWO_256 / (target + 1);
    assert TWO_256 == q * (target + 1) + TWO_256 % (target + 1);
  }

  /** Trust is 2^256 divided by one more than the target, rounded down. */
  lemma TrustIs(nBits: nat)
    requires SetCompact(nBits) > 0
    ensures BlockTrust(nBits) * (SetCompact(nBits) + 1) <= TWO_256 < (BlockTrust(nBits) + 1) * (SetCompact(nBits) + 1)
  {
    hide SetCompact;
    Quotient(TWO_256, SetCompact(nBits) + 1);
  }

  /** A harder target never earns less trust, and one less than half as large earns more. */
  lemma HarderEarnsMore(a: nat, b: nat)
    requires 0 < SetCompact(a) <= SetCompact(b)
    ensures BlockTrust(b) <= BlockTrust(a)
    ensures 2 * (SetCompact(a) + 1) <= SetCompact(b) + 1 <= TWO_256 ==> BlockTrust(b) < BlockTrust(a)
  {
    hide SetCompact;
    TrustIs(a);
    TrustIs(b);
    Compare(BlockTrust(a), SetCompact(a) + 1, BlockTrust(b), SetCompact(b) + 1, TWO_256);
  }

  // ------------------------------------------------------------ the plain form

  /** What a compact number without sign bit stands for: three bytes of mantissa, shifted by the size in bytes. */
  lemma CompactMeans(c: nat)
    requires c / 0x1_0000 % 256 < 128
    ensures var size, mantissa := c / 0x100_0000 % 256, c % 0x100_0000;
      SetCompact(c) == if size >= 3 then mantissa * Pow(256, size - 3) else mantissa / Pow(256, 3 - size)
  {
    var size, v := c / 0x100_0000 % 256, Expand(c);
    Mantissa(c);
    assert Pow(256, 1) == 256 && Pow(256, 2) == 0x1_0000 && Pow(256, 3) == 0x100_0000;
    if size >= 3 {
      ShiftedValue(v, size);
    } else {
      FrontValue(v, size);
    }
  }

  lemma Mantissa(c: nat)
    ensures c % 0x100_0000 == c / 0x1_0000 % 256 * 0x1_0000 + c / 0x100 % 256 * 0x100 + c % 256
  {
    assert c == c / 0x100 * 0x100 + c % 0x100;
    assert c / 0x100 == c / 0x1_0000 * 0x100 + c / 0x100 % 0x100;
    assert c / 0x1_0000 == c / 0x100_0000 * 0x100 + c / 0x1_0000 % 0x100;
  }

  lemma FrontValue(v: seq<byte>, n: nat)
    requires n == |v| <= 3
    ensures Value(256, v) == (if n > 0 then v[0] as int else 0) * (if n == 3 then 0x1_0000 else if n == 2 then 0x100 else 1)
      + (if n > 1 then v[1] as int else 0) * (if n == 3 then 0x100 else 1) + (if n > 2 then v[2] as int else 0)
  {
    if n > 0 {
      FrontValue(v[..n - 1], n - 1);
    }
  }

  lemma {:induction false} ShiftedValue(v: seq<byte>, n: nat)
    requires 3 <= n == |v| && forall i :: 3 <= i < n ==> v[i] == 0
    ensures Value(256, v) == (v[0] as int * 0x1_0000 + v[1] as int * 0x100 + v[2] as int) * Pow(256, n - 3)
  {
    if n == 3 {
      FrontValue(v, 3);
    } else {
      ShiftedValue(v[..n - 1], n - 1);
      var m := v[0] as int * 0x1_0000 + v[1] as int * 0x100 + v[2] as int;
      assert m * Pow(256, n - 4) * 256 == m * (256 * Pow(256, n - 4)) by {
        Shuffle(m, Pow(256, n - 4));
      }
    }
  }

  lemma Shuffle(m: int, p: int)
    ensures m * p * 256 == m * (256 * p)
  {
  }
}
