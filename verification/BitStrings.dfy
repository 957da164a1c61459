/**
  Numbers as sequences of bits, lowest bit first.
*/
module BitStrings {
  function Pow2(n: nat): (r: nat)
    ensures r > 0
  {
    if n == 0 then 1 else 2 * Pow2(n - 1)
  }

  /** Flags as a number, lowest bit first. */
  function FromBits(f: seq<bool>): (r: nat)
    ensures r < Pow2(|f|)
    ensures r == 0 <==> forall i :: 0 <= i < |f| ==> !f[i]
  {
    if f == [] then 0
    else
      assert f[0] || forall i :: 0 <= i < |f| - 1 ==> f[1..][i] == f[i + 1];
      (if f[0] then 1 else 0) + 2 * FromBits(f[1..])
  }

  function ToBits(b: nat, n: nat): (r: seq<bool>)
    ensures |r| == n
  {
    if n == 0 then [] else [b % 2 == 1] + ToBits(b / 2, n - 1)
  }

  lemma {:induction false} BitsRoundTrip(f: seq<bool>)
    ensures ToBits(FromBits(f), |f|) == f
  {
    if f != [] {
      BitsRoundTrip(f[1..]);
      assert f == [f[0]] + f[1..];
    }
  }

  /** Setting one more bit. */
  lemma {:induction false} BitsSnoc(f: seq<bool>, x: bool)
    ensures FromBits(f + [x]) == FromBits(f) + if x then Pow2(|f|) else 0
  {
    if f == [] {
      assert f + [x] == [x] && [x][1..] == [];
    } else {
      BitsSnoc(f[1..], x);
      assert (f + [x])[1..] == f[1..] + [x];
    }
  }
}
