/**
  Numbers and their digits in a given base.
*/
module Numerals {
  import opened Primitives

  function Pow(b: nat, e: nat): (r: nat)
    ensures b > 0 ==> r > 0
  {
    if e == 0 then 1 else b * Pow(b, e - 1)
  }

  /** The number written in big-endian digits. */
  function Value(base: nat, s: seq<byte>): (r: nat) {
    if s == [] then 0 else Value(base, s[..|s| - 1]) * base + s[|s| - 1] as int
  }

  // ----------------------------------------------------------------- division

  lemma Quotient(n: nat, d: nat)
    requires d > 0
    ensures n / d * d <= n < (n / d + 1) * d
  {
    assert n == n / d * d + n % d;
  }

  /** Quotients of n by a and by the larger b. */
  lemma Compare(p: nat, a: nat, q: nat, b: nat, n: nat)
    requires 0 < a <= b && p * a <= n < (p + 1) * a && q * b <= n < (q + 1) * b
    ensures q <= p && (2 * a <= b <= n ==> q < p)
  {
    if p < q {
      Scale(p + 1, q, a);
      Scale(a, b, q);
    }
    if 2 * a <= b <= n {
      Scale(2 * a, b, q);
      assert q * (2 * a) == 2 * q * a;
      if p + 1 <= 2 * q {
        Scale(p + 1, 2 * q, a);
      }
    }
  }

  lemma Scale(x: nat, y: nat, k: nat)
    requires x <= y
    ensures x * k <= y * k && k * x <= k * y
  {
    assert y * k == x * k + (y - x) * k;
  }

  lemma DivExact(t: nat, d: nat)
    requires d > 0
    ensures t * d / d == t
  {
    var q := t * d / d;
    assert t * d == q * d + t * d % d;
    if q < t {
      Scale(q + 1, t, d);
    }
  }

  lemma DivGrows(m: nat, n: nat, d: nat)
    requires m <= n && d > 0
    ensures m / d <= n / d
  {
    assert m == m / d * d + m % d && n == n / d * d + n % d;
    if n / d < m / d {
      Scale(n / d + 1, m / d, d);
    }
  }
}
