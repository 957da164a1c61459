/**
  Base58 with its fixed-size digit buffers, and the form with a checksum (src/base58.cpp).
*/
module Base58 {
  import opened Primitives
  import opened Numerals

  // ------------------------------------------------------------------ numbers

  /** The two number bases in play. */
  predicate Radix(base: nat) { base == 58 || base == 256 }

  /** The shortest digits of a number; none for zero. */
  function Digits(base: nat, n: nat): (r: seq<byte>)
    requires Radix(base)
    ensures forall i :: 0 <= i < |r| ==> r[i] < base
    ensures r != [] ==> r[0] != 0
  {
    if n == 0 then [] else Digits(base, n / base) + [n % base]
  }

  lemma {:induction false} PowAdd(b: nat, x: nat, y: nat)
    ensures Pow(b, x + y) == Pow(b, x) * Pow(b, y)
  {
    if x > 0 {
      PowAdd(b, x - 1, y);
      Associate(b, Pow(b, x - 1), Pow(b, y));
      assert x + y - 1 == x - 1 + y;
    }
  }

  lemma Associate(a: nat, b: nat, c: nat)
    ensures a * (b * c) == (a * b) * c
  {
  }

  lemma {:induction false} ValueOfDigits(base: nat, n: nat)
    requires Radix(base)
    ensures Value(base, Digits(base, n)) == n
  {
    if n > 0 {
      ValueOfDigits(base, n / base);
      var d := Digits(base, n);
      assert d[..|d| - 1] == Digits(base, n / base);
      assert if base == 58 then n / 58 * 58 + n % 58 == n else n / 256 * 256 + n % 256 == n;
    }
  }

  lemma {:induction false} DigitsOfValue(base: nat, s: seq<byte>)
    requires Radix(base) && (forall i :: 0 <= i < |s| ==> s[i] < base) && (s != [] ==> s[0] != 0)
    ensures Digits(base, Value(base, s)) == s && (s != [] ==> Value(base, s) > 0)
  {
    if s != [] {
      var front, last := s[..|s| - 1], s[|s| - 1];
      DigitsOfValue(base, front);
      QuotRem(Value(base, front), base, last);
      assert s == front + [last];
    }
  }

  lemma QuotRem(q: nat, base: nat, d: nat)
    requires Radix(base) && d < base
    ensures (q * base + d) / base == q && (q * base + d) % base == d
    ensures q > 0 || d > 0 ==> q * base + d > 0
  {
    if base == 58 {
      assert (q * 58 + d) / 58 == q;
    } else {
      assert (q * 256 + d) / 256 == q;
    }
  }

  lemma {:induction false} ValueCons(base: nat, d: byte, s: seq<byte>)
    ensures Value(base, [d] + s) == d as int * Pow(base, |s|) + Value(base, s)
  {
    if s == [] {
      assert [d] + s == [d];
      assert [d][..0] == [];
    } else {
      var front := s[..|s| - 1];
      ValueCons(base, d, front);
      assert ([d] + s)[..|s|] == [d] + front;
      Distribute(d, Pow(base, |front|), Value(base, front), base);
    }
  }

  lemma Distribute(d: nat, p: nat, v: nat, base: nat)
    ensures (d * p + v) * base == d * (base * p) + v * base
  {
    assert (d * p) * base == d * (base * p);
  }

  lemma MulLe(a: nat, b: nat, c: nat)
    requires a <= b
    ensures a * c <= b * c && c * a <= c * b
  {
    assert b * c == a * c + (b - a) * c;
    assert (b - a) * c >= 0;
  }

  lemma {:induction false} ValueBound(base: nat, s: seq<byte>)
    requires Radix(base) && forall i :: 0 <= i < |s| ==> s[i] < base
    ensures Value(base, s) < Pow(base, |s|)
  {
    if s != [] {
      var front := s[..|s| - 1];
      ValueBound(base, front);
      MulLe(Value(base, front) + 1, Pow(base, |front|), base);
    }
  }

  function Zeroes(n: nat): (r: seq<byte>)
    ensures |r| == n
  {
    seq(n, i => 0)
  }

  lemma {:induction false} LeadingZeroes(base: nat, z: nat, s: seq<byte>)
    ensures Value(base, Zeroes(z) + s) == Value(base, s)
    decreases z
  {
    if z == 0 {
      assert Zeroes(z) + s == s;
    } else {
      LeadingZeroes(base, z - 1, s);
      assert Zeroes(z) + s == [0] + (Zeroes(z - 1) + s);
      ValueCons(base, 0, Zeroes(z - 1) + s);
    }
  }

  // ------------------------------------------------------------- buffer sizes

  lemma {:induction false} PowMonotone(b: nat, x: nat, y: nat)
    requires b > 0 && x <= y
    ensures Pow(b, x) <= Pow(b, y)
  {
    if x < y {
      PowMonotone(b, x, y - 1);
      assert Pow(b, y - 1) <= b * Pow(b, y - 1);
    }
  }

  /** A bound for a block of digits and one for the rest give one for all. */
  lemma PowSplit(a: nat, b: nat, x: nat, y: nat, k: nat, l: nat, n: nat)
    requires a > 0 && b > 0 && Pow(a, x) <= Pow(b, k) && Pow(a, y) <= Pow(b, l) && k + l <= n
    ensures Pow(a, x + y) <= Pow(b, n)
  {
    hide Pow;
    PowAdd(a, x, y);
    PowAdd(b, k, l);
    MulLe(Pow(a, x), Pow(b, k), Pow(a, y));
    MulLe(Pow(a, y), Pow(b, l), Pow(b, k));
    PowMonotone(b, k + l, n);
  }

  lemma SmallPowers()
    ensures Pow(256, 0) <= Pow(58, 0) && Pow(256, 1) <= Pow(58, 2) && Pow(256, 2) <= Pow(58, 3) && Pow(256, 3) <= Pow(58, 5)
    ensures Pow(256, 4) <= Pow(58, 6) && Pow(256, 5) <= Pow(58, 7) && Pow(256, 6) <= Pow(58, 9) && Pow(256, 7) <= Pow(58, 10)
    ensures Pow(256, 8) <= Pow(58, 11)
  {
    assert Pow(256, 2) == 0x1_0000;
    assert Pow(256, 4) == 0x1_0000_0000;
    assert Pow(256, 6) == 0x1_0000_0000_0000;
    assert Pow(256, 8) == 0x1_0000_0000_0000_0000;
    assert Pow(58, 2) == 3364;
    assert Pow(58, 3) == 195112;
    assert Pow(58, 5) == 656356768;
    assert Pow(58, 6) == 38068692544;
    assert Pow(58, 7) == 2207984167552;
    assert Pow(58, 9) == 7427658739644928;
    assert Pow(58, 10) == 430804206899405824;
    assert Pow(58, 11) == 24986644000165537792;
  }

  /** 138/100 digits of base 58 for every byte are enough. */
  lemma {:induction false} EncodeRoom(n: nat)
    ensures Pow(256, n) <= Pow(58, n * 138 / 100 + 1)
  {
    SmallPowers();
    if n >= 8 {
      EncodeRoom(n - 8);
      PowSplit(256, 58, 8, n - 8, 11, (n - 8) * 138 / 100 + 1, n * 138 / 100 + 1);
    } else {
      var k := [0, 2, 3, 5, 6, 7, 9, 10][n];
      PowMonotone(58, k, n * 138 / 100 + 1);
    }
  }

  /** How many bytes hold b digits of base 58, for b below 15. */
  function BytesFor(b: nat): (r: nat)
    requires b < 15
    ensures r <= b
  {
    (3 * b + 3) / 4
  }

  lemma CeilTable(b: nat)
    requires b < 15
    ensures BytesFor(b) == [0, 1, 2, 3, 3, 4, 5, 6, 6, 7, 8, 9, 9, 10, 11][b]
  {
  }

  lemma DigitPower(b: nat)
    requires b < 15
    ensures Pow(58, b) <= Pow(256, BytesFor(b))
  {
    hide BytesFor;
    assert BytesFor(b) == [0, 1, 2, 3, 3, 4, 5, 6, 6, 7, 8, 9, 9, 10, 11][b] by { CeilTable(b); }
    assert Pow(58, 2) == 3364;
    assert Pow(58, 4) == 11316496;
    assert Pow(58, 6) == 38068692544;
    assert Pow(58, 8) == 128063081718016;
    assert Pow(58, 10) == 430804206899405824;
    assert Pow(58, 12) == 1449225352009601191936;
    assert Pow(58, 14) == 4875194084160298409672704;
    assert Pow(256, 2) == 65536;
    assert Pow(256, 4) == 4294967296;
    assert Pow(256, 6) == 281474976710656;
    assert Pow(256, 8) == 18446744073709551616;
    assert Pow(256, 10) == 1208925819614629174706176;
    assert Pow(256, 11) == 309485009821345068724781056;
  }

  lemma Fifteen()
    ensures Pow(58, 15) <= Pow(256, 11)
  {
    assert Pow(58, 5) == 656356768;
    PowAdd(58, 5, 5);
    PowAdd(58, 10, 5);
    assert Pow(256, 5) == 1099511627776;
    PowAdd(256, 5, 5);
    PowAdd(256, 10, 1);
  }

  /** 71 digits of base 58 fit in 52 bytes. */
  lemma SeventyOne()
    ensures Pow(58, 71) <= Pow(256, 52)
  {
    hide Pow;
    Digits35();
    PowAdd(58, 35, 35);
    PowAdd(58, 70, 1);
    Bytes26();
    PowAdd(256, 26, 26);
  }

  lemma Digits35()
    ensures Pow(58, 35) == 52478302028992644968172978478148648556151605660894866578604032 && Pow(58, 1) == 58
  {
    assert Pow(58, 5) == 656356768;
    hide Pow;
    PowAdd(58, 5, 5);
    PowAdd(58, 10, 10);
    PowAdd(58, 20, 10);
    PowAdd(58, 30, 5);
  }

  lemma Bytes26()
    ensures Pow(256, 26) == 411376139330301510538742295639337626245683966408394965837152256
  {
    assert Pow(256, 4) == 4294967296 && Pow(256, 1) == 256;
    hide Pow;
    PowAdd(256, 4, 4);
    PowAdd(256, 8, 4);
    PowAdd(256, 12, 1);
    PowAdd(256, 13, 13);
  }

  /** 733/1000 bytes for every digit are enough. */
  lemma {:induction false} DecodeRoom(n: nat)
    ensures Pow(58, n) <= Pow(256, n * 733 / 1000 + 1)
  {
    hide Pow, BytesFor;
    if n >= 71 {
      SeventyOne();
      DecodeRoom(n - 71);
      PowSplit(58, 256, 71, n - 71, 52, (n - 71) * 733 / 1000 + 1, n * 733 / 1000 + 1);
    } else {
      FewDigits(n / 15, n % 15);
      FewBytes(n / 15, n % 15);
      assert n == 15 * (n / 15) + n % 15;
      PowMonotone(256, 11 * (n / 15) + BytesFor(n % 15), n * 733 / 1000 + 1);
    }
  }

  lemma FewBytes(a: nat, b: nat)
    requires a <= 4 && b < 15
    ensures 11 * a + BytesFor(b) <= (15 * a + b) * 733 / 1000 + 1
  {
  }

  lemma {:induction false} FewDigits(a: nat, b: nat)
    requires b < 15
    ensures Pow(58, 15 * a + b) <= Pow(256, 11 * a + BytesFor(b))
  {
    hide Pow, BytesFor;
    if a == 0 {
      DigitPower(b);
    } else {
      Fifteen();
      FewDigits(a - 1, b);
      PowSplit(58, 256, 15, 15 * (a - 1) + b, 11, 11 * (a - 1) + BytesFor(b), 11 * a + BytesFor(b));
    }
  }
}
