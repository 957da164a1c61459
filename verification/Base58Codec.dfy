/**
  EncodeBase58, DecodeBase58 and their checksum forms (src/base58.cpp).
*/
module Base58Codec {
  import opened Primitives
  import opened Numerals
  import opened Base58

  /** The alphabet: 1-9, A-Z without I and O, a-z without l. */
  function CharOf(d: byte): (c: char)
    requires d < 58
  {
    if d < 9 then '1' + d as char
    else if d < 17 then 'A' + (d - 9) as char
    else if d < 22 then 'J' + (d - 17) as char
    else if d < 33 then 'P' + (d - 22) as char
    else if d < 44 then 'a' + (d - 33) as char
    else 'm' + (d - 44) as char
  }

  const ALPHABET: string := seq(58, i requires 0 <= i < 58 => CharOf(i))

  /** The digit a character stands for. */
  function DigitOf(c: char): (r: Option<byte>)
    ensures r.Some? ==> r.value < 58 && CharOf(r.value) == c
    ensures r.None? ==> forall d: byte :: d < 58 ==> CharOf(d) != c
  {
    if '1' <= c <= '9' then Some((c - '1') as int)
    else if 'A' <= c <= 'H' then Some(9 + (c - 'A') as int)
    else if 'J' <= c <= 'N' then Some(17 + (c - 'J') as int)
    else if 'P' <= c <= 'Z' then Some(22 + (c - 'P') as int)
    else if 'a' <= c <= 'k' then Some(33 + (c - 'a') as int)
    else if 'm' <= c <= 'z' then Some(44 + (c - 'm') as int)
    else None
  }

  lemma DigitOfChar(d: byte)
    requires d < 58
    ensures DigitOf(CharOf(d)) == Some(d)
  {
  }

  /** strchr on the alphabet. */
  method FindChar(c: char) returns (r: Option<byte>)
    ensures r == DigitOf(c)
  {
    for i := 0 to 58
      invariant forall d :: 0 <= d < i ==> ALPHABET[d] != c
    {
      if ALPHABET[i] == c {
        DigitOfChar(i);
        return Some(i);
      }
    }
    assert forall d: byte :: d < 58 ==> ALPHABET[d] == CharOf(d);
    r := None;
  }

  /** isspace. */
  predicate IsSpace(c: char) { c == ' ' || '\t' <= c <= '\r' }

  lemma DigitsNotSpace(c: char)
    requires DigitOf(c).Some?
    ensures !IsSpace(c)
  {
  }

  // --------------------------------------------------------------------- specs

  function Text(s: seq<byte>): (r: string)
    requires forall i :: 0 <= i < |s| ==> s[i] < 58
    ensures |r| == |s| && forall i :: 0 <= i < |s| ==> r[i] == CharOf(s[i])
  {
    seq(|s|, i requires 0 <= i < |s| => CharOf(s[i]))
  }

  predicate Alphabetic(s: string) { forall i :: 0 <= i < |s| ==> DigitOf(s[i]).Some? }

  function Nums(s: string): (r: seq<byte>)
    requires Alphabetic(s)
    ensures |r| == |s| && forall i :: 0 <= i < |s| ==> r[i] == DigitOf(s[i]).value
  {
    seq(|s|, i requires 0 <= i < |s| => DigitOf(s[i]).value)
  }

  function Ones(n: nat): (r: string)
    ensures |r| == n
  {
    seq(n, i => '1')
  }

  /** How many elements at the front equal x. */
  function Leading<T(==)>(s: seq<T>, x: T): (n: nat)
    ensures n <= |s| && (forall i :: 0 <= i < n ==> s[i] == x) && (n < |s| ==> s[n] != x)
  {
    if s == [] || s[0] != x then 0 else 1 + Leading(s[1..], x)
  }

  lemma LeadingIs<T>(s: seq<T>, x: T, n: nat)
    requires n <= |s| && (forall i :: 0 <= i < n ==> s[i] == x) && (n < |s| ==> s[n] != x)
    ensures Leading(s, x) == n
  {
  }

  /** The text of a byte string: a '1' for every leading zero byte, then the number in base 58. */
  function Encoded(v: seq<byte>): (r: string) {
    Ones(Leading(v, 0)) + Text(Digits(58, Value(256, v)))
  }

  function Spaces(s: string): (n: nat)
    ensures n <= |s| && (forall i :: 0 <= i < n ==> IsSpace(s[i])) && (n < |s| ==> !IsSpace(s[n]))
  {
    if s == [] || !IsSpace(s[0]) then 0 else 1 + Spaces(s[1..])
  }

  function NonSpaces(s: string): (n: nat)
    ensures n <= |s| && (forall i :: 0 <= i < n ==> !IsSpace(s[i])) && (n < |s| ==> IsSpace(s[n]))
  {
    if s == [] || IsSpace(s[0]) then 0 else 1 + NonSpaces(s[1..])
  }

  /** The first run of characters that are not spaces. */
  function Word(s: string): (r: string) {
    var t := s[Spaces(s)..];
    t[..NonSpaces(t)]
  }

  /** Nothing but spaces follows the first word. */
  predicate OneWord(s: string) {
    var t := s[Spaces(s)..];
    var u := t[NonSpaces(t)..];
    Spaces(u) == |u|
  }

  /** What a text decodes to. */
  function Decoded(s: string): (r: Option<seq<byte>>) {
    if !OneWord(s) || !Alphabetic(Word(s)) then None
    else
      var w := Word(s);
      var z := Leading(w, '1');
      Some(Zeroes(z) + Digits(256, Value(58, Nums(w[z..]))))
  }

  // --------------------------------------------------------------- round trips

  lemma TextOfNums(s: string)
    requires Alphabetic(s)
    ensures Text(Nums(s)) == s
  {
  }

  lemma NumsOfText(s: seq<byte>)
    requires forall i :: 0 <= i < |s| ==> s[i] < 58
    ensures Alphabetic(Text(s)) && Nums(Text(s)) == s
  {
    forall i | 0 <= i < |s| ensures DigitOf(Text(s)[i]) == Some(s[i]) {
      DigitOfChar(s[i]);
    }
  }

  /** Decoding a word and encoding the result gives the word back. */
  lemma EncodeOfDecode(w: string)
    requires Alphabetic(w)
    ensures var z := Leading(w, '1'); Encoded(Zeroes(z) + Digits(256, Value(58, Nums(w[z..])))) == w
  {
    hide Digits, Value, CharOf, DigitOf, Leading, Text, Nums, Alphabetic, Zeroes, Ones;
    var z := Leading(w, '1');
    Suffix(w, z);
    var x := Nums(w[z..]);
    var n := Value(58, x);
    var d := Digits(256, n);
    ZeroFront(z, d);
    LeadingZeroes(256, z, d);
    ValueOfDigits(256, n);
    NumsCanonical(w, z);
    DigitsOfValue(58, x);
    TextOfNums(w[z..]);
    OnesFront(w);
  }

  lemma Suffix(w: string, z: nat)
    requires Alphabetic(w) && z <= |w|
    ensures Alphabetic(w[z..])
  {
  }

  lemma ZeroFront(z: nat, d: seq<byte>)
    requires d != [] ==> d[0] != 0
    ensures Leading(Zeroes(z) + d, 0) == z
  {
    LeadingIs(Zeroes(z) + d, 0, z);
  }

  lemma OnesFront(w: string)
    ensures Ones(Leading(w, '1')) + w[Leading(w, '1')..] == w
  {
  }

  /** After its leading ones a word starts with a digit that is not zero. */
  lemma NumsCanonical(w: string, z: nat)
    requires Alphabetic(w) && z == Leading(w, '1') && Alphabetic(w[z..])
    ensures var x := Nums(w[z..]); DigitsBelow(x, 58) && (x != [] ==> x[0] != 0)
  {
    hide DigitOf;
    OneIsZero();
  }

  lemma OneIsZero()
    ensures DigitOf('1') == Some(0) && CharOf(0) == '1' && forall c :: DigitOf(c) == Some(0) ==> c == '1'
  {
  }

  /** An encoded text is a word of the alphabet and decodes to its byte string. */
  lemma DecodeOfEncode(v: seq<byte>)
    ensures Alphabetic(Encoded(v))
    ensures var w := Encoded(v); var z := Leading(w, '1'); v == Zeroes(z) + Digits(256, Value(58, Nums(w[z..])))
  {
    hide Digits, Value, CharOf, DigitOf, Leading, Text, Nums, Alphabetic, Zeroes, Ones;
    var z := Leading(v, 0);
    var n := Value(256, v);
    var d := Digits(58, n);
    NumsOfText(d);
    OnesThenText(z, d);
    ValueOfDigits(58, n);
    ZeroesSplit(v);
    LeadingZeroes(256, z, v[z..]);
    DigitsOfValue(256, v[z..]);
  }

  lemma ZeroesSplit(v: seq<byte>)
    ensures var z := Leading(v, 0); v == Zeroes(z) + v[z..] && (v[z..] != [] ==> v[z..][0] != 0)
  {
  }

  lemma OnesThenText(z: nat, d: seq<byte>)
    requires DigitsBelow(d, 58) && (d != [] ==> d[0] != 0)
    ensures var w := Ones(z) + Text(d); Alphabetic(w) && Leading(w, '1') == z && w[z..] == Text(d)
  {
    hide CharOf, DigitOf;
    OneIsZero();
    NumsOfText(d);
    FirstNotOne(d);
    LeadingIs(Ones(z) + Text(d), '1', z);
  }

  lemma FirstNotOne(d: seq<byte>)
    requires (forall i :: 0 <= i < |d| ==> d[i] < 58) && (d != [] ==> d[0] != 0)
    ensures d != [] ==> Text(d)[0] != '1'
  {
  }

  lemma {:induction false} SpacesIs(s: string, n: nat)
    requires n <= |s| && (forall i :: 0 <= i < n ==> IsSpace(s[i])) && (n < |s| ==> !IsSpace(s[n]))
    ensures Spaces(s) == n
  {
    if n > 0 {
      SpacesIs(s[1..], n - 1);
    }
  }

  lemma {:induction false} NonSpacesIs(s: string, n: nat)
    requires n <= |s| && (forall i :: 0 <= i < n ==> !IsSpace(s[i])) && (n < |s| ==> IsSpace(s[n]))
    ensures NonSpaces(s) == n
  {
    if n > 0 {
      NonSpacesIs(s[1..], n - 1);
    }
  }

  /** A text decodes to v exactly when it is v's encoding, with spaces around it. */
  lemma DecodedIff(s: string, v: seq<byte>)
    ensures Decoded(s) == Some(v) <==> OneWord(s) && Word(s) == Encoded(v)
  {
    hide Encoded, OneWord, Word, Alphabetic, Digits, Value, Leading;
    DecodeOfEncode(v);
    if Alphabetic(Word(s)) {
      EncodeOfDecode(Word(s));
    }
  }

  /** A word of the alphabet is one word. */
  lemma AlphabeticWord(w: string)
    requires Alphabetic(w)
    ensures OneWord(w) && Word(w) == w
  {
    hide DigitOf;
    forall i | 0 <= i < |w| ensures !IsSpace(w[i]) {
      DigitsNotSpace(w[i]);
    }
    assert Spaces(w) == 0 && w[0..] == w;
    assert NonSpaces(w) == |w|;
  }

  lemma EncodeThenDecode(v: seq<byte>)
    ensures Decoded(Encoded(v)) == Some(v)
  {
    hide Encoded, OneWord, Word, Decoded;
    DecodeOfEncode(v);
    AlphabeticWord(Encoded(v));
    DecodedIff(Encoded(v), v);
  }

  lemma DecodeThenEncode(s: string)
    requires Alphabetic(s)
    ensures Decoded(s).Some? && Encoded(Decoded(s).value) == s
  {
    hide Encoded, OneWord, Word, Alphabetic, Digits, Value, Leading;
    AlphabeticWord(s);
    EncodeOfDecode(s);
  }

  // ---------------------------------------------------------------- the loops

  predicate DigitsBelow(s: seq<byte>, base: nat) { forall i :: 0 <= i < |s| ==> s[i] < base }

  /** The inner loop: the digits times a factor plus a digit, with what no longer fits left in carry. */
  method MulAdd(buf: array<byte>, base: nat, mul: nat, add: nat) returns (carry: nat)
    requires Radix(base) && DigitsBelow(buf[..], base)
    modifies buf
    ensures DigitsBelow(buf[..], base)
    ensures Value(base, buf[..]) + carry * Pow(base, buf.Length) == mul * Value(base, old(buf[..])) + add
  {
    hide Value, Pow;
    carry := add;
    var i := buf.Length;
    EmptyValue(base);
    assert buf[i..] == [];
    while i > 0
      invariant 0 <= i <= buf.Length && buf[..i] == old(buf[..i]) && DigitsBelow(buf[..], base)
      invariant Value(base, buf[i..]) + carry * Pow(base, buf.Length - i) == mul * Value(base, old(buf[i..])) + add
    {
      i := i - 1;
      ghost var c, rest, was := carry, buf[i + 1..], old(buf[i + 1..]);
      ghost var x := buf[i];
      assert x == old(buf[i]);
      carry := carry + mul * buf[i] as int;
      buf[i] := carry % base;
      carry := carry / base;
      assert buf[i..] == [buf[i]] + rest;
      assert old(buf[i..]) == [x] + was;
      ValueCons(base, buf[i], rest);
      ValueCons(base, x, was);
      CarryStep(base, mul, c, x, Pow(base, |rest|), Value(base, rest), Value(base, was), add);
      NextPow(base, |rest|);
    }
    assert buf[0..] == buf[..] && old(buf[0..]) == old(buf[..]);
  }

  lemma EmptyValue(base: nat)
    ensures Value(base, []) == 0 && Pow(base, 0) == 1
  {
  }

  lemma NextPow(b: nat, e: nat)
    ensures Pow(b, e + 1) == b * Pow(b, e)
  {
  }

  lemma CarryStep(base: nat, mul: nat, c: nat, x: nat, p: nat, rest: nat, was: nat, add: nat)
    requires Radix(base) && rest + c * p == mul * was + add
    ensures var k := c + mul * x;
      (k % base) * p + rest + (k / base) * (base * p) == mul * (x * p + was) + add
  {
    var k := c + mul * x;
    var q, r := k / base, k % base;
    assert k == q * base + r by {
      if base == 58 {
        assert k == k / 58 * 58 + k % 58;
      } else {
        assert k == k / 256 * 256 + k % 256;
      }
    }
    calc {
      r * p + rest + q * (base * p);
      { assert q * (base * p) == (q * base) * p; }
      r * p + rest + (q * base) * p;
      { assert (q * base + r) * p == (q * base) * p + r * p; }
      k * p + rest;
      { assert (c + mul * x) * p == c * p + (mul * x) * p; }
      c * p + (mul * x) * p + rest;
      { assert (mul * x) * p == mul * (x * p); }
      mul * was + add + mul * (x * p);
      { assert mul * (x * p + was) == mul * (x * p) + mul * was; }
      mul * (x * p + was) + add;
    }
  }

  /** A number below the buffer's capacity leaves no carry. */
  lemma NoCarry(value: nat, carry: nat, cap: nat, total: nat)
    requires value + carry * cap == total && total < cap
    ensures carry == 0 && value == total
  {
    if carry > 0 {
      MulLe(1, carry, cap);
    }
  }

  /** Leading zero digits are skipped, the rest are the shortest digits. */
  method SkipZeroes(buf: array<byte>, base: nat) returns (r: seq<byte>)
    requires Radix(base) && DigitsBelow(buf[..], base)
    ensures r == Digits(base, Value(base, buf[..]))
  {
    hide Value, Digits;
    var it := 0;
    while it < buf.Length && buf[it] == 0
      invariant 0 <= it <= buf.Length && forall i :: 0 <= i < it ==> buf[i] == 0
    {
      it := it + 1;
    }
    r := buf[it..];
    assert buf[..] == Zeroes(it) + r;
    LeadingZeroes(base, it, r);
    DigitsOfValue(base, r);
  }

  /** EncodeBase58; the buffer always suffices. */
  method EncodeBase58(v: seq<byte>) returns (str: string)
    ensures str == Encoded(v)
  {
    hide Value, Digits, Pow, Text;
    var zeroes := 0;
    while zeroes < |v| && v[zeroes] == 0
      invariant zeroes <= |v| && forall i :: 0 <= i < zeroes ==> v[i] == 0
    {
      zeroes := zeroes + 1;
    }
    LeadingIs(v, 0, zeroes);
    var w := v[zeroes..];
    assert v == Zeroes(zeroes) + w;
    LeadingZeroes(256, zeroes, w);
    var digits := ToBase58(w);
    str := Ones(zeroes) + Text(digits);
  }

  /** The conversion loop of EncodeBase58. */
  method ToBase58(w: seq<byte>) returns (digits: seq<byte>)
    ensures digits == Digits(58, Value(256, w))
  {
    hide Value, Digits, Pow;
    var n := |w| * 138 / 100 + 1;
    EncodeRoom(|w|);
    var b58 := new byte[n](_ => 0);
    AllZero(58, b58[..]);
    EmptyValue(256);
    for i := 0 to |w|
      invariant DigitsBelow(b58[..], 58) && Value(58, b58[..]) == Value(256, w[..i])
    {
      assert w[..i + 1] == w[..i] + [w[i]];
      ValueSnoc(256, w[..i], w[i]);
      WithinRoom(256, 58, w, i + 1, n);
      var carry := MulAdd(b58, 58, 256, w[i]);
      NoCarry(Value(58, b58[..]), carry, Pow(58, n), Value(256, w[..i + 1]));
      assert carry == 0;
    }
    assert w[..|w|] == w;
    digits := SkipZeroes(b58, 58);
  }

  lemma AllZero(base: nat, s: seq<byte>)
    requires forall i :: 0 <= i < |s| ==> s[i] == 0
    ensures Value(base, s) == 0
  {
    assert s == Zeroes(|s|) + [];
    LeadingZeroes(base, |s|, []);
  }

  lemma ValueSnoc(base: nat, s: seq<byte>, d: byte)
    ensures Value(base, s + [d]) == base * Value(base, s) + d as int
  {
    assert (s + [d])[..|s|] == s;
  }

  /** A prefix of the input stays below the capacity of the buffer. */
  lemma WithinRoom(from: nat, to: nat, w: seq<byte>, i: nat, n: nat)
    requires Radix(from) && Radix(to) && i <= |w| && DigitsBelow(w, from) && Pow(from, |w|) <= Pow(to, n)
    ensures Value(from, w[..i]) < Pow(to, n)
  {
    hide Value, Pow;
    ValueBound(from, w[..i]);
    PowMonotone(from, i, |w|);
  }

  /** DecodeBase58; the buffer always suffices. */
  method DecodeBase58(psz: string) returns (r: Option<seq<byte>>)
    ensures r == Decoded(psz)
  {
    hide Value, Digits, Pow, OneWord, DigitOf, Word, IsSpace, Leading, Spaces;
    var p := SkipSpaces(psz, 0);
    SpacesIs(psz, p);
    var zeroes := CountOnes(psz, p);
    var ok, digits, end := DecodeWord(psz, p + zeroes);
    OneIsZero();
    OneNotSpace();
    if !ok {
      BadChar(psz, p, end);
      return None;
    }
    WordIs(psz, p, end);
    var q := SkipSpaces(psz, end);
    SpacesIs(psz[end..], q - end);
    if q != |psz| {
      return None;
    }
    var w := psz[p..end];
    LeadingIs(w, '1', zeroes);
    assert w[zeroes..] == psz[p + zeroes..end];
    r := Some(Zeroes(zeroes) + digits);
  }

  method CountOnes(s: string, from: nat) returns (n: nat)
    requires from <= |s|
    ensures from + n <= |s| && (forall i :: from <= i < from + n ==> s[i] == '1') && (from + n < |s| ==> s[from + n] != '1')
  {
    n := 0;
    while from + n < |s| && s[from + n] == '1'
      invariant from + n <= |s| && forall i :: from <= i < from + n ==> s[i] == '1'
    {
      n := n + 1;
    }
  }

  lemma OneNotSpace()
    ensures !IsSpace('1')
  {
  }

  /** A character outside the alphabet in the first word. */
  lemma BadChar(s: string, p: nat, end: nat)
    requires Spaces(s) == p <= end < |s| && (forall i :: p <= i <= end ==> !IsSpace(s[i])) && DigitOf(s[end]).None?
    ensures Decoded(s).None?
  {
    hide DigitOf, OneWord;
    var t := s[p..];
    assert NonSpaces(t) > end - p;
    assert Word(s)[end - p] == s[end];
  }

  lemma WordIs(s: string, p: nat, end: nat)
    requires Spaces(s) == p <= end <= |s| && (forall i :: p <= i < end ==> !IsSpace(s[i])) && (end < |s| ==> IsSpace(s[end]))
    ensures Word(s) == s[p..end] && (OneWord(s) <==> Spaces(s[end..]) == |s| - end)
  {
    hide Spaces, NonSpaces, IsSpace;
    var t := s[p..];
    NonSpacesIs(t, end - p);
    assert t[end - p..] == s[end..] && t[..end - p] == s[p..end];
  }

  method SkipSpaces(s: string, from: nat) returns (p: nat)
    requires from <= |s|
    ensures from <= p <= |s| && (forall i :: from <= i < p ==> IsSpace(s[i])) && (p < |s| ==> !IsSpace(s[p]))
  {
    p := from;
    while p < |s| && IsSpace(s[p])
      invariant from <= p <= |s| && forall i :: from <= i < p ==> IsSpace(s[i])
    {
      p := p + 1;
    }
  }

  /** The digits of the characters up to the next space; ok is false at a character outside the alphabet. */
  method DecodeWord(s: string, from: nat) returns (ok: bool, digits: seq<byte>, end: nat)
    requires from <= |s|
    ensures from <= end <= |s| && (forall i :: from <= i < end ==> !IsSpace(s[i]) && DigitOf(s[i]).Some?)
    ensures ok ==> (end < |s| ==> IsSpace(s[end])) && Alphabetic(s[from..end]) && digits == Digits(256, Value(58, Nums(s[from..end])))
    ensures !ok ==> end < |s| && !IsSpace(s[end]) && DigitOf(s[end]).None?
  {
    hide Value, Digits, Pow, DigitOf;
    var n := (|s| - from) * 733 / 1000 + 1;
    DecodeRoom(|s| - from);
    var b256 := new byte[n](_ => 0);
    AllZero(256, b256[..]);
    EmptyValue(58);
    end := from;
    assert Nums(s[from..from]) == [];
    while end < |s| && !IsSpace(s[end])
      invariant from <= end <= |s| && forall i :: from <= i < end ==> !IsSpace(s[i]) && DigitOf(s[i]).Some?
      invariant DigitsBelow(b256[..], 256) && Value(256, b256[..]) == Value(58, Nums(s[from..end]))
    {
      var ch := FindChar(s[end]);
      if ch.None? {
        return false, [], end;
      }
      NumsSnoc(s, from, end);
      ShortRoom(s[from..end + 1], |s| - from, n);
      var carry := MulAdd(b256, 256, 58, ch.value);
      NoCarry(Value(256, b256[..]), carry, Pow(256, n), Value(58, Nums(s[from..end + 1])));
      assert carry == 0;
      end := end + 1;
    }
    digits := SkipZeroes(b256, 256);
    ok := true;
  }

  lemma NumsSnoc(s: string, from: nat, end: nat)
    requires from <= end < |s| && Alphabetic(s[from..end + 1]) && Alphabetic(s[from..end])
    ensures Value(58, Nums(s[from..end + 1])) == 58 * Value(58, Nums(s[from..end])) + DigitOf(s[end]).value as int
  {
    hide DigitOf, Value;
    assert Nums(s[from..end + 1]) == Nums(s[from..end]) + [DigitOf(s[end]).value];
    ValueSnoc(58, Nums(s[from..end]), DigitOf(s[end]).value);
  }

  lemma ShortRoom(w: string, most: nat, n: nat)
    requires Alphabetic(w) && |w| <= most && Pow(58, most) <= Pow(256, n)
    ensures Value(58, Nums(w)) < Pow(256, n)
  {
    hide DigitOf, Value, Pow;
    ValueBound(58, Nums(w));
    PowMonotone(58, |w|, most);
  }

  // ----------------------------------------------------------------- checksums

  /** The first four bytes of the hash. */
  ghost predicate FourBytes(hash: seq<byte> -> seq<byte>) { forall v :: |hash(v)| == 4 }

  /** EncodeBase58Check. */
  method EncodeBase58Check(v: seq<byte>, hash: seq<byte> -> seq<byte>) returns (str: string)
    ensures str == Encoded(v + hash(v))
  {
    str := EncodeBase58(v + hash(v));
  }

  /** DecodeBase58Check accepts exactly the encodings of a byte string followed by its hash, and returns the byte string. */
  method DecodeBase58Check(psz: string, hash: seq<byte> -> seq<byte>) returns (r: Option<seq<byte>>)
    requires FourBytes(hash)
    ensures forall v :: r == Some(v) <==> OneWord(psz) && Word(psz) == Encoded(v + hash(v))
  {
    hide Encoded, OneWord, Word, Decoded;
    r := DecodeBase58(psz);
    ghost var d := r;
    if r.Some? && |r.value| >= 4 && hash(r.value[..|r.value| - 4]) == r.value[|r.value| - 4..] {
      r := Some(r.value[..|r.value| - 4]);
    } else {
      r := None;
    }
    forall v ensures r == Some(v) <==> OneWord(psz) && Word(psz) == Encoded(v + hash(v)) {
      DecodedIff(psz, v + hash(v));
      SplitTail(v, hash);
      if r == Some(v) {
        assert d.value == v + hash(v);
      }
    }
  }

  lemma SplitTail(v: seq<byte>, hash: seq<byte> -> seq<byte>)
    requires FourBytes(hash)
    ensures |v + hash(v)| == |v| + 4 && (v + hash(v))[..|v|] == v && (v + hash(v))[|v|..] == hash(v)
  {
  }

  /** What was encoded with a checksum decodes to itself. */
  method CheckedRoundTrip(v: seq<byte>, hash: seq<byte> -> seq<byte>) returns (r: Option<seq<byte>>)
    requires FourBytes(hash)
    ensures r == Some(v)
  {
    hide Encoded, OneWord, Word, Decoded;
    var s := EncodeBase58Check(v, hash);
    r := DecodeBase58Check(s, hash);
    DecodeOfEncode(v + hash(v));
    AlphabeticWord(s);
  }
}
