/**
  The compact form of one output: compressed amounts (CTxOutCompressorCoin in src/coins.cpp),
  variable-length integers (src/serialize.h) and compressed scripts (src/script/compressor.cpp).
*/
module OutputCodec {
  import opened Primitives
  import opened Collections

  // ------------------------------------------------------------------ amounts

  function Pow10(e: nat): (r: nat)
    ensures r > 0
  {
    if e == 0 then 1 else 10 * Pow10(e - 1)
  }

  /** The number and the count left by the loop that divides by ten, at most up to nine. */
  function Strip(n: nat, e: nat): (r: (nat, nat))
    requires n > 0 && e <= 9
    ensures e <= r.1 <= 9 && 0 < r.0 <= n && (r.1 < 9 ==> r.0 % 10 != 0)
  {
    if n % 10 == 0 && e < 9 then Strip(n / 10, e + 1) else (n, e)
  }

  /** The code of a mantissa and an exponent. */
  function Pack(m: nat, e: nat): (r: nat)
    requires m > 0
  {
    if e < 9 then 1 + (m / 10 * 9 + m % 10 - 1) * 10 + e else 1 + (m - 1) * 10 + 9
  }

  function Unpack(x: nat): (r: (nat, nat))
    requires x > 0
    ensures r.0 > 0 && r.1 <= 9 && (r.1 < 9 ==> r.0 % 10 != 0)
  {
    var e, y := (x - 1) % 10, (x - 1) / 10;
    (if e < 9 then y / 9 * 10 + y % 9 + 1 else y + 1, e)
  }

  lemma UnpackPack(m: nat, e: nat)
    requires m > 0 && e <= 9 && (e < 9 ==> m % 10 != 0)
    ensures Pack(m, e) > 0 && Unpack(Pack(m, e)) == (m, e)
  {
    if e < 9 {
      var k, d := m / 10, m % 10;
      var y := 9 * k + d - 1;
      assert (Pack(m, e) - 1) % 10 == e && (Pack(m, e) - 1) / 10 == y;
      assert y / 9 == k && y % 9 == d - 1;
    }
  }

  lemma PackUnpack(x: nat)
    requires x > 0
    ensures Pack(Unpack(x).0, Unpack(x).1) == x
  {
    var e, y := (x - 1) % 10, (x - 1) / 10;
    if e < 9 {
      var m := y / 9 * 10 + y % 9 + 1;
      assert m % 10 == y % 9 + 1 && m / 10 == y / 9;
    }
  }

  function Compress(n: nat): (r: nat) {
    if n == 0 then 0 else Pack(Strip(n, 0).0, Strip(n, 0).1)
  }

  function Decompress(x: nat): (r: nat) {
    if x == 0 then 0 else Unpack(x).0 * Pow10(Unpack(x).1)
  }

  /** CompressAmount. */
  method CompressAmount(amount: nat) returns (r: nat)
    ensures r == Compress(amount)
  {
    if amount == 0 {
      return 0;
    }
    var n, e := amount, 0;
    while n % 10 == 0 && e < 9
      invariant n > 0 && e <= 9 && Strip(n, e) == Strip(amount, 0)
    {
      n := n / 10;
      e := e + 1;
    }
    if e < 9 {
      var d := n % 10;
      assert 1 <= d <= 9;
      n := n / 10;
      r := 1 + (n * 9 + d - 1) * 10 + e;
    } else {
      r := 1 + (n - 1) * 10 + 9;
    }
  }

  /** DecompressAmount. */
  method DecompressAmount(packed: nat) returns (n: nat)
    ensures n == Decompress(packed)
  {
    if packed == 0 {
      return 0;
    }
    var x: nat := packed - 1;
    var e: nat := x % 10;
    x := x / 10;
    if e < 9 {
      var d := x % 9 + 1;
      x := x / 9;
      n := x * 10 + d;
    } else {
      n := x + 1;
    }
    assert n == Unpack(packed).0 && e == Unpack(packed).1;
    while e > 0
      invariant n * Pow10(e) == Decompress(packed)
    {
      Regroup(n, e);
      n := n * 10;
      e := e - 1;
    }
  }

  lemma Regroup(n: nat, e: nat)
    requires e > 0
    ensures n * Pow10(e) == (n * 10) * Pow10(e - 1)
  {
  }

  lemma {:induction false} StripValue(n: nat, e: nat)
    requires n > 0 && e <= 9
    ensures var (m, f) := Strip(n, e); n == m * Pow10(f - e)
  {
    if n % 10 == 0 && e < 9 {
      StripValue(n / 10, e + 1);
      var (m, f) := Strip(n / 10, e + 1);
      Regroup(m, f - e);
      TenTimes(m, Pow10(f - e - 1));
    }
  }

  lemma {:induction false} StripOf(m: nat, k: nat, e: nat)
    requires m > 0 && e + k <= 9 && (e + k < 9 ==> m % 10 != 0)
    ensures m * Pow10(k) > 0 && Strip(m * Pow10(k), e) == (m, e + k)
    decreases k
  {
    if k > 0 {
      StripOf(m, k - 1, e + 1);
      Regroup(m, k);
      TenTimes(m, Pow10(k - 1));
    }
  }

  lemma TenTimes(m: nat, p: nat)
    ensures (m * 10) * p % 10 == 0 && (m * 10) * p / 10 == m * p
  {
    assert (m * 10) * p == 10 * (m * p);
  }

  /** Compression loses nothing. */
  lemma DecompressCompress(n: nat)
    ensures Decompress(Compress(n)) == n
  {
    hide Strip, Pack, Unpack;
    if n > 0 {
      StripValue(n, 0);
      UnpackPack(Strip(n, 0).0, Strip(n, 0).1);
    }
  }

  /** Every number is the compressed form of some amount. */
  lemma CompressDecompress(x: nat)
    ensures Compress(Decompress(x)) == x
  {
    hide Strip, Pack, Unpack;
    if x > 0 {
      var (m, e) := Unpack(x);
      StripOf(m, e, 0);
      PackUnpack(x);
    }
  }

  /** A compressed amount is at most nine times the amount and a little, so money fits 64 bits with a sign. */
  lemma CompressedFits(n: nat)
    ensures Compress(n) <= 9 * n + 8
    ensures n <= MAX_MONEY ==> Compress(n) < 0x8000_0000_0000_0000
  {
    if n > 0 {
      StripValue(n, 0);
      var (m, e) := Strip(n, 0);
      if e == 9 {
        assert Pow10(9) == 1_000_000_000;
      }
    }
  }

  // ----------------------------------------------------------------- streams

  datatype Parsed<+T> = Fail | Got(value: T, rest: seq<byte>)

  /** The bytes before the last: all with the top bit set. */
  function VarHigh(n: nat): (r: seq<byte>) {
    if n <= 127 then [n + 128] else VarHigh(n / 128 - 1) + [n % 128 + 128]
  }

  /** VARINT of an int; a negative one keeps only its low seven bits. */
  function VarInt(n: int): (r: seq<byte>) {
    if n <= 127 then [n % 128] else VarHigh(n / 128 - 1) + [n % 128]
  }

  function ParseVarFrom(s: seq<byte>, n: nat): (r: Parsed<nat>) {
    if s == [] then Fail
    else
      var m := n * 128 + s[0] as int % 128;
      if s[0] >= 128 then ParseVarFrom(s[1..], m + 1) else Got(m, s[1..])
  }

  function ParseVar(s: seq<byte>): (r: Parsed<nat>) { ParseVarFrom(s, 0) }

  lemma {:induction false} VarHighParses(n: nat, rest: seq<byte>)
    ensures ParseVarFrom(VarHigh(n) + rest, 0) == ParseVarFrom(rest, n + 1)
  {
    if n <= 127 {
      assert (VarHigh(n) + rest)[1..] == rest;
    } else {
      var b: byte := n % 128 + 128;
      assert VarHigh(n) + rest == VarHigh(n / 128 - 1) + ([b] + rest);
      VarHighParses(n / 128 - 1, [b] + rest);
      assert ([b] + rest)[1..] == rest;
    }
  }

  /** Exactly the bytes written are read back, and a non-negative number comes back whole. */
  lemma VarIntParses(n: int, rest: seq<byte>)
    ensures ParseVar(VarInt(n) + rest) == Got(if n <= 127 then n % 128 else n, rest)
  {
    if n <= 127 {
      assert (VarInt(n) + rest)[1..] == rest;
    } else {
      var b: byte := n % 128;
      assert VarInt(n) + rest == VarHigh(n / 128 - 1) + ([b] + rest);
      VarHighParses(n / 128 - 1, [b] + rest);
      assert ([b] + rest)[1..] == rest;
    }
  }

  /** WriteVarInt: seven bits at a time from the low end, written in reverse. */
  method WriteVarInt(value: int) returns (out: seq<byte>)
    ensures out == VarInt(value)
  {
    hide VarInt, VarHigh;
    var n := value;
    var tmp: seq<byte> := [];
    assert VarInt(value) + Reverse(tmp) == VarInt(value);
    while true
      invariant tmp != [] ==> n >= 0
      invariant VarInt(value) == (if tmp == [] then VarInt(n) else VarHigh(n)) + Reverse(tmp)
      decreases if n < 0 then 0 else n
    {
      Peel(n, tmp);
      tmp := tmp + [n % 128 + if tmp == [] then 0 else 128];
      if n <= 127 {
        break;
      }
      n := n / 128 - 1;
    }
    out := Reverse(tmp);
  }

  /** Seven bits move from the number to the bytes written. */
  lemma Peel(n: int, tmp: seq<byte>)
    requires tmp != [] ==> n >= 0
    ensures var next := tmp + [n % 128 + if tmp == [] then 0 else 128];
      (if tmp == [] then VarInt(n) else VarHigh(n)) + Reverse(tmp) == if n <= 127 then Reverse(next) else VarHigh(n / 128 - 1) + Reverse(next)
  {
    var b: byte := n % 128 + if tmp == [] then 0 else 128;
    assert Reverse(tmp + [b]) == [b] + Reverse(tmp);
    if n > 127 {
      var high := VarHigh(n / 128 - 1);
      assert (if tmp == [] then VarInt(n) else VarHigh(n)) == high + [b];
      hide VarInt, VarHigh, Reverse;
      assert high + [b] + Reverse(tmp) == high + ([b] + Reverse(tmp));
    }
  }

  /** ReadVarInt. */
  method ReadVarInt(s: seq<byte>) returns (r: Parsed<nat>)
    ensures r == ParseVar(s)
  {
    var n: nat, pos: nat := 0, 0;
    while pos < |s|
      invariant 0 <= pos <= |s| && ParseVarFrom(s[pos..], n) == ParseVar(s)
    {
      var ch := s[pos];
      assert s[pos..][1..] == s[pos + 1..];
      pos := pos + 1;
      n := n * 128 + ch as int % 128;
      if ch >= 128 {
        n := n + 1;
      } else {
        return Got(n, s[pos..]);
      }
    }
    r := Fail;
  }

  // ----------------------------------------------------------------- scripts

  const OP_DUP: byte := 0x76
  const OP_EQUAL: byte := 0x87
  const OP_EQUALVERIFY: byte := 0x88
  const OP_HASH160: byte := 0xa9
  const OP_CHECKSIG: byte := 0xac
  const SPECIAL_SCRIPTS: nat := 6

  /** The public-key library: which 65-byte keys are points, and the full form of a 33-byte key. */
  datatype Curve = Curve(fullyValid: seq<byte> -> bool, decompress: seq<byte> -> Option<seq<byte>>)

  /** A valid full key is recovered from its first coordinate and the parity of the second. */
  ghost predicate Recovers(c: Curve) {
    forall k: seq<byte> :: |k| == 65 && k[0] == 4 && c.fullyValid(k) ==> c.decompress([2 + k[64] % 2] + k[1..33]) == Some(k)
  }

  predicate IsToKeyId(s: seq<byte>) {
    |s| == 25 && s[0] == OP_DUP && s[1] == OP_HASH160 && s[2] == 20 && s[23] == OP_EQUALVERIFY && s[24] == OP_CHECKSIG
  }

  predicate IsToScriptId(s: seq<byte>) {
    |s| == 23 && s[0] == OP_HASH160 && s[1] == 20 && s[22] == OP_EQUAL
  }

  predicate IsToShortKey(s: seq<byte>) {
    |s| == 35 && s[0] == 33 && s[34] == OP_CHECKSIG && (s[1] == 2 || s[1] == 3)
  }

  predicate IsToFullKey(c: Curve, s: seq<byte>) {
    |s| == 67 && s[0] == 65 && s[66] == OP_CHECKSIG && s[1] == 4 && c.fullyValid(s[1..66])
  }

  /** CScriptCompressor::Compress. */
  function CompressScript(c: Curve, s: seq<byte>): (r: Option<seq<byte>>)
    ensures r.Some? ==> |r.value| > 0 && r.value[0] < SPECIAL_SCRIPTS && |r.value| == 1 + SpecialSize(r.value[0])
  {
    if IsToKeyId(s) then Some([0] + s[3..23])
    else if IsToScriptId(s) then Some([1] + s[2..22])
    else if IsToShortKey(s) then Some([s[1]] + s[2..34])
    else if IsToFullKey(c, s) then Some([4 + s[65] % 2] + s[2..34])
    else None
  }

  /** GetSpecialSize. */
  function SpecialSize(n: nat): (r: nat) {
    if n <= 1 then 20 else if n <= 5 then 32 else 0
  }

  /** CScriptCompressor::Decompress into an empty script, which stays empty when the key is no point. */
  function DecompressScript(c: Curve, n: nat, data: seq<byte>): (r: seq<byte>)
    requires n < SPECIAL_SCRIPTS && |data| == SpecialSize(n)
  {
    if n == 0 then [OP_DUP, OP_HASH160, 20] + data + [OP_EQUALVERIFY, OP_CHECKSIG]
    else if n == 1 then [OP_HASH160, 20] + data + [OP_EQUAL]
    else if n <= 3 then [33, n] + data + [OP_CHECKSIG]
    else
      var key := c.decompress([n - 2] + data);
      if key.Some? then [65] + key.value + [OP_CHECKSIG] else []
  }

  /** CScriptCompressor::Serialize. */
  function WriteScript(c: Curve, s: seq<byte>): (r: seq<byte>) {
    var special := CompressScript(c, s);
    if special.Some? then special.value else VarInt(|s| + SPECIAL_SCRIPTS) + s
  }

  function Take(s: seq<byte>, n: nat): (r: Parsed<seq<byte>>) {
    if n <= |s| then Got(s[..n], s[n..]) else Fail
  }

  /** CScriptCompressor::Unserialize. */
  function ReadScript(c: Curve, s: seq<byte>): (r: Parsed<seq<byte>>) {
    var size := ParseVar(s);
    if size.Fail? then Fail
    else if size.value < SPECIAL_SCRIPTS then
      var data := Take(size.rest, SpecialSize(size.value));
      if data.Fail? then Fail else Got(DecompressScript(c, size.value, data.value), data.rest)
    else Take(size.rest, size.value - SPECIAL_SCRIPTS)
  }

  /** Decompression undoes compression. */
  lemma ScriptDecompresses(c: Curve, s: seq<byte>)
    requires Recovers(c) && CompressScript(c, s).Some?
    ensures var p := CompressScript(c, s).value; DecompressScript(c, p[0], p[1..]) == s
  {
    var p := CompressScript(c, s).value;
    if IsToKeyId(s) {
      assert s == [s[0], s[1], s[2]] + s[3..23] + [s[23], s[24]];
    } else if IsToScriptId(s) {
      assert s == [s[0], s[1]] + s[2..22] + [s[22]];
    } else if IsToShortKey(s) {
      assert s == [s[0], s[1]] + s[2..34] + [s[34]];
    } else {
      var k := s[1..66];
      assert k[1..33] == s[2..34] == p[1..];
      assert s == [s[0]] + k + [s[66]];
      assert (p[0] - 2) as int == (2 + k[64] % 2) as int;
    }
  }

  /** A script is read back whole, and nothing beyond it is consumed. */
  lemma ScriptRoundTrip(c: Curve, s: seq<byte>, rest: seq<byte>)
    requires Recovers(c)
    ensures ReadScript(c, WriteScript(c, s) + rest) == Got(s, rest)
  {
    hide CompressScript, DecompressScript, Recovers;
    var special := CompressScript(c, s);
    if special.Some? {
      var p := special.value;
      assert p + rest == VarInt(p[0]) + (p[1..] + rest);
      VarIntParses(p[0], p[1..] + rest);
      assert (p[1..] + rest)[..|p| - 1] == p[1..] && (p[1..] + rest)[|p| - 1..] == rest;
      ScriptDecompresses(c, s);
    } else {
      var n := |s| + SPECIAL_SCRIPTS;
      assert VarInt(n) + s + rest == VarInt(n) + (s + rest);
      VarIntParses(n, s + rest);
      assert (s + rest)[..|s|] == s && (s + rest)[|s|..] == rest;
    }
  }

  // ----------------------------------------------------------------- outputs

  /** CTxOutCompressorCoin when writing. */
  function WriteOut(c: Curve, o: TxOut): (r: seq<byte>)
    requires o.value >= 0
  {
    VarInt(Compress(o.value)) + WriteScript(c, o.script)
  }

  /** CTxOutCompressorCoin when reading into a null output. */
  function ReadOut(c: Curve, s: seq<byte>): (r: Parsed<TxOut>) {
    var value := ParseVar(s);
    if value.Fail? then Fail
    else
      var script := ReadScript(c, value.rest);
      if script.Fail? then Fail else Got(TxOut(Decompress(value.value), NO_ROUNDS, script.value), script.rest)
  }

  /** An output comes back up to nRounds, which is not written. */
  lemma OutRoundTrip(c: Curve, o: TxOut, rest: seq<byte>)
    requires Recovers(c) && o.value >= 0
    ensures ReadOut(c, WriteOut(c, o) + rest) == Got(o.(rounds := NO_ROUNDS), rest)
  {
    hide ReadScript, WriteScript, Recovers, VarInt, Compress, Decompress, ParseVar;
    var tail := WriteScript(c, o.script) + rest;
    assert WriteOut(c, o) + rest == VarInt(Compress(o.value)) + tail;
    VarIntParses(Compress(o.value), tail);
    ScriptRoundTrip(c, o.script, rest);
    DecompressCompress(o.value);
  }
}
