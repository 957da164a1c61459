/**
  The stored form of a CCoins record: version, a header code, the spentness mask whose length
  is never written, the unspent outputs and the height (src/coins.h, CalcMaskSize in src/coins.cpp).
*/
module CoinsCodec {
  import opened Primitives
  import opened CoinsModel
  import opened OutputCodec
  import opened BitStrings

  // -------------------------------------------------------------------- mask

  function Avail(vout: seq<TxOut>, i: nat): (r: bool) { i < |vout| && !vout[i].IsNull() }

  /** The availability of the eight outputs of mask byte b. */
  function Flags(vout: seq<TxOut>, b: nat): (r: seq<bool>)
    ensures |r| == 8
  {
    seq(8, i requires 0 <= i => Avail(vout, 2 + b * 8 + i))
  }

  function MaskByte(vout: seq<TxOut>, b: nat): (r: byte) {
    assert Pow2(8) == 256;
    FromBits(Flags(vout, b))
  }

  lemma MaskByteZero(vout: seq<TxOut>, b: nat)
    ensures MaskByte(vout, b) == 0 <==> forall i :: 0 <= i < 8 ==> !Flags(vout, b)[i]
  {
  }

  /** The mask ends with its last non-zero byte. */
  function LastUsed(vout: seq<TxOut>, b: nat): (r: nat)
    ensures r <= b && (r > 0 ==> MaskByte(vout, r - 1) != 0) && forall k :: r <= k < b ==> MaskByte(vout, k) == 0
  {
    if b == 0 || MaskByte(vout, b - 1) != 0 then b else LastUsed(vout, b - 1)
  }

  function MaskSize(vout: seq<TxOut>): (r: nat) { LastUsed(vout, (|vout| + 5) / 8) }

  function MaskFrom(vout: seq<TxOut>, b: nat): (r: seq<byte>)
    requires b <= MaskSize(vout)
    ensures |r| == MaskSize(vout) - b
  {
    seq<byte>(MaskSize(vout) - b, k requires 0 <= k => MaskByte(vout, b + k))
  }

  function NonZero(s: seq<byte>): (r: nat) {
    if s == [] then 0 else (if s[0] != 0 then 1 else 0) + NonZero(s[1..])
  }

  /** CCoins::CalcMaskSize. */
  method CalcMaskSize(vout: seq<TxOut>) returns (nBytes: nat, nNonzero: nat)
    ensures nBytes == MaskSize(vout) && nNonzero == NonZero(MaskFrom(vout, 0))
  {
    hide MaskByte, MaskFrom, NonZero;
    nBytes, nNonzero := 0, 0;
    NoBytes();
    var b := 0;
    ghost var seen: seq<byte> := [];
    while 2 + b * 8 < |vout|
      invariant b <= (|vout| + 5) / 8 && nBytes <= b
      invariant |seen| == nBytes && forall k :: 0 <= k < nBytes ==> seen[k] == MaskByte(vout, k)
      invariant nBytes > 0 ==> MaskByte(vout, nBytes - 1) != 0
      invariant forall k :: nBytes <= k < b ==> MaskByte(vout, k) == 0
      invariant nNonzero == NonZero(seen)
    {
      var fZero := ByteIsZero(vout, b);
      if !fZero {
        ghost var more := seq<byte>(b + 1 - nBytes, k requires 0 <= k => MaskByte(vout, nBytes + k));
        OneNonZero(more);
        NonZeroAppend(seen, more);
        seen := seen + more;
        nBytes := b + 1;
        nNonzero := nNonzero + 1;
      }
      b := b + 1;
    }
    LastUsedIs(vout, b, nBytes);
    MaskIs(vout, seen);
  }

  lemma NoBytes()
    ensures NonZero([]) == 0
  {
  }

  lemma MaskIs(vout: seq<TxOut>, s: seq<byte>)
    requires |s| == MaskSize(vout) && forall k :: 0 <= k < |s| ==> s[k] == MaskByte(vout, k)
    ensures s == MaskFrom(vout, 0)
  {
  }

  /** No output of mask byte b is unspent. */
  method ByteIsZero(vout: seq<TxOut>, b: nat) returns (fZero: bool)
    ensures fZero <==> MaskByte(vout, b) == 0
  {
    ghost var f := Flags(vout, b);
    hide MaskByte;
    fZero := true;
    var i := 0;
    while i < 8 && 2 + b * 8 + i < |vout|
      invariant i <= 8 && (fZero <==> forall k :: 0 <= k < i ==> !f[k])
    {
      assert f[i] == Avail(vout, 2 + b * 8 + i);
      if !vout[2 + b * 8 + i].IsNull() {
        fZero := false;
      }
      i := i + 1;
    }
    forall k | i <= k < 8 ensures !f[k] {
      assert f[k] == Avail(vout, 2 + b * 8 + k);
    }
    MaskByteZero(vout, b);
  }

  lemma {:induction false} LastUsedIs(vout: seq<TxOut>, b: nat, n: nat)
    requires n <= b && (n > 0 ==> MaskByte(vout, n - 1) != 0) && forall k :: n <= k < b ==> MaskByte(vout, k) == 0
    ensures LastUsed(vout, b) == n
  {
    if n < b {
      LastUsedIs(vout, b - 1, n);
    }
  }

  lemma {:induction false} NonZeroAppend(s: seq<byte>, t: seq<byte>)
    ensures NonZero(s + t) == NonZero(s) + NonZero(t)
  {
    if s == [] {
      assert s + t == t;
    } else {
      NonZeroAppend(s[1..], t);
      assert (s + t)[1..] == s[1..] + t;
    }
  }

  lemma {:induction false} OneNonZero(s: seq<byte>)
    requires s != [] && s[|s| - 1] != 0 && forall k :: 0 <= k < |s| - 1 ==> s[k] == 0
    ensures NonZero(s) == 1
  {
    if |s| > 1 {
      OneNonZero(s[1..]);
    } else {
      assert s[1..] == [];
    }
  }

  // ----------------------------------------------------------------- writing

  /** What the serialiser is given: something unspent, and amounts that are amounts. */
  predicate Storable(c: Coins) {
    !c.IsPruned() && forall i :: 0 <= i < |c.vout| && !c.vout[i].IsNull() ==> 0 <= c.vout[i].value <= MAX_MONEY
  }

  /** The unspent outputs from index i on. */
  function OutsFrom(curve: Curve, vout: seq<TxOut>, i: nat): (r: seq<byte>)
    requires forall k :: 0 <= k < |vout| && !vout[k].IsNull() ==> vout[k].value >= 0
    decreases |vout| - i
  {
    if i >= |vout| then []
    else (if vout[i].IsNull() then [] else WriteOut(curve, vout[i])) + OutsFrom(curve, vout, i + 1)
  }

  /** The header code. */
  function Code(c: Coins): (r: int) {
    var first, second := Avail(c.vout, 0), Avail(c.vout, 1);
    8 * (NonZero(MaskFrom(c.vout, 0)) - (if first || second then 0 else 1))
      + (if c.coinBase then 1 else 0) + (if first then 2 else 0) + (if second then 4 else 0)
  }

  /** The bytes of a record. */
  function Written(curve: Curve, c: Coins): (r: seq<byte>)
    requires Storable(c)
  {
    VarInt(c.version) + (VarInt(Code(c)) + (MaskFrom(c.vout, 0) + (OutsFrom(curve, c.vout, 0) + VarInt(c.height))))
  }

  /** One mask byte, bit by bit. */
  method BuildMaskByte(vout: seq<TxOut>, b: nat) returns (ch: byte)
    ensures ch == MaskByte(vout, b)
  {
    ghost var f := Flags(vout, b);
    var i, weight, sum := 0, 1, 0;
    assert f[..0] == [];
    while i < 8 && 2 + b * 8 + i < |vout|
      invariant 0 <= i <= 8 && weight == Pow2(i) && sum == FromBits(f[..i])
    {
      assert f[i] == Avail(vout, 2 + b * 8 + i);
      assert f[..i + 1] == f[..i] + [f[i]];
      BitsSnoc(f[..i], f[i]);
      if !vout[2 + b * 8 + i].IsNull() {
        sum := sum + weight;
      }
      i, weight := i + 1, weight * 2;
    }
    RestUnset(vout, b, i);
    ch := sum;
  }

  lemma RestUnset(vout: seq<TxOut>, b: nat, i: nat)
    requires i <= 8 && (i < 8 ==> 2 + b * 8 + i >= |vout|)
    ensures FromBits(Flags(vout, b)[..i]) == MaskByte(vout, b)
    decreases 8 - i
  {
    var f := Flags(vout, b);
    if i == 8 {
      assert f[..8] == f;
    } else {
      assert f[i] == Avail(vout, 2 + b * 8 + i);
      assert f[..i + 1] == f[..i] + [f[i]];
      BitsSnoc(f[..i], f[i]);
      RestUnset(vout, b, i + 1);
    }
  }

  /** CCoins::Serialize. */
  method Serialize(curve: Curve, c: Coins) returns (s: seq<byte>)
    requires Storable(c)
    ensures s == Written(curve, c)
  {
    hide MaskByte, MaskFrom, NonZero, VarInt, OutsFrom;
    var nMaskSize, nMaskCode := CalcMaskSize(c.vout);
    var fFirst := |c.vout| > 0 && !c.vout[0].IsNull();
    var fSecond := |c.vout| > 1 && !c.vout[1].IsNull();
    SomethingUnspent(c);
    assert fFirst || fSecond || nMaskCode != 0;
    var nCode := 8 * (nMaskCode - (if fFirst || fSecond then 0 else 1))
      + (if c.coinBase then 1 else 0) + (if fFirst then 2 else 0) + (if fSecond then 4 else 0);
    var version := WriteVarInt(c.version);
    var code := WriteVarInt(nCode);
    var mask := WriteMask(c.vout, nMaskSize);
    var outs := WriteOuts(curve, c.vout);
    var height := WriteVarInt(c.height);
    s := version + code + mask + outs + height;
    assert s == version + (code + (mask + (outs + height)));
  }

  method WriteMask(vout: seq<TxOut>, nMaskSize: nat) returns (mask: seq<byte>)
    requires nMaskSize == MaskSize(vout)
    ensures mask == MaskFrom(vout, 0)
  {
    mask := [];
    for b := 0 to nMaskSize
      invariant |mask| == b && forall k :: 0 <= k < b ==> mask[k] == MaskByte(vout, k)
    {
      var ch := BuildMaskByte(vout, b);
      mask := mask + [ch];
    }
    MaskIs(vout, mask);
  }

  method WriteOuts(curve: Curve, vout: seq<TxOut>) returns (outs: seq<byte>)
    requires forall k :: 0 <= k < |vout| && !vout[k].IsNull() ==> vout[k].value >= 0
    ensures outs == OutsFrom(curve, vout, 0)
  {
    hide WriteOut;
    outs := [];
    for i := 0 to |vout|
      invariant outs + OutsFrom(curve, vout, i) == OutsFrom(curve, vout, 0)
    {
      if !vout[i].IsNull() {
        assert outs + (WriteOut(curve, vout[i]) + OutsFrom(curve, vout, i + 1))
            == outs + WriteOut(curve, vout[i]) + OutsFrom(curve, vout, i + 1);
        outs := outs + WriteOut(curve, vout[i]);
      }
    }
  }

  /** A record with something unspent has a first, a second or a masked output. */
  lemma SomethingUnspent(c: Coins)
    requires !c.IsPruned()
    ensures Avail(c.vout, 0) || Avail(c.vout, 1) || NonZero(MaskFrom(c.vout, 0)) > 0
    ensures Code(c) >= 0
  {
    var i :| 0 <= i < |c.vout| && !c.vout[i].IsNull();
    if i >= 2 {
      var b, k := (i - 2) / 8, (i - 2) % 8;
      assert Flags(c.vout, b)[k] == Avail(c.vout, 2 + b * 8 + k);
      assert MaskByte(c.vout, b) != 0;
      assert MaskFrom(c.vout, 0)[b] != 0;
      SomeNonZero(MaskFrom(c.vout, 0), b);
    }
  }

  lemma {:induction false} SomeNonZero(s: seq<byte>, k: nat)
    requires k < |s| && s[k] != 0
    ensures NonZero(s) > 0
  {
    if k > 0 {
      SomeNonZero(s[1..], k - 1);
    }
  }

  // ----------------------------------------------------------------- reading

  /** Mask bytes up to the n-th non-zero one, as flags. */
  function ParseMask(s: seq<byte>, n: nat): (r: Parsed<seq<bool>>) {
    if n == 0 then Got([], s)
    else if s == [] then Fail
    else
      var more := ParseMask(s[1..], if s[0] != 0 then n - 1 else n);
      if more.Fail? then Fail else Got(ToBits(s[0], 8) + more.value, more.rest)
  }

  /** One output for every flag, the others null. */
  function ParseOuts(curve: Curve, s: seq<byte>, avail: seq<bool>): (r: Parsed<seq<TxOut>>)
    decreases |avail|
  {
    if avail == [] then Got([], s)
    else
      var one := if avail[0] then ReadOut(curve, s) else Got(NULL_OUT, s);
      if one.Fail? then Fail
      else
        var more := ParseOuts(curve, one.rest, avail[1..]);
        if more.Fail? then Fail else Got([one.value] + more.value, more.rest)
  }

  /** The flags and the number of non-zero mask bytes in a header code. */
  function FirstFlag(code: nat): (r: bool) { code / 2 % 2 == 1 }

  function SecondFlag(code: nat): (r: bool) { code / 4 % 2 == 1 }

  function MaskCode(code: nat): (r: nat) { code / 8 + if FirstFlag(code) || SecondFlag(code) then 0 else 1 }

  /** What a record's bytes mean. */
  function ReadRecord(curve: Curve, s: seq<byte>): (r: Parsed<Coins>) {
    var version := ParseVar(s);
    if version.Fail? then Fail else
    var code := ParseVar(version.rest);
    if code.Fail? then Fail else
    var mask := ParseMask(code.rest, MaskCode(code.value));
    if mask.Fail? then Fail else
    var outs := ParseOuts(curve, mask.rest, [FirstFlag(code.value), SecondFlag(code.value)] + mask.value);
    if outs.Fail? then Fail else
    var height := ParseVar(outs.rest);
    if height.Fail? then Fail else
    Got(Cleanup(Coins(code.value % 2 == 1, outs.value, height.value, version.value)), height.rest)
  }

  /** CCoins::Unserialize. */
  method Unserialize(curve: Curve, s: seq<byte>) returns (r: Parsed<Coins>)
    ensures r == ReadRecord(curve, s)
  {
    hide ParseVar, ParseMask, ParseOuts, Cleanup, ToBits;
    var version := ReadVarInt(s);
    if version.Fail? {
      return Fail;
    }
    var code := ReadVarInt(version.rest);
    if code.Fail? {
      return Fail;
    }
    var nCode := code.value;
    var mask := ReadMask(code.rest, MaskCode(nCode));
    if mask.Fail? {
      return Fail;
    }
    var vAvail := [FirstFlag(nCode), SecondFlag(nCode)] + mask.value;
    var outs := ReadOuts(curve, mask.rest, vAvail);
    if outs.Fail? {
      return Fail;
    }
    var height := ReadVarInt(outs.rest);
    if height.Fail? {
      return Fail;
    }
    var coins := CleanupLoop(Coins(nCode % 2 == 1, outs.value, height.value, version.value));
    r := Got(coins, height.rest);
  }

  function Prepend<T>(front: seq<T>, r: Parsed<seq<T>>): (p: Parsed<seq<T>>) {
    if r.Fail? then Fail else Got(front + r.value, r.rest)
  }

  lemma PrependNone<T>(r: Parsed<seq<T>>)
    ensures Prepend([], r) == r
  {
    if r.Got? {
      assert [] + r.value == r.value;
    }
  }

  lemma PrependLast<T>(a: seq<T>, rest: seq<byte>)
    ensures Prepend(a, Got([], rest)) == Got(a, rest)
  {
    assert a + [] == a;
  }

  method ReadMask(s: seq<byte>, code: nat) returns (r: Parsed<seq<bool>>)
    ensures r == ParseMask(s, code)
  {
    hide ToBits;
    var nMaskCode, pos := code, 0;
    var vAvail: seq<bool> := [];
    assert s[0..] == s;
    PrependNone(ParseMask(s, code));
    while nMaskCode > 0
      invariant 0 <= pos <= |s| && nMaskCode >= 0
      invariant ParseMask(s, code) == Prepend(vAvail, ParseMask(s[pos..], nMaskCode))
      decreases |s| - pos
    {
      if pos == |s| {
        return Fail;
      }
      var chAvail := s[pos];
      assert s[pos..][1..] == s[pos + 1..];
      pos := pos + 1;
      var bits := SplitBits(chAvail);
      PrependMore(vAvail, bits, ParseMask(s[pos..], if chAvail != 0 then nMaskCode - 1 else nMaskCode));
      vAvail := vAvail + bits;
      if chAvail != 0 {
        nMaskCode := nMaskCode - 1;
      }
    }
    PrependLast(vAvail, s[pos..]);
    r := Got(vAvail, s[pos..]);
  }

  lemma PrependMore<T>(a: seq<T>, b: seq<T>, r: Parsed<seq<T>>)
    ensures Prepend(a, Prepend(b, r)) == Prepend(a + b, r)
  {
    if r.Got? {
      assert a + (b + r.value) == a + b + r.value;
    }
  }

  method SplitBits(ch: byte) returns (bits: seq<bool>)
    ensures bits == ToBits(ch, 8)
  {
    bits := [];
    var rest: nat := ch;
    for p := 0 to 8
      invariant bits + ToBits(rest, 8 - p) == ToBits(ch, 8)
    {
      assert bits + ([rest % 2 == 1] + ToBits(rest / 2, 7 - p)) == bits + [rest % 2 == 1] + ToBits(rest / 2, 7 - p);
      bits := bits + [rest % 2 == 1];
      rest := rest / 2;
    }
  }

  method ReadOuts(curve: Curve, s: seq<byte>, vAvail: seq<bool>) returns (r: Parsed<seq<TxOut>>)
    ensures r == ParseOuts(curve, s, vAvail)
  {
    hide ReadOut;
    var vout: seq<TxOut> := [];
    var rest := s;
    assert vAvail[0..] == vAvail;
    PrependNone(ParseOuts(curve, s, vAvail));
    for i := 0 to |vAvail|
      invariant ParseOuts(curve, s, vAvail) == Prepend(vout, ParseOuts(curve, rest, vAvail[i..]))
    {
      assert vAvail[i..][1..] == vAvail[i + 1..];
      var out := NULL_OUT;
      if vAvail[i] {
        var one := ReadOut(curve, rest);
        if one.Fail? {
          return Fail;
        }
        out, rest := one.value, one.rest;
      }
      PrependMore(vout, [out], ParseOuts(curve, rest, vAvail[i + 1..]));
      vout := vout + [out];
    }
    PrependLast(vout, rest);
    r := Got(vout, rest);
  }

  // --------------------------------------------------------------- round trip

  lemma CodeParts(c: Coins)
    requires Code(c) >= 0
    ensures var code := Code(c);
      && FirstFlag(code) == Avail(c.vout, 0) && SecondFlag(code) == Avail(c.vout, 1) && (code % 2 == 1 <==> c.coinBase)
      && MaskCode(code) == NonZero(MaskFrom(c.vout, 0))
  {
    hide NonZero, MaskFrom, Avail, FirstFlag, SecondFlag, MaskCode;
    var first, second := Avail(c.vout, 0), Avail(c.vout, 1);
    LowBits(NonZero(MaskFrom(c.vout, 0)) - (if first || second then 0 else 1), c.coinBase, first, second);
  }

  lemma LowBits(m: int, coinBase: bool, first: bool, second: bool)
    requires m >= 0
    ensures var code := 8 * m + (if coinBase then 1 else 0) + (if first then 2 else 0) + (if second then 4 else 0);
      && FirstFlag(code) == first && SecondFlag(code) == second && (code % 2 == 1 <==> coinBase)
      && MaskCode(code) == m + if first || second then 0 else 1
  {
    var a, b, c := if coinBase then 1 else 0, if first then 1 else 0, if second then 1 else 0;
    var code := 8 * m + a + 2 * b + 4 * c;
    assert code == 2 * (4 * m + 2 * c + b) + a;
    assert code / 2 == 4 * m + 2 * c + b && code % 2 == a;
    assert 4 * m + 2 * c + b == 2 * (2 * m + c) + b;
    assert (4 * m + 2 * c + b) % 2 == b;
    assert code / 4 == 2 * m + c;
    assert (2 * m + c) % 2 == c;
    assert code / 8 == m;
  }

  /** The flags of the outputs from mask byte b on. */
  function AvailFrom(vout: seq<TxOut>, i: nat, n: nat): (r: seq<bool>)
    ensures |r| == n
  {
    seq(n, k requires 0 <= k => Avail(vout, i + k))
  }

  /** The mask is read back although its length is not written. */
  lemma {:induction false} MaskRoundTrip(vout: seq<TxOut>, b: nat, rest: seq<byte>)
    requires b <= MaskSize(vout)
    ensures var n := MaskSize(vout) - b;
      ParseMask(MaskFrom(vout, b) + rest, NonZero(MaskFrom(vout, b))) == Got(AvailFrom(vout, 2 + b * 8, 8 * n), rest)
    decreases MaskSize(vout) - b
  {
    hide MaskByte, LastUsed, ToBits, FromBits;
    var mask := MaskFrom(vout, b);
    if b == MaskSize(vout) {
      assert mask + rest == rest;
    } else {
      MaskRoundTrip(vout, b + 1, rest);
      var tail := MaskFrom(vout, b + 1);
      assert mask == [MaskByte(vout, b)] + tail;
      assert (mask + rest)[1..] == tail + rest && mask[1..] == tail;
      MaskNotEmpty(vout, b);
      MaskBits(vout, b);
      var n := MaskSize(vout) - b;
      assert Flags(vout, b) + AvailFrom(vout, 2 + (b + 1) * 8, 8 * (n - 1)) == AvailFrom(vout, 2 + b * 8, 8 * n);
    }
  }

  lemma MaskNotEmpty(vout: seq<TxOut>, b: nat)
    requires b < MaskSize(vout)
    ensures NonZero(MaskFrom(vout, b)) > 0
  {
    var n := MaskSize(vout) - b;
    assert MaskFrom(vout, b)[n - 1] == MaskByte(vout, b + n - 1);
    SomeNonZero(MaskFrom(vout, b), n - 1);
  }

  lemma MaskBits(vout: seq<TxOut>, b: nat)
    ensures ToBits(MaskByte(vout, b), 8) == Flags(vout, b)
  {
    BitsRoundTrip(Flags(vout, b));
  }

  /** An output as it comes back: nRounds is not stored. */
  function Restored(vout: seq<TxOut>, i: nat): (r: TxOut) {
    if Avail(vout, i) then vout[i].(rounds := NO_ROUNDS) else NULL_OUT
  }

  function RestoredFrom(vout: seq<TxOut>, i: nat, n: nat): (r: seq<TxOut>)
    ensures |r| == n
  {
    seq(n, k requires 0 <= k => Restored(vout, i + k))
  }

  lemma {:induction false} OutsRoundTrip(curve: Curve, vout: seq<TxOut>, i: nat, n: nat, rest: seq<byte>)
    requires Recovers(curve) && forall k :: 0 <= k < |vout| && !vout[k].IsNull() ==> vout[k].value >= 0
    requires forall k :: i + n <= k < |vout| ==> vout[k].IsNull()
    ensures ParseOuts(curve, OutsFrom(curve, vout, i) + rest, AvailFrom(vout, i, n)) == Got(RestoredFrom(vout, i, n), rest)
    decreases n
  {
    hide Recovers, WriteOut, ReadOut;
    if n == 0 {
      NoOuts(curve, vout, i);
      assert [] + rest == rest;
    } else {
      var tail := OutsFrom(curve, vout, i + 1) + rest;
      OutsRoundTrip(curve, vout, i + 1, n - 1, rest);
      assert AvailFrom(vout, i, n)[1..] == AvailFrom(vout, i + 1, n - 1);
      assert [Restored(vout, i)] + RestoredFrom(vout, i + 1, n - 1) == RestoredFrom(vout, i, n);
      if Avail(vout, i) {
        assert OutsFrom(curve, vout, i) + rest == WriteOut(curve, vout[i]) + tail;
        OutRoundTrip(curve, vout[i], tail);
      } else {
        SkippedOut(curve, vout, i);
      }
    }
  }

  lemma {:induction false} NoOuts(curve: Curve, vout: seq<TxOut>, i: nat)
    requires forall k :: i <= k < |vout| ==> vout[k].IsNull()
    requires forall k :: 0 <= k < |vout| && !vout[k].IsNull() ==> vout[k].value >= 0
    ensures OutsFrom(curve, vout, i) == []
    decreases |vout| - i
  {
    if i < |vout| {
      NoOuts(curve, vout, i + 1);
    }
  }

  lemma SkippedOut(curve: Curve, vout: seq<TxOut>, i: nat)
    requires !Avail(vout, i) && forall k :: 0 <= k < |vout| && !vout[k].IsNull() ==> vout[k].value >= 0
    ensures OutsFrom(curve, vout, i) == OutsFrom(curve, vout, i + 1)
  {
    if i < |vout| {
      assert [] + OutsFrom(curve, vout, i + 1) == OutsFrom(curve, vout, i + 1);
    }
  }

  /** No output beyond the mask is unspent. */
  lemma BeyondMask(vout: seq<TxOut>, k: nat)
    requires 2 + 8 * MaskSize(vout) <= k < |vout|
    ensures vout[k].IsNull()
  {
    var b, i := (k - 2) / 8, (k - 2) % 8;
    assert MaskByte(vout, b) == 0;
    assert Flags(vout, b)[i] == Avail(vout, 2 + b * 8 + i);
  }

  /** A number as VARINT keeps it. */
  function Kept(n: int): (r: nat) { if n <= 127 then n % 128 else n }

  /** The record that comes back. */
  function Reread(c: Coins): (r: Coins) {
    Cleanup(Coins(c.coinBase, RestoredFrom(c.vout, 0, 2 + 8 * MaskSize(c.vout)), Kept(c.height), Kept(c.version)))
  }

  /** Reading what was written consumes exactly those bytes. */
  lemma RecordRoundTrip(curve: Curve, c: Coins, rest: seq<byte>)
    requires Recovers(curve) && Storable(c)
    ensures ReadRecord(curve, Written(curve, c) + rest) == Got(Reread(c), rest)
  {
    hide Recovers, VarInt, ParseVar, MaskFrom, NonZero, ParseMask, ParseOuts, OutsFrom, AvailFrom, RestoredFrom, Cleanup, MaskSize, Code;
    hide FirstFlag, SecondFlag, MaskCode;
    var n := MaskSize(c.vout);
    var s4 := VarInt(c.height) + rest;
    var s3 := OutsFrom(curve, c.vout, 0) + s4;
    var s2 := MaskFrom(c.vout, 0) + s3;
    var s1 := VarInt(Code(c)) + s2;
    WrittenParts(curve, c, rest);
    SomethingUnspent(c);
    CodeParts(c);
    VarIntParses(c.version, s1);
    VarIntParses(Code(c), s2);
    assert Kept(Code(c)) == Code(c);
    MaskRoundTrip(c.vout, 0, s3);
    AllFlags(c.vout, n);
    forall k | 0 + (2 + 8 * n) <= k < |c.vout| ensures c.vout[k].IsNull() {
      BeyondMask(c.vout, k);
    }
    OutsRoundTrip(curve, c.vout, 0, 2 + 8 * n, s4);
    VarIntParses(c.height, rest);
  }

  lemma WrittenParts(curve: Curve, c: Coins, rest: seq<byte>)
    requires Storable(c)
    ensures Written(curve, c) + rest ==
      VarInt(c.version) + (VarInt(Code(c)) + (MaskFrom(c.vout, 0) + (OutsFrom(curve, c.vout, 0) + (VarInt(c.height) + rest))))
  {
    hide VarInt, Code, MaskFrom, OutsFrom;
  }

  lemma AllFlags(vout: seq<TxOut>, n: nat)
    ensures [Avail(vout, 0), Avail(vout, 1)] + AvailFrom(vout, 2, 8 * n) == AvailFrom(vout, 0, 2 + 8 * n)
  {
  }

  /** Nothing that the format leaves out is set. */
  predicate Plain(c: Coins) {
    c.version >= 0 && c.height >= 0 && forall i :: 0 <= i < |c.vout| && !c.vout[i].IsNull() ==> c.vout[i].rounds == NO_ROUNDS
  }

  /** A cleaned record survives exactly when its version and height are not negative and no output carries rounds. */
  lemma SurvivesIff(c: Coins)
    requires Storable(c) && c.Cleaned() && c.Tidy()
    ensures Reread(c) == c <==> Plain(c)
  {
    hide RestoredFrom, MaskSize, Storable;
    VoutBack(c);
    SameOutputsIff(c.vout);
  }

  /** After cleaning up, the outputs read back are as many as there were. */
  lemma VoutBack(c: Coins)
    requires c.Cleaned()
    ensures Trim(RestoredFrom(c.vout, 0, 2 + 8 * MaskSize(c.vout))) == RestoredFrom(c.vout, 0, |c.vout|)
  {
    hide MaskSize, Trim;
    var n := 2 + 8 * MaskSize(c.vout);
    if |c.vout| > n {
      BeyondMask(c.vout, |c.vout| - 1);
    }
    var v := RestoredFrom(c.vout, 0, n);
    TrimTo(v, |c.vout|);
    assert v[..|c.vout|] == RestoredFrom(c.vout, 0, |c.vout|);
  }

  lemma SameOutputsIff(vout: seq<TxOut>)
    requires forall i :: 0 <= i < |vout| && vout[i].IsNull() ==> vout[i] == NULL_OUT
    ensures RestoredFrom(vout, 0, |vout|) == vout <==> forall i :: 0 <= i < |vout| && !vout[i].IsNull() ==> vout[i].rounds == NO_ROUNDS
  {
    var v := RestoredFrom(vout, 0, |vout|);
    forall i | 0 <= i < |vout| ensures v[i] == vout[i] <==> (vout[i].IsNull() || vout[i].rounds == NO_ROUNDS) {
      assert v[i] == Restored(vout, i);
    }
    assert v == vout <==> forall i :: 0 <= i < |vout| ==> v[i] == vout[i];
  }

  lemma {:induction false} TrimTo(v: seq<TxOut>, n: nat)
    requires n <= |v| && (n > 0 ==> !v[n - 1].IsNull()) && forall i :: n <= i < |v| ==> v[i].IsNull()
    ensures Trim(v) == v[..n]
    decreases |v|
  {
    if n < |v| {
      TrimTo(v[..|v| - 1], n);
      assert v[..|v| - 1][..n] == v[..n];
    } else {
      assert v[..n] == v;
    }
  }

  /** A record as blocks make them: amounts in range, no rounds. */
  predicate OnChain(c: Coins) {
    && c.Cleaned() && c.Tidy() && Plain(c)
    && forall i :: 0 <= i < |c.vout| && !c.vout[i].IsNull() ==> 0 <= c.vout[i].value <= MAX_MONEY
  }

  lemma BuiltOnChain(tx: Transaction, height: nat)
    requires tx.version >= 0 && forall i :: 0 <= i < |tx.vout| ==> 0 <= tx.vout[i].value <= MAX_MONEY && tx.vout[i].rounds == NO_ROUNDS
    ensures OnChain(FromTx(tx, height))
  {
    var c := Coins(tx.IsCoinBase(), NullUnspendable(tx.vout), height, tx.version);
    assert c.Tidy();
    assert FromTx(tx, height) == Cleanup(c);
  }

  lemma SpentOnChain(c: Coins, n: nat)
    requires OnChain(c) && c.IsAvailable(n)
    ensures OnChain(Spend(c, n).value.0)
  {
    SpentRecord(c, n);
  }

  /** The record after some of its outputs have been spent, in order. */
  function AfterSpends(c: Coins, spent: seq<nat>): (r: Option<Coins>) {
    if spent == [] then Some(c)
    else
      match AfterSpends(c, spent[..|spent| - 1])
      case None => None
      case Some(d) => if d.IsAvailable(spent[|spent| - 1]) then Some(Spend(d, spent[|spent| - 1]).value.0) else None
  }

  lemma {:induction false} SpendsOnChain(c: Coins, spent: seq<nat>)
    requires OnChain(c) && AfterSpends(c, spent).Some?
    ensures OnChain(AfterSpends(c, spent).value)
  {
    hide OnChain;
    if spent != [] {
      SpendsOnChain(c, spent[..|spent| - 1]);
      SpentOnChain(AfterSpends(c, spent[..|spent| - 1]).value, spent[|spent| - 1]);
    }
  }

  /** What a transaction without rounds leaves, after any spends that do not use it up, comes back as it was. */
  lemma ChainRecordSurvives(tx: Transaction, height: nat, spent: seq<nat>)
    requires tx.version >= 0 && forall i :: 0 <= i < |tx.vout| ==> 0 <= tx.vout[i].value <= MAX_MONEY && tx.vout[i].rounds == NO_ROUNDS
    requires AfterSpends(FromTx(tx, height), spent).Some? && !AfterSpends(FromTx(tx, height), spent).value.IsPruned()
    ensures var c := AfterSpends(FromTx(tx, height), spent).value; Storable(c) && Reread(c) == c
  {
    hide FromTx, AfterSpends, Reread;
    BuiltOnChain(tx, height);
    SpendsOnChain(FromTx(tx, height), spent);
    SurvivesIff(AfterSpends(FromTx(tx, height), spent).value);
  }

  /** Rounds are lost: a record that does not come back. */
  lemma RoundsAreLost()
    ensures var c := Coins(false, [TxOut(5, 2, [])], 1, 1);
      Storable(c) && c.Cleaned() && c.Tidy() && Reread(c) != c
  {
    var c := Coins(false, [TxOut(5, 2, [])], 1, 1);
    assert !c.vout[0].IsNull();
    SurvivesIff(c);
  }

  /** CCoins written and read back. */
  method StoreAndLoad(curve: Curve, c: Coins) returns (r: Parsed<Coins>)
    requires Recovers(curve) && Storable(c) && c.Cleaned() && c.Tidy()
    ensures r.Got? && r.rest == [] && (r.value == c <==> Plain(c))
  {
    hide Written, ReadRecord, Reread, Storable, Plain, Recovers;
    var s := Serialize(curve, c);
    r := Unserialize(curve, s);
    assert s + [] == s;
    RecordRoundTrip(curve, c, []);
    SurvivesIff(c);
  }
}
