/**
  The two examples in the description of the stored form (src/coins.h:67-99), byte by byte, for any
  key hashes.
*/
module DocumentedRecords {
  import opened Primitives
  import opened CoinsModel
  import opened BitStrings
  import opened OutputCodec
  import opened CoinsCodec

  /** A payment to a key hash. */
  function ToKeyId(id: seq<byte>): (r: seq<byte>) { [OP_DUP, OP_HASH160, 20] + id + [OP_EQUALVERIFY, OP_CHECKSIG] }

  lemma OutWritten(curve: Curve, value: nat, id: seq<byte>, code: nat)
    requires |id| == 20 && Compress(value) == code
    ensures WriteOut(curve, TxOut(value, NO_ROUNDS, ToKeyId(id))) == VarInt(code) + ([0] + id)
  {
    hide VarInt, Compress;
    assert ToKeyId(id)[3..23] == id;
  }

  lemma Numbers()
    ensures VarInt(1) == [1] && VarInt(4) == [4] && VarInt(9) == [9]
    ensures VarInt(203_998) == [0x8b, 0xb8, 0x5e]
    ensures VarInt(120_891) == [0x86, 0xaf, 0x3b]
  {
    assert VarHigh(11) == [0x8b] && VarHigh(1592) == VarHigh(11) + [0xb8];
    assert VarHigh(6) == [0x86] && VarHigh(943) == VarHigh(6) + [0xaf];
  }

  lemma FirstAmount()
    ensures Compress(60_000_000_000) == 600 && VarInt(600) == [0x83, 0x58]
  {
    assert Strip(60_000_000_000, 0) == Strip(600_000_000, 2) == Strip(6_000_000, 4) == Strip(60_000, 6) == Strip(600, 8) == (60, 9);
    assert VarHigh(3) == [0x83];
  }

  lemma SecondAmount()
    ensures Compress(234_925_952) == 2_114_333_561 && VarInt(2_114_333_561) == [0x86, 0xef, 0x97, 0xd5, 0x79]
  {
    assert VarHigh(6) == [0x86];
    assert VarHigh(1007) == [0x86] + [0xef];
    assert VarHigh(129_047) == [0x86, 0xef] + [0x97];
    assert VarHigh(16_518_229) == [0x86, 0xef, 0x97] + [0xd5];
  }

  lemma ThirdAmount()
    ensures Compress(110_397) == 993_571 && VarInt(993_571) == [0xbb, 0xd1, 0x23]
  {
    assert VarHigh(59) == [0xbb];
    assert VarHigh(7761) == [0xbb] + [0xd1];
  }

  lemma WrittenFrom(curve: Curve, c: Coins, version: seq<byte>, code: seq<byte>, mask: seq<byte>, outs: seq<byte>, height: seq<byte>)
    requires Storable(c) && VarInt(c.version) == version && VarInt(Code(c)) == code && MaskFrom(c.vout, 0) == mask
    requires OutsFrom(curve, c.vout, 0) == outs && VarInt(c.height) == height
    ensures Written(curve, c) == version + (code + (mask + (outs + height)))
  {
    hide VarInt, Code, MaskFrom, OutsFrom;
  }

  /** The first example: only the second output, of 600 coins, is unspent. */
  lemma FirstExample(curve: Curve, id: seq<byte>)
    requires |id| == 20
    ensures var c := Coins(false, [NULL_OUT, TxOut(60_000_000_000, NO_ROUNDS, ToKeyId(id))], 203_998, 1);
      Storable(c) && Written(curve, c) == [0x01, 0x04, 0x83, 0x58, 0x00] + id + [0x8b, 0xb8, 0x5e]
  {
    var c := Coins(false, [NULL_OUT, TxOut(60_000_000_000, NO_ROUNDS, ToKeyId(id))], 203_998, 1);
    FirstAmount();
    Numbers();
    OutWritten(curve, 60_000_000_000, id, 600);
    hide WriteOut, VarInt, Compress, ToKeyId, Written;
    assert !c.vout[1].IsNull();
    assert MaskSize(c.vout) == 0 && MaskFrom(c.vout, 0) == [] && Code(c) == 4;
    assert OutsFrom(curve, c.vout, 2) == [];
    assert OutsFrom(curve, c.vout, 0) == OutsFrom(curve, c.vout, 1) == WriteOut(curve, c.vout[1]);
    WrittenFrom(curve, c, [1], [4], [], [0x83, 0x58] + ([0] + id), [0x8b, 0xb8, 0x5e]);
    FirstJoined(id);
  }

  lemma FirstJoined(id: seq<byte>)
    ensures [1] + ([4] + ([] + (([0x83, 0x58] + ([0] + id)) + [0x8b, 0xb8, 0x5e]))) == [0x01, 0x04, 0x83, 0x58, 0x00] + id + [0x8b, 0xb8, 0x5e]
  {
  }

  /** Seventeen outputs of which the fifth and the last are unspent. */
  function Sparse(a: TxOut, b: TxOut): (r: seq<TxOut>) { seq(17, i => if i == 4 then a else if i == 16 then b else NULL_OUT) }

  lemma {:induction false} SkipNulls(curve: Curve, vout: seq<TxOut>, i: nat, j: nat)
    requires forall k :: 0 <= k < |vout| && !vout[k].IsNull() ==> vout[k].value >= 0
    requires i <= j <= |vout| && forall k :: i <= k < j ==> vout[k].IsNull()
    ensures OutsFrom(curve, vout, i) == OutsFrom(curve, vout, j)
    decreases j - i
  {
    hide WriteOut;
    if i < j {
      SkipNulls(curve, vout, i + 1, j);
    }
  }

  lemma MaskOf(a: TxOut, b: TxOut)
    requires !a.IsNull() && !b.IsNull()
    ensures MaskFrom(Sparse(a, b), 0) == [0x04, 0x40]
  {
    var vout := Sparse(a, b);
    var low, high := Flags(vout, 0), Flags(vout, 1);
    forall i | 0 <= i < 8 ensures low[i] == (i == 2) && high[i] == (i == 6) {
      assert low[i] == Avail(vout, 2 + i) && high[i] == Avail(vout, 10 + i);
    }
    OneBit(2);
    OneBit(6);
    assert low == Bit(2) && high == Bit(6);
    assert MaskByte(vout, 0) == 4 && MaskByte(vout, 1) == 64;
    assert MaskSize(vout) == 2;
  }

  function Bit(n: nat): (r: seq<bool>) { seq(8, i => i == n) }

  lemma OneBit(n: nat)
    requires n < 8
    ensures FromBits(Bit(n)) == Pow2(n) && Pow2(2) == 4 && Pow2(6) == 64
  {
    var zeros, rest := seq(n, i => false), seq(7 - n, i => false);
    assert Bit(n) == zeros + [true] + rest;
    BitsSnoc(zeros, true);
    TrailingZeros(zeros + [true], rest);
    assert FromBits(zeros) == 0;
    assert Pow2(2) == 4;
    assert Pow2(6) == 64;
  }

  lemma {:induction false} TrailingZeros(f: seq<bool>, zeros: seq<bool>)
    requires forall i :: 0 <= i < |zeros| ==> !zeros[i]
    ensures FromBits(f + zeros) == FromBits(f)
  {
    if zeros == [] {
      assert f + zeros == f;
    } else {
      var k := |zeros| - 1;
      TrailingZeros(f, zeros[..k]);
      BitsSnoc(f + zeros[..k], false);
      assert f + zeros == f + zeros[..k] + [false];
    }
  }

  /** The second example: a coinbase of which outputs 4 and 16 are unspent. */
  lemma SecondExample(curve: Curve, id4: seq<byte>, id16: seq<byte>)
    requires |id4| == 20 && |id16| == 20
    ensures var a, b := TxOut(234_925_952, NO_ROUNDS, ToKeyId(id4)), TxOut(110_397, NO_ROUNDS, ToKeyId(id16));
      var c := Coins(true, Sparse(a, b), 120_891, 1);
      && Storable(c)
      && Written(curve, c) == [0x01, 0x09, 0x04, 0x40] + ([0x86, 0xef, 0x97, 0xd5, 0x79, 0x00] + id4)
                              + ([0xbb, 0xd1, 0x23, 0x00] + id16) + [0x86, 0xaf, 0x3b]
  {
    var a, b := TxOut(234_925_952, NO_ROUNDS, ToKeyId(id4)), TxOut(110_397, NO_ROUNDS, ToKeyId(id16));
    SecondAmount();
    ThirdAmount();
    Numbers();
    OutWritten(curve, 234_925_952, id4, 2_114_333_561);
    OutWritten(curve, 110_397, id16, 993_571);
    hide WriteOut, VarInt, Compress, ToKeyId, Written, Sparse, MaskFrom, Code, OutsFrom, Storable;
    MaskOf(a, b);
    SparseOuts(curve, a, b);
    SecondCode(a, b);
    var x, y := [0x86, 0xef, 0x97, 0xd5, 0x79] + ([0] + id4), [0xbb, 0xd1, 0x23] + ([0] + id16);
    WrittenFrom(curve, Coins(true, Sparse(a, b), 120_891, 1), [1], [9], [0x04, 0x40], x + y, [0x86, 0xaf, 0x3b]);
    SecondJoined(id4, id16);
  }

  lemma SecondCode(a: TxOut, b: TxOut)
    requires 0 <= a.value <= MAX_MONEY && 0 <= b.value <= MAX_MONEY && MaskFrom(Sparse(a, b), 0) == [0x04, 0x40]
    ensures var c := Coins(true, Sparse(a, b), 120_891, 1); Code(c) == 9 && Storable(c)
  {
    hide MaskFrom;
    TwoNonZero();
    assert !Sparse(a, b)[4].IsNull();
  }

  lemma SecondJoined(id4: seq<byte>, id16: seq<byte>)
    ensures var x, y := [0x86, 0xef, 0x97, 0xd5, 0x79] + ([0] + id4), [0xbb, 0xd1, 0x23] + ([0] + id16);
      [1] + ([9] + ([0x04, 0x40] + ((x + y) + [0x86, 0xaf, 0x3b]))) ==
      [0x01, 0x09, 0x04, 0x40] + ([0x86, 0xef, 0x97, 0xd5, 0x79, 0x00] + id4) + ([0xbb, 0xd1, 0x23, 0x00] + id16) + [0x86, 0xaf, 0x3b]
  {
    var x, y := [0x86, 0xef, 0x97, 0xd5, 0x79] + ([0] + id4), [0xbb, 0xd1, 0x23] + ([0] + id16);
    assert x == [0x86, 0xef, 0x97, 0xd5, 0x79, 0x00] + id4;
    assert y == [0xbb, 0xd1, 0x23, 0x00] + id16;
    Flat(x, y, [0x86, 0xaf, 0x3b]);
  }

  lemma Flat(x: seq<byte>, y: seq<byte>, z: seq<byte>)
    ensures [1] + ([9] + ([0x04, 0x40] + ((x + y) + z))) == [0x01, 0x09, 0x04, 0x40] + x + y + z
  {
  }

  lemma TwoNonZero()
    ensures NonZero([0x04, 0x40]) == 2
  {
    assert [0x04, 0x40][1..] == [0x40] && [0x40][1..] == [];
  }

  lemma SparseOuts(curve: Curve, a: TxOut, b: TxOut)
    requires a.value >= 0 && b.value >= 0
    ensures OutsFrom(curve, Sparse(a, b), 0) == WriteOut(curve, a) + WriteOut(curve, b)
  {
    hide WriteOut;
    var vout := Sparse(a, b);
    SkipNulls(curve, vout, 0, 4);
    SkipNulls(curve, vout, 5, 16);
    assert OutsFrom(curve, vout, 17) == [];
    assert OutsFrom(curve, vout, 16) == WriteOut(curve, b);
  }
}
