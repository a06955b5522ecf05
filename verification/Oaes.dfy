/**
 oaes_lib.c: the block transformations in place on a byte buffer, the block cipher made of them,
 and whole messages with header, chaining and padding, which decryption undoes.
 */
module Oaes {
  import opened Words
  import opened AesTables
  import opened Aes
  import opened AesFast

  // ----- the transformations in place, on the sixteen bytes from `off` -----

  ghost function StateAt(c: seq<Byte>, off: nat): State
    requires off + 16 <= |c|
  {
    c[off..off + 16]
  }

  // Everything outside the sixteen bytes is as before.
  ghost predicate SameOutside(c: seq<Byte>, d: seq<Byte>, off: nat)
  {
    |c| == |d| && forall k :: 0 <= k < |c| && !(off <= k < off + 16) ==> c[k] == d[k]
  }

  method SubBytesInPlace(c: array<Byte>, off: nat)
    requires off + 16 <= c.Length
    modifies c
    ensures SameOutside(old(c[..]), c[..], off)
    ensures StateAt(c[..], off) == SubBytes(StateAt(old(c[..]), off))
  {
    hide SubByte;
    for j := 0 to 16
      invariant SameOutside(old(c[..]), c[..], off)
      invariant forall k :: off <= k < off + j ==> c[k] == SubByte(old(c[..])[k])
      invariant forall k :: off + j <= k < off + 16 ==> c[k] == old(c[..])[k]
    {
      c[off + j] := SubByte(c[off + j]);
    }
  }

  method InvSubBytesInPlace(c: array<Byte>, off: nat)
    requires off + 16 <= c.Length
    modifies c
    ensures SameOutside(old(c[..]), c[..], off)
    ensures StateAt(c[..], off) == InvSubBytes(StateAt(old(c[..]), off))
  {
    hide InvSubByte;
    for j := 0 to 16
      invariant SameOutside(old(c[..]), c[..], off)
      invariant forall k :: off <= k < off + j ==> c[k] == InvSubByte(old(c[..])[k])
      invariant forall k :: off + j <= k < off + 16 ==> c[k] == old(c[..])[k]
    {
      c[off + j] := InvSubByte(c[off + j]);
    }
  }

  method AddRoundKeyInPlace(c: array<Byte>, off: nat, exp: seq<Byte>, round: nat)
    requires off + 16 <= c.Length && 16 * (round + 1) <= |exp|
    modifies c
    ensures SameOutside(old(c[..]), c[..], off)
    ensures StateAt(c[..], off) == AddRoundKey(StateAt(old(c[..]), off), RoundKey(exp, round))
  {
    hide XorByte;
    for j := 0 to 16
      invariant SameOutside(old(c[..]), c[..], off)
      invariant forall k :: off <= k < off + j ==> c[k] == XorByte(old(c[..])[k], RoundKey(exp, round)[k - off])
      invariant forall k :: off + j <= k < off + 16 ==> c[k] == old(c[..])[k]
    {
      c[off + j] := XorByte(c[off + j], exp[16 * round + j]);
    }
  }

  // memcpy of a sixteen-byte temporary over the block.
  method StoreBlock(c: array<Byte>, off: nat, temp: seq<Byte>)
    requires off + 16 <= c.Length && |temp| == 16
    modifies c
    ensures SameOutside(old(c[..]), c[..], off)
    ensures StateAt(c[..], off) == temp
  {
    for j := 0 to 16
      invariant SameOutside(old(c[..]), c[..], off)
      invariant forall k :: off <= k < off + j ==> c[k] == temp[k - off]
    {
      c[off + j] := temp[j];
    }
  }

  method ShiftRowsInPlace(c: array<Byte>, off: nat)
    requires off + 16 <= c.Length
    modifies c
    ensures SameOutside(old(c[..]), c[..], off)
    ensures StateAt(c[..], off) == ShiftRows(StateAt(old(c[..]), off))
  {
    var block := c[off..off + 16];
    var temp := [block[0x00], block[0x05], block[0x0a], block[0x0f],
                 block[0x04], block[0x09], block[0x0e], block[0x03],
                 block[0x08], block[0x0d], block[0x02], block[0x07],
                 block[0x0c], block[0x01], block[0x06], block[0x0b]];
    ShiftRowsByHand(block, temp);
    StoreBlock(c, off, temp);
  }

  method InvShiftRowsInPlace(c: array<Byte>, off: nat)
    requires off + 16 <= c.Length
    modifies c
    ensures SameOutside(old(c[..]), c[..], off)
    ensures StateAt(c[..], off) == InvShiftRows(StateAt(old(c[..]), off))
  {
    var block := c[off..off + 16];
    var temp := [block[0x00], block[0x0d], block[0x0a], block[0x07],
                 block[0x04], block[0x01], block[0x0e], block[0x0b],
                 block[0x08], block[0x05], block[0x02], block[0x0f],
                 block[0x0c], block[0x09], block[0x06], block[0x03]];
    InvShiftRowsByHand(block, temp);
    StoreBlock(c, off, temp);
  }

  lemma ShiftRowsByHand(b: State, t: State)
    requires t == [b[0x00], b[0x05], b[0x0a], b[0x0f], b[0x04], b[0x09], b[0x0e], b[0x03],
                   b[0x08], b[0x0d], b[0x02], b[0x07], b[0x0c], b[0x01], b[0x06], b[0x0b]]
    ensures t == ShiftRows(b)
  {
    forall i | 0 <= i < 16
      ensures t[i] == ShiftRows(b)[i]
    {
      assert i == 0 || i == 1 || i == 2 || i == 3 || i == 4 || i == 5 || i == 6 || i == 7
        || i == 8 || i == 9 || i == 10 || i == 11 || i == 12 || i == 13 || i == 14 || i == 15;
    }
  }

  lemma InvShiftRowsByHand(b: State, t: State)
    requires t == [b[0x00], b[0x0d], b[0x0a], b[0x07], b[0x04], b[0x01], b[0x0e], b[0x0b],
                   b[0x08], b[0x05], b[0x02], b[0x0f], b[0x0c], b[0x09], b[0x06], b[0x03]]
    ensures t == InvShiftRows(b)
  {
    forall i | 0 <= i < 16
      ensures t[i] == InvShiftRows(b)[i]
    {
      assert i == 0 || i == 1 || i == 2 || i == 3 || i == 4 || i == 5 || i == 6 || i == 7
        || i == 8 || i == 9 || i == 10 || i == 11 || i == 12 || i == 13 || i == 14 || i == 15;
    }
  }

  // oaes_mix_cols on one column, as written out there.
  function MixColumn(w: seq<Byte>): (t: seq<Byte>)
    requires |w| == 4
    ensures |t| == 4
  {
    [XorByte(XorByte(XorByte(GfMul2(w[0]), GfMul3(w[1])), w[2]), w[3]),
     XorByte(XorByte(XorByte(w[0], GfMul2(w[1])), GfMul3(w[2])), w[3]),
     XorByte(XorByte(XorByte(w[0], w[1]), GfMul2(w[2])), GfMul3(w[3])),
     XorByte(XorByte(XorByte(GfMul3(w[0]), w[1]), w[2]), GfMul2(w[3]))]
  }

  // oaes_inv_mix_cols
  function InvMixColumn(w: seq<Byte>): (t: seq<Byte>)
    requires |w| == 4
    ensures |t| == 4
  {
    [XorByte(XorByte(XorByte(GfMulE(w[0]), GfMulB(w[1])), GfMulD(w[2])), GfMul9(w[3])),
     XorByte(XorByte(XorByte(GfMul9(w[0]), GfMulE(w[1])), GfMulB(w[2])), GfMulD(w[3])),
     XorByte(XorByte(XorByte(GfMulD(w[0]), GfMul9(w[1])), GfMulE(w[2])), GfMulB(w[3])),
     XorByte(XorByte(XorByte(GfMulB(w[0]), GfMulD(w[1])), GfMul9(w[2])), GfMulE(w[3]))]
  }

  lemma XorNestedRotations(p: Byte, q: Byte, r: Byte, s: Byte)
    ensures XorByte(XorByte(XorByte(p, q), r), s) == Xor4(p, q, r, s)
    ensures Xor4(p, q, r, s) == Xor4(q, r, s, p) == Xor4(r, s, p, q) == Xor4(s, p, q, r)
  {
    hide XorByte, Xor4;
    XorNested(p, q, r, s);
    Xor4Rotate(p, q, r, s);
  }

  lemma MixColumnBytes(w: seq<Byte>)
    requires |w| == 4
    ensures MixColumn(w) == [MixByte(w[0], w[1], w[2], w[3]), MixByte(w[1], w[2], w[3], w[0]),
                             MixByte(w[2], w[3], w[0], w[1]), MixByte(w[3], w[0], w[1], w[2])]
  {
    hide XorByte, Xor4, GfMul2, GfMul3;
    XorNestedRotations(GfMul2(w[0]), GfMul3(w[1]), w[2], w[3]);
    XorNestedRotations(w[0], GfMul2(w[1]), GfMul3(w[2]), w[3]);
    XorNestedRotations(w[0], w[1], GfMul2(w[2]), GfMul3(w[3]));
    XorNestedRotations(GfMul3(w[0]), w[1], w[2], GfMul2(w[3]));
  }

  lemma InvMixColumnBytes(w: seq<Byte>)
    requires |w| == 4
    ensures InvMixColumn(w) == [InvMixByte(w[0], w[1], w[2], w[3]), InvMixByte(w[1], w[2], w[3], w[0]),
                                InvMixByte(w[2], w[3], w[0], w[1]), InvMixByte(w[3], w[0], w[1], w[2])]
  {
    hide XorByte, Xor4, GfMul9, GfMulB, GfMulD, GfMulE;
    XorNestedRotations(GfMulE(w[0]), GfMulB(w[1]), GfMulD(w[2]), GfMul9(w[3]));
    XorNestedRotations(GfMul9(w[0]), GfMulE(w[1]), GfMulB(w[2]), GfMulD(w[3]));
    XorNestedRotations(GfMulD(w[0]), GfMul9(w[1]), GfMulE(w[2]), GfMulB(w[3]));
    XorNestedRotations(GfMulB(w[0]), GfMulD(w[1]), GfMul9(w[2]), GfMulE(w[3]));
  }

  ghost function ColumnOf(b: State, c: nat): (w: seq<Byte>)
    requires c < 4
    ensures |w| == 4
  {
    b[4 * c..4 * c + 4]
  }

  lemma ColumnByte(b: State, r: nat, c: nat)
    requires r < 4 && c < 4
    ensures b[At(r, c)] == ColumnOf(b, c)[r]
  {
  }

  // A byte and the ones below it in its column.
  lemma ColumnBytes(b: State, i: nat)
    requires i < 16
    ensures var (w, r) := (ColumnOf(b, Column(i)), Row(i));
            b[i] == w[r] && b[Below(i, 1)] == w[Turn(r, 1)] && b[Below(i, 2)] == w[Turn(r, 2)] &&
                b[Below(i, 3)] == w[Turn(r, 3)]
  {
    hide Turn, At, Row, Column, ColumnOf;
    var r, c := Row(i), Column(i);
    AtOf(i);
    ColumnByte(b, r, c);
    ColumnByte(b, Turn(r, 1), c);
    ColumnByte(b, Turn(r, 2), c);
    ColumnByte(b, Turn(r, 3), c);
  }

  lemma MixColumnsFromColumns(b: State, t: State)
    requires forall c :: 0 <= c < 4 ==> ColumnOf(t, c) == MixColumn(ColumnOf(b, c))
    ensures t == MixColumns(b)
  {
    hide MixByte, MixColumn, ColumnOf, Below, At, Row, Column;
    forall i | 0 <= i < 16
      ensures t[i] == MixColumns(b)[i]
    {
      MixColumnBytes(ColumnOf(b, Column(i)));
      ColumnBytes(b, i);
      ColumnByte(t, Row(i), Column(i));
      AtOf(i);
      assert Row(i) == 0 || Row(i) == 1 || Row(i) == 2 || Row(i) == 3;
    }
  }

  lemma InvMixColumnsFromColumns(b: State, t: State)
    requires forall c :: 0 <= c < 4 ==> ColumnOf(t, c) == InvMixColumn(ColumnOf(b, c))
    ensures t == InvMixColumns(b)
  {
    hide InvMixByte, InvMixColumn, ColumnOf, Below, At, Row, Column;
    forall i | 0 <= i < 16
      ensures t[i] == InvMixColumns(b)[i]
    {
      InvMixColumnBytes(ColumnOf(b, Column(i)));
      ColumnBytes(b, i);
      ColumnByte(t, Row(i), Column(i));
      AtOf(i);
      assert Row(i) == 0 || Row(i) == 1 || Row(i) == 2 || Row(i) == 3;
    }
  }

  // The four calls work on four columns that do not overlap, so their results are stored together.
  method MixColumnsInPlace(c: array<Byte>, off: nat)
    requires off + 16 <= c.Length
    modifies c
    ensures SameOutside(old(c[..]), c[..], off)
    ensures StateAt(c[..], off) == MixColumns(StateAt(old(c[..]), off))
  {
    hide MixColumn, MixColumns;
    var b := c[off..off + 16];
    var t := MixColumn(b[0..4]) + MixColumn(b[4..8]) + MixColumn(b[8..12]) + MixColumn(b[12..16]);
    StoreBlock(c, off, t);
    assert ColumnOf(t, 0) == MixColumn(ColumnOf(b, 0)) && ColumnOf(t, 1) == MixColumn(ColumnOf(b, 1));
    assert ColumnOf(t, 2) == MixColumn(ColumnOf(b, 2)) && ColumnOf(t, 3) == MixColumn(ColumnOf(b, 3));
    MixColumnsFromColumns(b, t);
  }

  method InvMixColumnsInPlace(c: array<Byte>, off: nat)
    requires off + 16 <= c.Length
    modifies c
    ensures SameOutside(old(c[..]), c[..], off)
    ensures StateAt(c[..], off) == InvMixColumns(StateAt(old(c[..]), off))
  {
    hide InvMixColumn, InvMixColumns;
    var b := c[off..off + 16];
    var t := InvMixColumn(b[0..4]) + InvMixColumn(b[4..8]) + InvMixColumn(b[8..12]) + InvMixColumn(b[12..16]);
    StoreBlock(c, off, t);
    assert ColumnOf(t, 0) == InvMixColumn(ColumnOf(b, 0)) && ColumnOf(t, 1) == InvMixColumn(ColumnOf(b, 1));
    assert ColumnOf(t, 2) == InvMixColumn(ColumnOf(b, 2)) && ColumnOf(t, 3) == InvMixColumn(ColumnOf(b, 3));
    InvMixColumnsFromColumns(b, t);
  }

  // ----- whole blocks in place -----

  method EncryptBlockInPlace(c: array<Byte>, off: nat, exp: seq<Byte>, numKeys: nat)
    requires off + 16 <= c.Length && numKeys >= 2 && |exp| >= 16 * numKeys
    modifies c
    ensures SameOutside(old(c[..]), c[..], off)
    ensures StateAt(c[..], off) == EncryptBlock(StateAt(old(c[..]), off), exp, numKeys)
  {
    hide SubBytes, ShiftRows, MixColumns, AddRoundKey, StateAt, RoundKey;
    ghost var s := StateAt(c[..], off);
    AddRoundKeyInPlace(c, off, exp, 0);
    for i := 1 to numKeys - 1
      invariant SameOutside(old(c[..]), c[..], off)
      invariant StateAt(c[..], off) == EncryptRounds(s, exp, i - 1)
    {
      SubBytesInPlace(c, off);
      ShiftRowsInPlace(c, off);
      MixColumnsInPlace(c, off);
      AddRoundKeyInPlace(c, off, exp, i);
    }
    SubBytesInPlace(c, off);
    ShiftRowsInPlace(c, off);
    AddRoundKeyInPlace(c, off, exp, numKeys - 1);
  }

  method DecryptBlockInPlace(c: array<Byte>, off: nat, exp: seq<Byte>, numKeys: nat)
    requires off + 16 <= c.Length && numKeys >= 2 && |exp| >= 16 * numKeys
    modifies c
    ensures SameOutside(old(c[..]), c[..], off)
    ensures StateAt(c[..], off) == DecryptBlock(StateAt(old(c[..]), off), exp, numKeys)
  {
    hide InvSubBytes, InvShiftRows, InvMixColumns, AddRoundKey, StateAt, RoundKey;
    ghost var s := StateAt(c[..], off);
    AddRoundKeyInPlace(c, off, exp, numKeys - 1);
    var i := numKeys - 2;
    while i > 0
      invariant 0 <= i <= numKeys - 2
      invariant SameOutside(old(c[..]), c[..], off)
      invariant DecryptRounds(StateAt(c[..], off), exp, i) == DecryptBlock(s, exp, numKeys)
    {
      InvShiftRowsInPlace(c, off);
      InvSubBytesInPlace(c, off);
      AddRoundKeyInPlace(c, off, exp, i);
      InvMixColumnsInPlace(c, off);
      i := i - 1;
    }
    InvShiftRowsInPlace(c, off);
    InvSubBytesInPlace(c, off);
    AddRoundKeyInPlace(c, off, exp, 0);
  }

  // oaes_encryption_round on the block at `off`.
  method EncryptionRoundInPlace(c: array<Byte>, off: nat, exp: seq<Byte>, round: nat)
    requires off + 16 <= c.Length && |exp| >= 16 * (round + 1)
    modifies c
    ensures SameOutside(old(c[..]), c[..], off)
    ensures StateAt(c[..], off) == AesRound(StateAt(old(c[..]), off), RoundKey(exp, round))
  {
    hide SubBytes, ShiftRows, MixColumns, AddRoundKey, StateAt, RoundKey;
    SubBytesInPlace(c, off);
    ShiftRowsInPlace(c, off);
    MixColumnsInPlace(c, off);
    AddRoundKeyInPlace(c, off, exp, round);
  }

  // oaes_pseudo_encrypt_ecb: the ten rounds that aesb_pseudo_round does by tables.
  method PseudoEncryptInPlace(c: array<Byte>, off: nat, exp: seq<Byte>)
    requires off + 16 <= c.Length && |exp| >= 160
    modifies c
    ensures SameOutside(old(c[..]), c[..], off)
    ensures StateAt(c[..], off) == PseudoRounds(StateAt(old(c[..]), off), exp, 10)
  {
    hide StateAt, RoundKey, AesRound;
    for i := 0 to 10
      invariant SameOutside(old(c[..]), c[..], off)
      invariant StateAt(c[..], off) == PseudoRounds(StateAt(old(c[..]), off), exp, i)
    {
      EncryptionRoundInPlace(c, off, exp, i);
    }
  }
}
