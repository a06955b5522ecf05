/**
 The round by tables (aesb.c) and the round re-sliced for the ARM instructions (slow-hash.c),
 proved to be the round of FIPS 197; and the ten-round "pseudo" encryption built from it.
 */
module AesFast {
  import opened Words
  import opened Words32
  import opened AesTables
  import opened Aes

  // ----- 32-bit columns -----

  lemma BytesOfSum32(x: bv32, y: bv32)
    ensures LittleByte(x ^ y, 0) == XorByte(LittleByte(x, 0), LittleByte(y, 0))
    ensures LittleByte(x ^ y, 1) == XorByte(LittleByte(x, 1), LittleByte(y, 1))
    ensures LittleByte(x ^ y, 2) == XorByte(LittleByte(x, 2), LittleByte(y, 2))
    ensures LittleByte(x ^ y, 3) == XorByte(LittleByte(x, 3), LittleByte(y, 3))
  {
  }

  lemma BytesOfXor32(x: bv32, y: bv32)
    ensures LittleByte(Xor32(x, y), 0) == XorByte(LittleByte(x, 0), LittleByte(y, 0))
    ensures LittleByte(Xor32(x, y), 1) == XorByte(LittleByte(x, 1), LittleByte(y, 1))
    ensures LittleByte(Xor32(x, y), 2) == XorByte(LittleByte(x, 2), LittleByte(y, 2))
    ensures LittleByte(Xor32(x, y), 3) == XorByte(LittleByte(x, 3), LittleByte(y, 3))
  {
    hide LittleByte, XorByte;
    BytesOfSum32(x, y);
  }

  // ----- the tables of aesb.c -----

  // The macro f2, on the integer promotion of a byte.
  function F2(x: bv32): bv32 {
    (x << 1) ^ (((x >> 7) & 1) * 0x11b)
  }

  function F3(x: bv32): bv32 {
    F2(x) ^ x
  }

  function Bytes2Word(b0: bv32, b1: bv32, b2: bv32, b3: bv32): bv32 {
    (b3 << 24) | (b2 << 16) | (b1 << 8) | b0
  }

  // The macros u0 to u3.
  function U(r: nat, p: bv32): bv32
    requires r < 4
  {
    if r == 0 then Bytes2Word(F2(p), p, p, F3(p))
    else if r == 1 then Bytes2Word(F3(p), F2(p), p, p)
    else if r == 2 then Bytes2Word(p, F3(p), F2(p), p)
    else Bytes2Word(p, p, F3(p), F2(p))
  }

  // Entry `b` of table r of t_fn.
  function Table(r: nat, b: Byte): bv32
    requires r < 4
  {
    U(r, SubByte(b) as bv32)
  }

  // four_tables for column c, with fwd_var choosing column c + r for row r.
  function FourTables(x: seq<bv32>, c: nat): bv32
    requires |x| == 4 && c < 4
  {
    Xor32(Xor32(Xor32(Table(0, LittleByte(x[c], 0)), Table(1, LittleByte(x[Turn(c, 1)], 1))),
                Table(2, LittleByte(x[Turn(c, 2)], 2))), Table(3, LittleByte(x[Turn(c, 3)], 3)))
  }

  // fwd_rnd on all four columns.
  function TableRound(x: seq<bv32>, k: seq<bv32>): (y: seq<bv32>)
    requires |x| == 4 && |k| == 4
    ensures |y| == 4
  {
    seq(4, c requires 0 <= c < 4 => Xor32(k[c], FourTables(x, c)))
  }

  // state_in: the columns of a state as little-endian words.
  function Columns(s: State): (x: seq<bv32>)
    ensures |x| == 4
  {
    seq(4, c requires 0 <= c < 4 => LittleWord(s[At(0, c)], s[At(1, c)], s[At(2, c)], s[At(3, c)]))
  }

  // state_out
  function StateOf(x: seq<bv32>): State
    requires |x| == 4
  {
    seq(16, i requires 0 <= i < 16 => LittleByte(x[Column(i)], Row(i)))
  }

  lemma StateOfColumns(s: State)
    ensures StateOf(Columns(s)) == s
  {
    hide LittleWord, LittleByte, At, Row, Column;
    forall i | 0 <= i < 16
      ensures StateOf(Columns(s))[i] == s[i]
    {
      AtOf(i);
      var c := Column(i);
      BytesOfLittle(s[At(0, c)], s[At(1, c)], s[At(2, c)], s[At(3, c)]);
    }
  }

  lemma F2IsGfMul2(b: Byte)
    ensures F2(b as bv32) == GfMul2(b) as bv32
  {
  }

  lemma F3IsGfMul3(b: Byte)
    ensures F3(b as bv32) == GfMul3(b) as bv32
  {
  }

  lemma Bytes2WordIsLittle(b0: Byte, b1: Byte, b2: Byte, b3: Byte)
    ensures Bytes2Word(b0 as bv32, b1 as bv32, b2 as bv32, b3 as bv32) == LittleWord(b0, b1, b2, b3)
  {
  }

  // Each macro is one column of the MixColumns matrix, scaled.
  lemma UColumns(p: Byte)
    ensures U(0, p as bv32) == LittleWord(GfMul2(p), p, p, GfMul3(p))
    ensures U(1, p as bv32) == LittleWord(GfMul3(p), GfMul2(p), p, p)
    ensures U(2, p as bv32) == LittleWord(p, GfMul3(p), GfMul2(p), p)
    ensures U(3, p as bv32) == LittleWord(p, p, GfMul3(p), GfMul2(p))
  {
    hide GfMul2, GfMul3, F2, F3, Bytes2Word, LittleWord;
    F2IsGfMul2(p);
    F3IsGfMul3(p);
    Bytes2WordIsLittle(GfMul2(p), p, p, GfMul3(p));
    Bytes2WordIsLittle(GfMul3(p), GfMul2(p), p, p);
    Bytes2WordIsLittle(p, GfMul3(p), GfMul2(p), p);
    Bytes2WordIsLittle(p, p, GfMul3(p), GfMul2(p));
  }

  lemma TableColumns(b: Byte)
    ensures var p := SubByte(b);
            && Table(0, b) == LittleWord(GfMul2(p), p, p, GfMul3(p))
            && Table(1, b) == LittleWord(GfMul3(p), GfMul2(p), p, p)
            && Table(2, b) == LittleWord(p, GfMul3(p), GfMul2(p), p)
            && Table(3, b) == LittleWord(p, p, GfMul3(p), GfMul2(p))
  {
    hide SubByte, GfMul2, GfMul3, U, LittleWord;
    UColumns(SubByte(b));
  }

  // Left-nested and balanced sums of four bytes.
  lemma XorNested(p: Byte, q: Byte, r: Byte, s: Byte)
    ensures XorByte(XorByte(XorByte(p, q), r), s) == Xor4(p, q, r, s)
  {
    hide XorByte;
    XorByteAssociates(XorByte(p, q), r, s);
  }

  // The four bytes of one output column, from the four input bytes that reach it.
  lemma TableColumnBytes(b0: Byte, b1: Byte, b2: Byte, b3: Byte, k: bv32)
    ensures var w := Xor32(k, Xor32(Xor32(Xor32(Table(0, b0), Table(1, b1)), Table(2, b2)), Table(3, b3)));
            var p0, p1, p2, p3 := SubByte(b0), SubByte(b1), SubByte(b2), SubByte(b3);
            && LittleByte(w, 0) == XorByte(MixByte(p0, p1, p2, p3), LittleByte(k, 0))
            && LittleByte(w, 1) == XorByte(MixByte(p1, p2, p3, p0), LittleByte(k, 1))
            && LittleByte(w, 2) == XorByte(MixByte(p2, p3, p0, p1), LittleByte(k, 2))
            && LittleByte(w, 3) == XorByte(MixByte(p3, p0, p1, p2), LittleByte(k, 3))
  {
    hide SubByte, GfMul2, GfMul3, Table, LittleWord, LittleByte, Xor32, XorByte, Xor4;
    var p0, p1, p2, p3 := SubByte(b0), SubByte(b1), SubByte(b2), SubByte(b3);
    TableColumns(b0);
    TableColumns(b1);
    TableColumns(b2);
    TableColumns(b3);
    BytesOfLittle(GfMul2(p0), p0, p0, GfMul3(p0));
    BytesOfLittle(GfMul3(p1), GfMul2(p1), p1, p1);
    BytesOfLittle(p2, GfMul3(p2), GfMul2(p2), p2);
    BytesOfLittle(p3, p3, GfMul3(p3), GfMul2(p3));
    var t01 := Xor32(Table(0, b0), Table(1, b1));
    var t012 := Xor32(t01, Table(2, b2));
    var t := Xor32(t012, Table(3, b3));
    BytesOfXor32(Table(0, b0), Table(1, b1));
    BytesOfXor32(t01, Table(2, b2));
    BytesOfXor32(t012, Table(3, b3));
    BytesOfXor32(k, t);
    XorNested(GfMul2(p0), GfMul3(p1), p2, p3);
    XorNested(p0, GfMul2(p1), GfMul3(p2), p3);
    XorNested(p0, p1, GfMul2(p2), GfMul3(p3));
    XorNested(GfMul3(p0), p1, p2, GfMul2(p3));
    Xor4Rotate(p0, GfMul2(p1), GfMul3(p2), p3);
    Xor4Rotate(p0, p1, GfMul2(p2), GfMul3(p3));
    Xor4Rotate(GfMul3(p0), p1, p2, GfMul2(p3));
    XorByteCommutes(LittleByte(k, 0), LittleByte(t, 0));
    XorByteCommutes(LittleByte(k, 1), LittleByte(t, 1));
    XorByteCommutes(LittleByte(k, 2), LittleByte(t, 2));
    XorByteCommutes(LittleByte(k, 3), LittleByte(t, 3));
  }

  // The byte that reaches row r of column c through SubBytes and ShiftRows.
  lemma ShiftedByte(s: State, r: nat, c: nat)
    requires r < 4 && c < 4
    ensures ShiftRows(SubBytes(s))[At(r, c)] == SubByte(s[At(r, Turn(c, r))])
  {
    hide SubByte;
    ShiftSourceAt(r, c);
  }

  lemma AesRoundByte(s: State, k: State, r: nat, c: nat)
    requires r < 4 && c < 4
    ensures AesRound(s, k)[At(r, c)]
         == XorByte(MixByte(ShiftRows(SubBytes(s))[At(r, c)], ShiftRows(SubBytes(s))[At(Turn(r, 1), c)],
                            ShiftRows(SubBytes(s))[At(Turn(r, 2), c)], ShiftRows(SubBytes(s))[At(Turn(r, 3), c)]),
                    k[At(r, c)])
  {
    hide SubBytes, ShiftRows, MixByte, XorByte, At, Row, Column;
  }

  // The table round is the step-by-step round.
  lemma TableRoundIsAesRound(s: State, k: State)
    ensures TableRound(Columns(s), Columns(k)) == Columns(AesRound(s, k))
  {
    hide SubByte, MixByte, XorByte, Xor32, Table, LittleWord, LittleByte, At, Row, Column, AesRound, SubBytes,
        ShiftRows;
    forall c | 0 <= c < 4
      ensures TableRound(Columns(s), Columns(k))[c] == Columns(AesRound(s, k))[c]
    {
      TableRoundColumn(s, k, c);
    }
  }

  lemma TableRoundColumn(s: State, k: State, c: nat)
    requires c < 4
    ensures TableRound(Columns(s), Columns(k))[c] == Columns(AesRound(s, k))[c]
  {
    hide SubByte, MixByte, XorByte, Xor32, Table, LittleWord, LittleByte, At, Row, Column, AesRound, SubBytes,
        ShiftRows;
    var w := TableRound(Columns(s), Columns(k))[c];
    ColumnByte(s, 0, c);
    ColumnByte(s, 1, Turn(c, 1));
    ColumnByte(s, 2, Turn(c, 2));
    ColumnByte(s, 3, Turn(c, 3));
    TableColumnBytes(s[At(0, c)], s[At(1, Turn(c, 1))], s[At(2, Turn(c, 2))], s[At(3, Turn(c, 3))], Columns(k)[c]);
    forall r | 0 <= r < 4
      ensures LittleByte(w, r) == AesRound(s, k)[At(r, c)]
    {
      ColumnByte(k, r, c);
      AesRoundByte(s, k, r, c);
      ShiftedByte(s, 0, c);
      ShiftedByte(s, 1, c);
      ShiftedByte(s, 2, c);
      ShiftedByte(s, 3, c);
      assert r == 0 || r == 1 || r == 2 || r == 3;
    }
    LittleOfBytes(w);
  }

  lemma ColumnByte(s: State, r: nat, c: nat)
    requires r < 4 && c < 4
    ensures LittleByte(Columns(s)[c], r) == s[At(r, c)]
  {
    hide LittleWord, LittleByte, At;
    BytesOfLittle(s[At(0, c)], s[At(1, c)], s[At(2, c)], s[At(3, c)]);
    assert r == 0 || r == 1 || r == 2 || r == 3;
  }

  // ----- ten rounds -----

  // `n` rounds without the initial key addition and without a special last round.
  function PseudoRounds(s: State, exp: seq<Byte>, n: nat): State
    requires |exp| >= 16 * n
  {
    if n == 0 then s else AesRound(PseudoRounds(s, exp, n - 1), RoundKey(exp, n - 1))
  }

  // The same with the table round, between columns.
  function TablePseudoRounds(x: seq<bv32>, exp: seq<Byte>, n: nat): (y: seq<bv32>)
    requires |x| == 4 && |exp| >= 16 * n
    ensures |y| == 4
  {
    if n == 0 then x else TableRound(TablePseudoRounds(x, exp, n - 1), Columns(RoundKey(exp, n - 1)))
  }

  lemma {:induction false} TablePseudoRoundsAgree(s: State, exp: seq<Byte>, n: nat)
    requires |exp| >= 16 * n
    ensures TablePseudoRounds(Columns(s), exp, n) == Columns(PseudoRounds(s, exp, n))
    ensures StateOf(TablePseudoRounds(Columns(s), exp, n)) == PseudoRounds(s, exp, n)
  {
    hide TableRound, Columns, AesRound, RoundKey, StateOf;
    StateOfColumns(PseudoRounds(s, exp, n));
    if n != 0 {
      TablePseudoRoundsAgree(s, exp, n - 1);
      TableRoundIsAesRound(PseudoRounds(s, exp, n - 1), RoundKey(exp, n - 1));
    }
  }

  // ----- the ARM instructions -----

  // aese: key addition first, then SubBytes and ShiftRows.
  function Aese(s: State, k: State): State {
    ShiftRows(SubBytes(AddRoundKey(s, k)))
  }

  function ZeroKey(): State {
    seq(16, i requires 0 <= i < 16 => 0)
  }

  lemma AddZeroKey(s: State)
    ensures AddRoundKey(s, ZeroKey()) == s
  {
    hide XorByte;
    forall i | 0 <= i < 16
      ensures AddRoundKey(s, ZeroKey())[i] == s[i]
    {
      XorByteCancels(s[i], 0);
    }
  }

  // One round of the mixing loop: a zero key for aese, then aesmc and the real key.
  function ArmRound(s: State, k: State): State {
    AddRoundKey(MixColumns(Aese(s, ZeroKey())), k)
  }

  lemma ArmRoundIsAesRound(s: State, k: State)
    ensures ArmRound(s, k) == AesRound(s, k)
  {
    hide AddRoundKey, MixColumns, ShiftRows, SubBytes;
    AddZeroKey(s);
  }

  // aese and aesmc with `first`, then with the first `n` round keys.
  function ArmRounds(s: State, first: State, exp: seq<Byte>, n: nat): State
    requires |exp| >= 16 * n
  {
    if n == 0 then MixColumns(Aese(s, first))
    else MixColumns(Aese(ArmRounds(s, first, exp, n - 1), RoundKey(exp, n - 1)))
  }

  // The re-slicing: the key that the last aese omits is added at the end.
  lemma {:induction false} ArmRoundsAgree(s: State, first: State, exp: seq<Byte>, n: nat)
    requires |exp| >= 16 * (n + 1)
    ensures AddRoundKey(ArmRounds(s, first, exp, n), RoundKey(exp, n))
         == PseudoRounds(AddRoundKey(s, first), exp, n + 1)
  {
    hide AddRoundKey, MixColumns, ShiftRows, SubBytes, RoundKey;
    if n == 0 {
      assert PseudoRounds(AddRoundKey(s, first), exp, 0) == AddRoundKey(s, first);
    } else {
      ArmRoundsAgree(s, first, exp, n - 1);
    }
  }
}
