/**
 The AES round in all the forms the code has it: step by step (oaes_lib.c), by tables (aesb.c), as
 the x86 instruction and re-sliced for the ARM instructions (slow-hash.c); and the block cipher
 built from it, with its inverse.
 */
module Aes {
  import opened Words
  import opened AesTables

  // Sixteen bytes, column by column: row r of column c is byte r + 4 * c.
  type State = s: seq<Byte> | |s| == 16 witness seq(16, i => 0)

  // ----- the transformations of section 5.1 of FIPS 197 -----

  function SubBytes(s: State): State {
    seq(16, i requires 0 <= i < 16 => SubByte(s[i]))
  }

  function InvSubBytes(s: State): State {
    seq(16, i requires 0 <= i < 16 => InvSubByte(s[i]))
  }

  function Row(i: nat): (r: nat)
    requires i < 16
    ensures r < 4
  {
    i % 4
  }

  function Column(i: nat): (c: nat)
    requires i < 16
    ensures c < 4
  {
    i / 4
  }

  function At(row: nat, column: nat): (i: nat)
    requires row < 4 && column < 4
    ensures i < 16 && Row(i) == row && Column(i) == column
  {
    row + 4 * column
  }

  lemma AtOf(i: nat)
    requires i < 16
    ensures At(Row(i), Column(i)) == i
  {
  }

  // Addition modulo 4.
  function Turn(x: nat, y: nat): (z: nat)
    requires x < 4 && y <= 4
    ensures z < 4
  {
    if x + y < 4 then x + y else x + y - 4
  }

  // Row r is rotated left by r columns; in byte positions that is multiplication by 5 modulo 16.
  function ShiftSource(i: nat): (j: nat)
    requires i < 16
    ensures j < 16
  {
    5 * i % 16
  }

  function InvShiftSource(i: nat): (j: nat)
    requires i < 16
    ensures j < 16
  {
    13 * i % 16
  }

  function ShiftRows(s: State): State {
    seq(16, i requires 0 <= i < 16 => s[ShiftSource(i)])
  }

  function InvShiftRows(s: State): State {
    seq(16, i requires 0 <= i < 16 => s[InvShiftSource(i)])
  }

  // The byte `k` rows below byte `i`, in the same column.
  function Below(i: nat, k: nat): (j: nat)
    requires i < 16 && k < 4
    ensures j < 16
  {
    At(Turn(Row(i), k), Column(i))
  }

  function MixColumns(s: State): State {
    seq(16, i requires 0 <= i < 16 => MixByte(s[i], s[Below(i, 1)], s[Below(i, 2)], s[Below(i, 3)]))
  }

  function InvMixColumns(s: State): State {
    seq(16, i requires 0 <= i < 16 => InvMixByte(s[i], s[Below(i, 1)], s[Below(i, 2)], s[Below(i, 3)]))
  }

  function AddRoundKey(s: State, k: State): State {
    seq(16, i requires 0 <= i < 16 => XorByte(s[i], k[i]))
  }

  function AesRound(s: State, k: State): State {
    AddRoundKey(MixColumns(ShiftRows(SubBytes(s))), k)
  }

  // ----- their inverses -----

  lemma InvSubBytesUndoes(s: State)
    ensures InvSubBytes(SubBytes(s)) == s
  {
    hide SubByte, InvSubByte;
    forall i | 0 <= i < 16
      ensures InvSubBytes(SubBytes(s))[i] == s[i]
    {
      SubByteInverse(s[i]);
    }
  }

  lemma ShiftSourceUndoes(i: nat)
    requires i < 16
    ensures ShiftSource(InvShiftSource(i)) == i
  {
    var q := 13 * i / 16;
    var j := 13 * i - 16 * q;
    Mod16(13 * i, q, j);
    Mod16(5 * j, 4 * i - 5 * q, i);
  }

  lemma ShiftSourceAt(r: nat, c: nat)
    requires r < 4 && c < 4
    ensures ShiftSource(At(r, c)) == At(r, Turn(c, r))
  {
    Mod16(5 * At(r, c), c + (if r + c < 4 then 0 else 1), At(r, Turn(c, r)));
  }

  lemma Mod16(x: nat, q: int, m: nat)
    requires x == 16 * q + m && m < 16
    ensures x % 16 == m
  {
  }

  lemma InvShiftRowsUndoes(s: State)
    ensures InvShiftRows(ShiftRows(s)) == s
  {
    hide ShiftSource, InvShiftSource;
    forall i | 0 <= i < 16
      ensures ShiftSource(InvShiftSource(i)) == i
    {
      ShiftSourceUndoes(i);
    }
  }

  lemma BelowWraps(i: nat)
    requires i < 16
    ensures Below(Below(i, 1), 1) == Below(i, 2) && Below(Below(i, 1), 2) == Below(i, 3) && Below(Below(i, 1), 3) == i
    ensures Below(Below(i, 2), 1) == Below(i, 3) && Below(Below(i, 2), 2) == i && Below(Below(i, 2), 3) == Below(i, 1)
    ensures Below(Below(i, 3), 1) == i && Below(Below(i, 3), 2) == Below(i, 1) && Below(Below(i, 3), 3) == Below(i, 2)
  {
    hide At, Row, Column;
    AtOf(i);
  }

  lemma InvMixColumnsUndoes(s: State)
    ensures InvMixColumns(MixColumns(s)) == s
  {
    hide MixByte, InvMixByte, Below;
    forall i | 0 <= i < 16
      ensures InvMixColumns(MixColumns(s))[i] == s[i]
    {
      BelowWraps(i);
      MixByteInverse(s[i], s[Below(i, 1)], s[Below(i, 2)], s[Below(i, 3)]);
    }
  }

  lemma AddRoundKeyUndoes(s: State, k: State)
    ensures AddRoundKey(AddRoundKey(s, k), k) == s
  {
    hide XorByte;
    forall i | 0 <= i < 16
      ensures AddRoundKey(AddRoundKey(s, k), k)[i] == s[i]
    {
      XorByteCancels(s[i], k[i]);
    }
  }

  // ----- the block cipher, over an expanded key of `n + 2` round keys -----

  function RoundKey(exp: seq<Byte>, i: nat): State
    requires |exp| >= 16 * (i + 1)
  {
    exp[16 * i..16 * i + 16]
  }

  // The initial key addition and `n` full rounds.
  function EncryptRounds(s: State, exp: seq<Byte>, n: nat): State
    requires |exp| >= 16 * (n + 1)
  {
    if n == 0 then AddRoundKey(s, RoundKey(exp, 0))
    else AesRound(EncryptRounds(s, exp, n - 1), RoundKey(exp, n))
  }

  function EncryptBlock(s: State, exp: seq<Byte>, numKeys: nat): State
    requires numKeys >= 2 && |exp| >= 16 * numKeys
  {
    AddRoundKey(ShiftRows(SubBytes(EncryptRounds(s, exp, numKeys - 2))), RoundKey(exp, numKeys - 1))
  }

  // One turn of the decryption loop.
  function DecryptRound(s: State, k: State): State {
    InvMixColumns(AddRoundKey(InvSubBytes(InvShiftRows(s)), k))
  }

  // Turns `n` down to 1 of the loop, and the last three steps after it.
  function DecryptRounds(s: State, exp: seq<Byte>, n: nat): State
    requires |exp| >= 16 * (n + 1)
    decreases n
  {
    if n == 0 then AddRoundKey(InvSubBytes(InvShiftRows(s)), RoundKey(exp, 0))
    else DecryptRounds(DecryptRound(s, RoundKey(exp, n)), exp, n - 1)
  }

  function DecryptBlock(s: State, exp: seq<Byte>, numKeys: nat): State
    requires numKeys >= 2 && |exp| >= 16 * numKeys
  {
    DecryptRounds(AddRoundKey(s, RoundKey(exp, numKeys - 1)), exp, numKeys - 2)
  }

  lemma {:induction false} DecryptRoundsUndo(s: State, exp: seq<Byte>, n: nat)
    requires |exp| >= 16 * (n + 1)
    ensures DecryptRounds(ShiftRows(SubBytes(EncryptRounds(s, exp, n))), exp, n) == s
  {
    hide SubBytes, InvSubBytes, ShiftRows, InvShiftRows, MixColumns, InvMixColumns, AddRoundKey, RoundKey;
    var t := EncryptRounds(s, exp, n);
    InvShiftRowsUndoes(SubBytes(t));
    InvSubBytesUndoes(t);
    if n == 0 {
      AddRoundKeyUndoes(s, RoundKey(exp, 0));
    } else {
      var u := ShiftRows(SubBytes(EncryptRounds(s, exp, n - 1)));
      AddRoundKeyUndoes(MixColumns(u), RoundKey(exp, n));
      InvMixColumnsUndoes(u);
      DecryptRoundsUndo(s, exp, n - 1);
    }
  }

  // Decryption inverts encryption, for every expanded key of at least two round keys.
  lemma DecryptBlockUndoes(s: State, exp: seq<Byte>, numKeys: nat)
    requires numKeys >= 2 && |exp| >= 16 * numKeys
    ensures DecryptBlock(EncryptBlock(s, exp, numKeys), exp, numKeys) == s
  {
    hide SubBytes, ShiftRows, AddRoundKey, RoundKey, EncryptRounds, DecryptRounds;
    AddRoundKeyUndoes(ShiftRows(SubBytes(EncryptRounds(s, exp, numKeys - 2))), RoundKey(exp, numKeys - 1));
    DecryptRoundsUndo(s, exp, numKeys - 2);
  }
}
