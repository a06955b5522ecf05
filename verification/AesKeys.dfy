/**
 AES key expansion: the byte loop of oaes_lib.c against section 5.2 of FIPS 197, and the
 prefix-xor expansions for 256-bit keys written with 128-bit registers, for x86 and for ARMv8.
 */
module AesKeys {
  import opened Words
  import opened Words32
  import opened AesTables
  import opened Aes
  import opened AesFast

  predicate KeyLength(nk: nat) {
    nk == 4 || nk == 6 || nk == 8
  }

  // The number of round keys for `nk` key words.
  function NumKeys(nk: nat): nat {
    nk + 7
  }

  function SubWord(w: bv32): bv32 {
    LittleWord(SubByte(LittleByte(w, 0)), SubByte(LittleByte(w, 1)), SubByte(LittleByte(w, 2)),
        SubByte(LittleByte(w, 3)))
  }

  function RotWord(w: bv32): bv32 {
    LittleWord(LittleByte(w, 1), LittleByte(w, 2), LittleByte(w, 3), LittleByte(w, 0))
  }

  // oaes_gf_8
  function RconByte(k: nat): Byte
    requires k < 10
  {
    if k == 0 then 0x01 else if k == 1 then 0x02 else if k == 2 then 0x04 else if k == 3 then 0x08
    else if k == 4 then 0x10 else if k == 5 then 0x20 else if k == 6 then 0x40 else if k == 7 then 0x80
    else if k == 8 then 0x1b else 0x36
  }

  function Rcon(k: nat): bv32
    requires k < 10
  {
    LittleWord(RconByte(k), 0, 0, 0)
  }

  // The round constant index stays in its table for all three key lengths.
  lemma RconInRange(nk: nat, i: nat)
    requires KeyLength(nk) && nk <= i < 4 * NumKeys(nk)
    ensures 0 <= i / nk - 1 < 10
  {
  }

  // What is added to the word `nk` places back.
  function Temp(nk: nat, i: nat, w: bv32): bv32
    requires KeyLength(nk) && nk <= i < 4 * NumKeys(nk)
  {
    RconInRange(nk, i);
    if i % nk == 0 then Xor32(SubWord(RotWord(w)), Rcon(i / nk - 1))
    else if nk > 6 && i % nk == 4 then SubWord(w)
    else w
  }

  function KeyWord(key: seq<bv32>, i: nat): bv32
    requires KeyLength(|key|) && i < 4 * NumKeys(|key|)
  {
    if i < |key| then key[i]
    else Xor32(KeyWord(key, i - |key|), Temp(|key|, i, KeyWord(key, i - 1)))
  }

  // A byte string as little-endian words.
  function KeyColumns(data: seq<Byte>): (key: seq<bv32>)
    requires |data| % 4 == 0
    ensures |key| == |data| / 4
  {
    seq(|data| / 4, i requires 0 <= i < |data| / 4 =>
      LittleWord(data[4 * i], data[4 * i + 1], data[4 * i + 2], data[4 * i + 3]))
  }

  function ExpandedKey(key: seq<bv32>): (exp: seq<Byte>)
    requires KeyLength(|key|)
    ensures |exp| == 16 * NumKeys(|key|)
  {
    seq(16 * NumKeys(|key|), i requires 0 <= i < 16 * NumKeys(|key|) => LittleByte(KeyWord(key, i / 4), i % 4))
  }

  // ----- oaes_key_expand -----

  function ColumnWord(c: seq<Byte>): bv32
    requires |c| == 4
  {
    LittleWord(c[0], c[1], c[2], c[3])
  }

  lemma SubWordBytes(c: seq<Byte>)
    requires |c| == 4
    ensures SubWord(ColumnWord(c)) == LittleWord(SubByte(c[0]), SubByte(c[1]), SubByte(c[2]), SubByte(c[3]))
    ensures RotWord(ColumnWord(c)) == LittleWord(c[1], c[2], c[3], c[0])
  {
    hide LittleByte, LittleWord, SubByte;
    BytesOfLittle(c[0], c[1], c[2], c[3]);
  }

  lemma AddRconBytes(w: bv32, k: nat)
    requires k < 10
    ensures LittleByte(Xor32(w, Rcon(k)), 0) == XorByte(LittleByte(w, 0), RconByte(k))
    ensures LittleByte(Xor32(w, Rcon(k)), 1) == LittleByte(w, 1)
    ensures LittleByte(Xor32(w, Rcon(k)), 2) == LittleByte(w, 2)
    ensures LittleByte(Xor32(w, Rcon(k)), 3) == LittleByte(w, 3)
  {
    hide LittleByte, LittleWord, RconByte, XorByte, Xor32;
    BytesOfXor32(w, Rcon(k));
    BytesOfLittle(RconByte(k), 0, 0, 0);
    XorByteCancels(LittleByte(w, 1), 0);
    XorByteCancels(LittleByte(w, 2), 0);
    XorByteCancels(LittleByte(w, 3), 0);
  }

  predicate BytesAre(t: seq<Byte>, w: bv32)
    requires |t| == 4
  {
    t[0] == LittleByte(w, 0) && t[1] == LittleByte(w, 1) && t[2] == LittleByte(w, 2) && t[3] == LittleByte(w, 3)
  }

  lemma BytesAreColumn(t: seq<Byte>)
    requires |t| == 4
    ensures BytesAre(t, ColumnWord(t))
  {
    hide LittleByte, LittleWord;
    BytesOfLittle(t[0], t[1], t[2], t[3]);
  }

  // oaes_sub_byte on all four bytes.
  method SubColumn(t: seq<Byte>) returns (u: seq<Byte>)
    requires |t| == 4
    ensures |u| == 4 && BytesAre(u, SubWord(ColumnWord(t)))
  {
    hide LittleByte, LittleWord, SubByte;
    u := [SubByte(t[0]), SubByte(t[1]), SubByte(t[2]), SubByte(t[3])];
    SubWordBytes(t);
    BytesAreColumn(u);
  }

  // oaes_word_rot_left
  method RotColumn(t: seq<Byte>) returns (u: seq<Byte>)
    requires |t| == 4
    ensures |u| == 4 && ColumnWord(u) == RotWord(ColumnWord(t))
  {
    hide LittleByte, LittleWord;
    u := [t[1], t[2], t[3], t[0]];
    SubWordBytes(t);
  }

  // The transformation of the previous column, byte by byte.
  method TransformColumn(keyBase: nat, i: nat, column: seq<Byte>) returns (temp: seq<Byte>)
    requires KeyLength(keyBase) && keyBase <= i < 4 * NumKeys(keyBase)
    requires |column| == 4
    ensures |temp| == 4 && BytesAre(temp, Temp(keyBase, i, ColumnWord(column)))
  {
    hide LittleByte, XorByte, Xor32, RconByte, Rcon, ColumnWord, SubWord, RotWord;
    temp := column;
    if i % keyBase == 0 {
      temp := RotColumn(temp);
      temp := SubColumn(temp);
      RconInRange(keyBase, i);
      AddRconBytes(SubWord(RotWord(ColumnWord(column))), i / keyBase - 1);
      temp := [XorByte(temp[0], RconByte(i / keyBase - 1)), temp[1], temp[2], temp[3]];
    } else if keyBase > 6 && i % keyBase == 4 {
      temp := SubColumn(temp);
    } else {
      BytesAreColumn(temp);
    }
  }

  // The bytes of the first `n` columns are in place.
  ghost predicate ColumnsDone(exp: seq<Byte>, key: seq<bv32>, n: nat)
    requires KeyLength(|key|) && n <= 4 * NumKeys(|key|)
  {
    |exp| >= 4 * n && forall i :: 0 <= i < n ==> ColumnIs(exp, i, KeyWord(key, i))
  }

  ghost predicate ColumnIs(exp: seq<Byte>, i: nat, w: bv32)
    requires |exp| >= 4 * i + 4
  {
    exp[4 * i] == LittleByte(w, 0) && exp[4 * i + 1] == LittleByte(w, 1) && exp[4 * i + 2] == LittleByte(w, 2) &&
        exp[4 * i + 3] == LittleByte(w, 3)
  }

  lemma FirstColumns(data: seq<Byte>, exp: seq<Byte>)
    requires |data| % 4 == 0 && KeyLength(|data| / 4)
    requires |exp| >= |data| && exp[..|data|] == data
    ensures ColumnsDone(exp, KeyColumns(data), |data| / 4)
  {
    hide LittleByte, LittleWord;
    forall i | 0 <= i < |data| / 4
      ensures ColumnIs(exp, i, KeyWord(KeyColumns(data), i))
    {
      assert forall k :: 0 <= k < |data| ==> exp[k] == exp[..|data|][k];
      BytesOfLittle(data[4 * i], data[4 * i + 1], data[4 * i + 2], data[4 * i + 3]);
    }
  }

  lemma PreviousColumn(exp: seq<Byte>, key: seq<bv32>, i: nat)
    requires KeyLength(|key|) && |key| <= i < 4 * NumKeys(|key|)
    requires ColumnsDone(exp, key, i)
    ensures ColumnWord(exp[4 * (i - 1)..4 * i]) == KeyWord(key, i - 1)
  {
    hide LittleByte, LittleWord, KeyWord;
    assert ColumnIs(exp, i - 1, KeyWord(key, i - 1));
    LittleOfBytes(KeyWord(key, i - 1));
  }

  lemma NextColumn(before: seq<Byte>, exp: seq<Byte>, key: seq<bv32>, i: nat, temp: seq<Byte>)
    requires KeyLength(|key|) && |key| <= i < 4 * NumKeys(|key|)
    requires ColumnsDone(before, key, i)
    requires |exp| == |before| >= 4 * i + 4 && exp[..4 * i] == before[..4 * i]
    requires |temp| == 4 && BytesAre(temp, Temp(|key|, i, KeyWord(key, i - 1)))
    requires forall k :: 0 <= k < 4 ==> exp[4 * i + k] == XorByte(before[4 * (i - |key|) + k], temp[k])
    ensures ColumnsDone(exp, key, i + 1)
  {
    hide LittleByte, LittleWord, XorByte, Xor32, Temp, ColumnIs, KeyWord;
    forall m | 0 <= m < i + 1
      ensures ColumnIs(exp, m, KeyWord(key, m))
    {
      if m < i {
        assert ColumnIs(before, m, KeyWord(key, m));
        SameColumn(before, exp, m, i, KeyWord(key, m));
      } else {
        assert ColumnIs(before, i - |key|, KeyWord(key, i - |key|));
        var w, t := KeyWord(key, i - |key|), Temp(|key|, i, KeyWord(key, i - 1));
        KeyWordUnfold(key, i);
        SumColumn(before, exp, i - |key|, i, w, t, temp);
      }
    }
  }

  lemma KeyWordUnfold(key: seq<bv32>, i: nat)
    requires KeyLength(|key|) && |key| <= i < 4 * NumKeys(|key|)
    ensures KeyWord(key, i) == Xor32(KeyWord(key, i - |key|), Temp(|key|, i, KeyWord(key, i - 1)))
  {
    hide Xor32, Temp;
  }

  lemma SameColumn(before: seq<Byte>, exp: seq<Byte>, m: nat, i: nat, w: bv32)
    requires m < i && |exp| == |before| >= 4 * i && exp[..4 * i] == before[..4 * i]
    requires ColumnIs(before, m, w)
    ensures ColumnIs(exp, m, w)
  {
    hide LittleByte;
    assert forall k :: 0 <= k < 4 * i ==> exp[k] == exp[..4 * i][k] == before[k];
  }

  lemma SumColumn(before: seq<Byte>, exp: seq<Byte>, m: nat, i: nat, w: bv32, t: bv32, temp: seq<Byte>)
    requires |before| >= 4 * m + 4 && |exp| >= 4 * i + 4 && |temp| == 4
    requires ColumnIs(before, m, w) && BytesAre(temp, t)
    requires forall k :: 0 <= k < 4 ==> exp[4 * i + k] == XorByte(before[4 * m + k], temp[k])
    ensures ColumnIs(exp, i, Xor32(w, t))
  {
    hide LittleByte, XorByte, Xor32;
    BytesOfXor32(w, t);
    assert exp[4 * i + 0] == XorByte(before[4 * m + 0], temp[0]);
    assert exp[4 * i + 1] == XorByte(before[4 * m + 1], temp[1]);
    assert exp[4 * i + 2] == XorByte(before[4 * m + 2], temp[2]);
    assert exp[4 * i + 3] == XorByte(before[4 * m + 3], temp[3]);
  }

  lemma AllColumns(exp: seq<Byte>, key: seq<bv32>)
    requires KeyLength(|key|) && |exp| == 16 * NumKeys(|key|)
    requires ColumnsDone(exp, key, 4 * NumKeys(|key|))
    ensures exp == ExpandedKey(key)
  {
    hide LittleByte, KeyWord;
    forall k | 0 <= k < |exp|
      ensures exp[k] == LittleByte(KeyWord(key, k / 4), k % 4)
    {
      assert ColumnIs(exp, k / 4, KeyWord(key, k / 4));
      assert k % 4 == 0 || k % 4 == 1 || k % 4 == 2 || k % 4 == 3;
    }
  }

  // The in-place expansion is the recurrence of section 5.2 of FIPS 197, for every key.
  method KeyExpand(data: array<Byte>) returns (expData: array<Byte>)
    requires data.Length == 16 || data.Length == 24 || data.Length == 32
    ensures fresh(expData)
    ensures expData[..] == ExpandedKey(KeyColumns(data[..]))
  {
    hide LittleByte, LittleWord, XorByte, Xor32, Temp, KeyWord, ColumnWord, KeyColumns, ExpandedKey, ColumnsDone,
        BytesAre;
    ghost var key := KeyColumns(data[..]);
    var keyBase := data.Length / 4;
    var numKeys := keyBase + 7;
    expData := new Byte[numKeys * 16];
    for i := 0 to data.Length
      invariant forall k :: 0 <= k < i ==> expData[k] == data[k]
    {
      expData[i] := data[i];
    }
    assert expData[..][..data.Length] == data[..];
    FirstColumns(data[..], expData[..]);
    for i := keyBase to numKeys * 4
      invariant ColumnsDone(expData[..], key, i)
    {
      PreviousColumn(expData[..], key, i);
      var temp := TransformColumn(keyBase, i, expData[..][4 * (i - 1)..4 * i]);
      ghost var before := expData[..];
      AddColumn(expData, keyBase, i, temp);
      NextColumn(before, expData[..], key, i, temp);
    }
    AllColumns(expData[..], key);
  }

  // exp_data[i] = exp_data[i - key_base] ^ temp, one byte at a time.
  method AddColumn(expData: array<Byte>, keyBase: nat, i: nat, temp: seq<Byte>)
    requires 1 <= keyBase <= i && 4 * i + 4 <= expData.Length && |temp| == 4
    modifies expData
    ensures expData[..4 * i] == old(expData[..4 * i])
    ensures forall k :: 0 <= k < 4 ==> expData[4 * i + k] == XorByte(old(expData[..])[4 * (i - keyBase) + k], temp[k])
  {
    hide XorByte;
    for j := 0 to 4
      invariant forall k :: 0 <= k < 4 * i ==> expData[k] == old(expData[..])[k]
      invariant forall k :: 0 <= k < j ==>
          expData[4 * i + k] == XorByte(old(expData[..])[4 * (i - keyBase) + k], temp[k])
    {
      expData[4 * i + j] := XorByte(expData[4 * (i - keyBase) + j], temp[j]);
    }
  }

  // ----- the 128-bit register expansions -----

  // A register as its four 32-bit lanes.
  type Lanes = x: seq<bv32> | |x| == 4 witness [0, 0, 0, 0]

  // _mm_slli_si128(x, 4)
  function ShiftLanes(x: Lanes): Lanes {
    [0, x[0], x[1], x[2]]
  }

  function XorLanes(x: Lanes, y: Lanes): Lanes {
    [Xor32(x[0], y[0]), Xor32(x[1], y[1]), Xor32(x[2], y[2]), Xor32(x[3], y[3])]
  }

  // _mm_shuffle_epi32 with one lane everywhere.
  function Splat(x: Lanes, i: nat): Lanes
    requires i < 4
  {
    [x[i], x[i], x[i], x[i]]
  }

  // _mm_aeskeygenassist_si128
  function KeygenAssist(x: Lanes, rcon: bv32): Lanes {
    [SubWord(x[1]), Xor32(RotWord(SubWord(x[1])), rcon), SubWord(x[3]), Xor32(RotWord(SubWord(x[3])), rcon)]
  }

  // sl_xor
  function SlXor(x: Lanes): Lanes {
    var s1 := ShiftLanes(x);
    var x1 := XorLanes(x, s1);
    var s2 := ShiftLanes(s1);
    var x2 := XorLanes(x1, s2);
    var s3 := ShiftLanes(s2);
    XorLanes(x2, s3)
  }

  // aes_genkey_sub, and aes_256_assist1 with aes_256_assist2.
  function GenkeySub(x0: Lanes, x2: Lanes, rcon: bv32): (Lanes, Lanes) {
    var y0 := XorLanes(SlXor(x0), Splat(KeygenAssist(x2, rcon), 3));
    var y2 := XorLanes(SlXor(x2), Splat(KeygenAssist(y0, 0), 2));
    (y0, y2)
  }

  // The key words 4n to 4n + 3.
  function RoundKeyLanes(key: seq<bv32>, n: nat): Lanes
    requires KeyLength(|key|) && n < NumKeys(|key|)
  {
    [KeyWord(key, 4 * n), KeyWord(key, 4 * n + 1), KeyWord(key, 4 * n + 2), KeyWord(key, 4 * n + 3)]
  }

  lemma Xor32Algebra(x: bv32, y: bv32, z: bv32)
    ensures Xor32(Xor32(x, y), z) == Xor32(x, Xor32(y, z))
    ensures Xor32(x, 0) == x
  {
  }

  // Prefix sums of the lanes, with `s` added to each, are the recurrence w[i] = w[i - 8] ^ w[i - 1].
  lemma PrefixXor(x: Lanes, s: bv32)
    ensures var y := XorLanes(SlXor(x), [s, s, s, s]);
            && y[0] == Xor32(x[0], s) && y[1] == Xor32(x[1], y[0])
            && y[2] == Xor32(x[2], y[1]) && y[3] == Xor32(x[3], y[2])
  {
    hide Xor32;
    Xor32Algebra(x[0], 0, 0);
    Xor32Algebra(x[1], x[0], s);
    Xor32Algebra(Xor32(x[1], x[0]), 0, 0);
    Xor32Algebra(x[2], x[1], x[0]);
    Xor32Algebra(x[2], Xor32(x[1], x[0]), s);
    Xor32Algebra(Xor32(Xor32(x[2], x[1]), x[0]), 0, 0);
    Xor32Algebra(x[3], x[2], x[1]);
    Xor32Algebra(x[3], Xor32(x[2], x[1]), x[0]);
    Xor32Algebra(x[2], x[1], x[0]);
    Xor32Algebra(x[3], Xor32(x[2], Xor32(x[1], x[0])), s);
  }

  lemma SubRot(w: bv32)
    ensures RotWord(SubWord(w)) == SubWord(RotWord(w))
  {
    hide LittleByte, LittleWord, SubByte;
    BytesOfLittle(SubByte(LittleByte(w, 0)), SubByte(LittleByte(w, 1)), SubByte(LittleByte(w, 2)),
        SubByte(LittleByte(w, 3)));
    BytesOfLittle(LittleByte(w, 1), LittleByte(w, 2), LittleByte(w, 3), LittleByte(w, 0));
  }

  // The recurrence at one word of a 256-bit key.
  lemma KeyWordStep(key: seq<bv32>, i: nat)
    requires |key| == 8 && 8 <= i < 60
    ensures KeyWord(key, i) == Xor32(KeyWord(key, i - 8),
              if i % 8 == 0 then Xor32(SubWord(RotWord(KeyWord(key, i - 1))), Rcon(i / 8 - 1))
              else if i % 8 == 4 then SubWord(KeyWord(key, i - 1)) else KeyWord(key, i - 1))
  {
    hide Xor32, SubWord, RotWord, Rcon;
  }

  // The four words from `i` on.
  function FourFrom(key: seq<bv32>, i: nat): Lanes
    requires KeyLength(|key|) && i + 3 < 4 * NumKeys(|key|)
  {
    [KeyWord(key, i), KeyWord(key, i + 1), KeyWord(key, i + 2), KeyWord(key, i + 3)]
  }

  // Four words in a row, `first` being the transformed previous word.
  lemma FourWords(key: seq<bv32>, i: nat, first: bv32)
    requires |key| == 8 && 8 <= i && i + 3 < 60 && i % 4 == 0
    requires KeyWord(key, i) == Xor32(KeyWord(key, i - 8), first)
    ensures XorLanes(SlXor(FourFrom(key, i - 8)), [first, first, first, first]) == FourFrom(key, i)
  {
    hide Xor32, SubWord, RotWord, Rcon, KeyWord, SlXor, XorLanes;
    PrefixXor(FourFrom(key, i - 8), first);
    PlainStep(key, i + 1);
    PlainStep(key, i + 2);
    PlainStep(key, i + 3);
  }

  lemma PlainStep(key: seq<bv32>, i: nat)
    requires |key| == 8 && 8 <= i < 60 && i % 4 != 0
    ensures KeyWord(key, i) == Xor32(KeyWord(key, i - 8), KeyWord(key, i - 1))
  {
    hide Xor32, SubWord, RotWord, Rcon;
    KeyWordStep(key, i);
  }

  // The first four new words of a register step, and the other four.
  lemma GenkeyEven(key: seq<bv32>, t: nat)
    requires |key| == 8 && t < 6
    ensures XorLanes(SlXor(FourFrom(key, 8 * t)), Splat(KeygenAssist(FourFrom(key, 8 * t + 4), Rcon(t)), 3))
         == FourFrom(key, 8 * t + 8)
  {
    hide Xor32, SubWord, RotWord, Rcon, KeyWord, SlXor, XorLanes;
    var last := KeyWord(key, 8 * t + 7);
    SubRot(last);
    KeyWordStep(key, 8 * t + 8);
    assert (8 * t + 8) / 8 - 1 == t;
    FourWords(key, 8 * t + 8, Xor32(RotWord(SubWord(last)), Rcon(t)));
  }

  lemma GenkeyOdd(key: seq<bv32>, t: nat)
    requires |key| == 8 && t < 6
    ensures XorLanes(SlXor(FourFrom(key, 8 * t + 4)), Splat(KeygenAssist(FourFrom(key, 8 * t + 8), 0), 2))
         == FourFrom(key, 8 * t + 12)
  {
    hide Xor32, SubWord, RotWord, Rcon, KeyWord, SlXor, XorLanes;
    KeyWordStep(key, 8 * t + 12);
    FourWords(key, 8 * t + 12, SubWord(KeyWord(key, 8 * t + 11)));
  }

  // One register step of the fast expansions is eight words of the recurrence.
  lemma GenkeySubStep(key: seq<bv32>, t: nat)
    requires |key| == 8 && t < 6
    ensures GenkeySub(RoundKeyLanes(key, 2 * t), RoundKeyLanes(key, 2 * t + 1), Rcon(t))
         == (RoundKeyLanes(key, 2 * t + 2), RoundKeyLanes(key, 2 * t + 3))
  {
    hide Rcon, KeyWord, SlXor, XorLanes, KeygenAssist, FourFrom, Splat, RoundKeyLanes;
    LanesAt(key, 2 * t);
    LanesAt(key, 2 * t + 1);
    LanesAt(key, 2 * t + 2);
    LanesAt(key, 2 * t + 3);
    GenkeyEven(key, t);
    GenkeyOdd(key, t);
  }

  lemma LanesAt(key: seq<bv32>, n: nat)
    requires KeyLength(|key|) && n < NumKeys(|key|)
    ensures RoundKeyLanes(key, n) == FourFrom(key, 4 * n)
  {
  }

  lemma RconValues()
    ensures Rcon(0) == 0x01 && Rcon(1) == 0x02 && Rcon(2) == 0x04 && Rcon(3) == 0x08 && Rcon(4) == 0x10
  {
  }

  // A round key as a register is the same sixteen bytes.
  lemma RoundKeyState(key: seq<bv32>, n: nat)
    requires KeyLength(|key|) && n < NumKeys(|key|)
    ensures StateOf(RoundKeyLanes(key, n)) == RoundKey(ExpandedKey(key), n)
  {
    hide LittleByte, KeyWord;
    forall i | 0 <= i < 16
      ensures StateOf(RoundKeyLanes(key, n))[i] == RoundKey(ExpandedKey(key), n)[i]
    {
      assert (16 * n + i) / 4 == 4 * n + i / 4 && (16 * n + i) % 4 == i % 4;
      assert i / 4 == 0 || i / 4 == 1 || i / 4 == 2 || i / 4 == 3;
    }
  }

  // The keys k[0], k[1], ... hold the first round keys of the expansion of `key`.
  ghost predicate RoundKeys(k: seq<Lanes>, key: seq<bv32>)
    requires KeyLength(|key|) && |k| <= NumKeys(|key|)
  {
    forall n :: 0 <= n < |k| ==> k[n] == RoundKeyLanes(key, n)
  }

  // aes_expand_key of monero.cpp: ten round keys.
  method ExpandScalar(memory0: Lanes, memory1: Lanes) returns (k: seq<Lanes>)
    ensures |k| == 10 && RoundKeys(k, memory0 + memory1)
  {
    hide KeyWord, GenkeySub, Rcon;
    ghost var key := memory0 + memory1;
    var xout0, xout2 := memory0, memory1;
    RconValues();
    FirstRoundKeys(key);
    var k0, k1 := xout0, xout2;
    GenkeySubStep(key, 0);
    var (a0, a2) := GenkeySub(xout0, xout2, 0x01);
    GenkeySubStep(key, 1);
    var (b0, b2) := GenkeySub(a0, a2, 0x02);
    GenkeySubStep(key, 2);
    var (c0, c2) := GenkeySub(b0, b2, 0x04);
    GenkeySubStep(key, 3);
    var (d0, d2) := GenkeySub(c0, c2, 0x08);
    k := [k0, k1, a0, a2, b0, b2, c0, c2, d0, d2];
  }

  lemma FirstRoundKeys(key: seq<bv32>)
    requires |key| == 8
    ensures RoundKeyLanes(key, 0) == key[..4] && RoundKeyLanes(key, 1) == key[4..]
  {
  }

  // aes_expand_key of slow-hash.c: one more half step.
  method ExpandX86(key0: Lanes, key1: Lanes) returns (ek: seq<Lanes>)
    ensures |ek| == 11 && RoundKeys(ek, key0 + key1)
  {
    hide KeyWord, GenkeySub, Rcon;
    ek := ExpandScalar(key0, key1);
    RconValues();
    GenkeySubStep(key0 + key1, 4);
    var (t1, t3) := GenkeySub(ek[8], ek[9], 0x10);
    ek := ek + [t1];
  }

  // ----- the ARMv8 expansion -----

  // tbl with the "rotate-n-splat" indices: in every lane bytes 13, 14, 15 and 12.
  function SplatSource(i: nat): (j: nat)
    requires i < 16
    ensures j < 16
  {
    if Row(i) == 3 then 12 else 13 + Row(i)
  }

  function Tbl(s: State): State {
    seq(16, i requires 0 <= i < 16 => s[SplatSource(i)])
  }

  // shl by one bit in every byte.
  function ShlBytes(w: bv32): bv32 {
    LittleWord(LittleByte(w, 0) << 1, LittleByte(w, 1) << 1, LittleByte(w, 2) << 1, LittleByte(w, 3) << 1)
  }

  function ShlLanes(x: Lanes): Lanes {
    [ShlBytes(x[0]), ShlBytes(x[1]), ShlBytes(x[2]), ShlBytes(x[3])]
  }

  function Everywhere(w: bv32): Lanes {
    [w, w, w, w]
  }

  lemma LastLane(x: Lanes)
    ensures StateOf(x)[12] == LittleByte(x[3], 0) && StateOf(x)[13] == LittleByte(x[3], 1)
    ensures StateOf(x)[14] == LittleByte(x[3], 2) && StateOf(x)[15] == LittleByte(x[3], 3)
  {
    hide LittleByte;
  }

  lemma TblAt(s: State, c: nat)
    requires c < 4
    ensures Tbl(s)[4 * c] == s[13] && Tbl(s)[4 * c + 1] == s[14]
    ensures Tbl(s)[4 * c + 2] == s[15] && Tbl(s)[4 * c + 3] == s[12]
  {
  }

  lemma ColumnAt(s: State, c: nat)
    requires c < 4
    ensures Columns(s)[c] == LittleWord(s[4 * c], s[4 * c + 1], s[4 * c + 2], s[4 * c + 3])
  {
    hide LittleWord;
  }

  lemma TblRotates(x: Lanes)
    ensures Columns(Tbl(StateOf(x))) == Everywhere(RotWord(x[3]))
  {
    hide LittleWord, LittleByte, StateOf, Tbl, Columns;
    LastLane(x);
    forall c | 0 <= c < 4
      ensures Columns(Tbl(StateOf(x)))[c] == RotWord(x[3])
    {
      ColumnAt(Tbl(StateOf(x)), c);
      TblAt(StateOf(x), c);
    }
  }

  lemma ShiftKeepsRow(i: nat)
    requires i < 16
    ensures Row(ShiftSource(i)) == Row(i)
  {
    assert ShiftSource(i) == i + 4 * (i - 4 * (5 * i / 16));
  }

  lemma EverywhereAt(w: bv32, i: nat)
    requires i < 16
    ensures StateOf(Everywhere(w))[i] == LittleByte(w, Row(i))
  {
    hide LittleByte;
  }

  // With a zero key and four equal columns aese is SubWord in every column: its row shift changes nothing.
  lemma AeseSubstitutes(w: bv32)
    ensures Columns(Aese(StateOf(Everywhere(w)), ZeroKey())) == Everywhere(SubWord(w))
  {
    hide LittleWord, LittleByte, SubByte, StateOf, Everywhere, AddRoundKey, ZeroKey, Row;
    var s := Aese(StateOf(Everywhere(w)), ZeroKey());
    AddZeroKey(StateOf(Everywhere(w)));
    forall i | 0 <= i < 16
      ensures s[i] == SubByte(LittleByte(w, Row(i)))
    {
      EverywhereAt(w, ShiftSource(i));
      ShiftKeepsRow(i);
    }
    EqualColumns(s, w);
  }

  lemma RowOf(c: nat)
    requires c < 4
    ensures Row(4 * c) == 0 && Row(4 * c + 1) == 1 && Row(4 * c + 2) == 2 && Row(4 * c + 3) == 3
  {
  }

  lemma EqualColumns(s: State, w: bv32)
    requires forall i :: 0 <= i < 16 ==> s[i] == SubByte(LittleByte(w, Row(i)))
    ensures Columns(s) == Everywhere(SubWord(w))
  {
    hide LittleWord, LittleByte, SubByte, Columns, Row;
    forall c | 0 <= c < 4
      ensures Columns(s)[c] == SubWord(w)
    {
      ColumnAt(s, c);
      RowOf(c);
    }
  }

  lemma NextRconByte(t: nat)
    requires t < 7
    ensures RconByte(t) << 1 == RconByte(t + 1) && 0 as Byte << 1 == 0
  {
  }

  lemma NextRcon(t: nat)
    requires t < 7
    ensures ShlLanes(Everywhere(Rcon(t))) == Everywhere(Rcon(t + 1))
  {
    hide LittleWord, LittleByte, RconByte;
    BytesOfLittle(RconByte(t), 0, 0, 0);
    NextRconByte(t);
  }

  // The half steps of the loop, on words 8t to 8t + 7.
  lemma ArmEven(key: seq<bv32>, t: nat)
    requires |key| == 8 && t < 6
    ensures XorLanes(SlXor(FourFrom(key, 8 * t)),
                     XorLanes(Everywhere(SubWord(RotWord(KeyWord(key, 8 * t + 7)))), Everywhere(Rcon(t))))
         == FourFrom(key, 8 * t + 8)
  {
    hide Xor32, SubWord, RotWord, Rcon, KeyWord, SlXor;
    KeyWordStep(key, 8 * t + 8);
    assert (8 * t + 8) / 8 - 1 == t;
    FourWords(key, 8 * t + 8, Xor32(SubWord(RotWord(KeyWord(key, 8 * t + 7))), Rcon(t)));
  }

  lemma ArmOdd(key: seq<bv32>, t: nat)
    requires |key| == 8 && t < 6
    ensures XorLanes(SlXor(FourFrom(key, 8 * t + 4)), Everywhere(SubWord(KeyWord(key, 8 * t + 11))))
         == FourFrom(key, 8 * t + 12)
  {
    hide Xor32, SubWord, RotWord, Rcon, KeyWord, SlXor, XorLanes;
    KeyWordStep(key, 8 * t + 12);
    FourWords(key, 8 * t + 12, SubWord(KeyWord(key, 8 * t + 11)));
  }

  // v3 and v4 hold round keys 2t and 2t + 1, v1 the round constant, and all keys before v4 are stored.
  ghost predicate ArmState(key: seq<bv32>, t: nat, v1: Lanes, v3: Lanes, v4: Lanes, ek: seq<Lanes>) {
    && |key| == 8 && t < 6 && |ek| == 2 * t + 1 && RoundKeys(ek, key)
    && v1 == Everywhere(Rcon(t)) && v3 == FourFrom(key, 8 * t) && v4 == FourFrom(key, 8 * t + 4)
  }

  lemma ArmStarts(key0: Lanes, key1: Lanes)
    ensures ArmState(key0 + key1, 0, Everywhere(0x01), key0, key1, [key0])
  {
    hide KeyWord, Rcon;
    RconValues();
    FirstRoundKeys(key0 + key1);
  }

  // The two registers stored in one pass are the next two round keys.
  lemma TwoMoreKeys(key: seq<bv32>, t: nat, ek: seq<Lanes>, x: Lanes, y: Lanes)
    requires |key| == 8 && t < 6 && |ek| == 2 * t + 1 && RoundKeys(ek, key)
    requires x == FourFrom(key, 8 * t + 4) && y == FourFrom(key, 8 * t + 8)
    ensures RoundKeys(ek + [x] + [y], key)
  {
    hide KeyWord, FourFrom, RoundKeyLanes;
    LanesAt(key, 2 * t + 1);
    LanesAt(key, 2 * t + 2);
  }

  lemma FourthWord(key: seq<bv32>, i: nat)
    requires KeyLength(|key|) && i + 3 < 4 * NumKeys(|key|)
    ensures FourFrom(key, i)[3] == KeyWord(key, i + 3)
  {
    hide KeyWord;
  }

  // The three ext and eor pairs on one register.
  method PrefixSum(v: Lanes) returns (r: Lanes)
    ensures r == SlXor(v)
  {
    hide XorLanes, ShiftLanes;
    r := v;
    var v5 := ShiftLanes(r);
    r := XorLanes(r, v5);
    v5 := ShiftLanes(v5);
    r := XorLanes(r, v5);
    v5 := ShiftLanes(v5);
    r := XorLanes(r, v5);
  }

  lemma ArmGoesOn(key: seq<bv32>, t: nat, v1: Lanes, v3: Lanes, v4: Lanes, ek: seq<Lanes>, next3: Lanes)
    requires ArmState(key, t, v1, v3, v4, ek) && t < 5
    requires next3 == XorLanes(SlXor(v3), XorLanes(Everywhere(SubWord(RotWord(v4[3]))), v1))
    ensures |ek| == 2 * t + 1 && |key| == 8 && RoundKeys(ek + [v4] + [next3], key)
    ensures next3 == FourFrom(key, 8 * t + 8)
    ensures ArmState(key, t + 1, ShlLanes(v1), next3,
                     XorLanes(SlXor(v4), Everywhere(SubWord(next3[3]))), ek + [v4] + [next3])
  {
    hide SubWord, RotWord, Rcon, KeyWord, SlXor, XorLanes, ShlLanes, FourFrom, Everywhere, RoundKeys;
    FourthWord(key, 8 * t + 4);
    FourthWord(key, 8 * t + 8);
    ArmEven(key, t);
    ArmOdd(key, t);
    NextRcon(t);
    TwoMoreKeys(key, t, ek, v4, next3);
  }

  // aes_expand_key in assembler: five passes, the last one left half way.
  method ExpandArm(key0: Lanes, key1: Lanes) returns (ek: seq<Lanes>)
    ensures |ek| == 11 && RoundKeys(ek, key0 + key1)
  {
    hide *;
    var v1, v3, v4 := Everywhere(0x01), key0, key1;
    ek := [v3];
    var w2 := 5;
    ArmStarts(key0, key1);
    while true
      invariant 1 <= w2 <= 5 && ArmState(key0 + key1, 5 - w2, v1, v3, v4, ek)
      decreases w2
    {
      ghost var was3, was4, wasKeys := v3, v4, ek;
      TblRotates(v4);
      var v6: Lanes := Columns(Tbl(StateOf(v4)));
      ek := ek + [v4];
      AeseSubstitutes(RotWord(v4[3]));
      v6 := Columns(Aese(StateOf(v6), ZeroKey()));
      w2 := w2 - 1;
      v3 := PrefixSum(v3);
      v6 := XorLanes(v6, v1);
      v3 := XorLanes(v3, v6);
      ek := ek + [v3];
      ArmGoesOn(key0 + key1, 4 - w2, v1, was3, was4, wasKeys, v3);
      v1 := ShlLanes(v1);
      if w2 == 0 {
        break;
      }
      AeseSubstitutes(v3[3]);
      v6 := Everywhere(v3[3]);
      v6 := Columns(Aese(StateOf(v6), ZeroKey()));
      v4 := PrefixSum(v4);
      v4 := XorLanes(v4, v6);
    }
  }
}
