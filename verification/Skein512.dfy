/**
 Skein-512 (skein.c): the unrolled block function, and the streaming operations around it, which
 hold the last block back until Final and then produce output in counter mode.
 */
module Skein512 {
  import opened Words
  import opened Rotations
  import opened Threefish
  import opened SkeinBlock

  // ----- the hash, by the definition of UBI (section 3.4 of the Skein specification) -----

  // A tweak word: block type and flags.
  function Flags(kind: bv64, first: bool, final: bool): bv64 {
    kind | (if first then FLAG_FIRST else 0) | (if final then FLAG_FINAL else 0)
  }

  function SetFinal(t1: bv64): bv64 {
    t1 | FLAG_FINAL
  }

  // Set when the message ends inside a byte.
  const FLAG_BIT_PAD: bv64 := 0x0080_0000_0000_0000

  function SetBitPad(t1: bv64, pad: bool): bv64 {
    t1 | (if pad then FLAG_BIT_PAD else 0)
  }

  // One block `w`, when `position` bytes have been hashed with it.
  function UbiBlock(x: seq<bv64>, w: seq<bv64>, position: nat, flags: bv64): (r: seq<bv64>)
    requires |x| == 8 && |w| == 8
    ensures |r| == 8
  {
    Feed(Encrypt(W512, ScheduleOf(x, ToWord(position), flags), w, Groups(W512)), w)
  }

  // The chaining words after the first `n` blocks of `m`, none of them the last.
  function Ubi(x: seq<bv64>, m: seq<Byte>, n: nat): (r: seq<bv64>)
    requires |x| == 8 && 64 * n <= |m|
    ensures |r| == 8
  {
    if n == 0 then x
    else UbiBlock(Ubi(x, m, n - 1), Load(W512, m[64 * (n - 1)..64 * n]), 64 * n, Flags(TYPE_MSG, n == 1, false))
  }

  // The whole blocks that are not the last one: at least one byte stays behind.
  function Ahead(len: nat): (n: nat)
    ensures 64 * n <= len <= 64 * (n + 1)
    ensures len > 0 ==> 64 * n < len
  {
    if len == 0 then 0 else (len - 1) / 64
  }

  function ZeroPad(s: seq<Byte>): (r: seq<Byte>)
    requires |s| <= 64
    ensures |r| == 64
  {
    s + seq(64 - |s|, i => 0)
  }

  // The chaining words of the whole message.
  function UbiMessage(x: seq<bv64>, m: seq<Byte>, pad: bool): (r: seq<bv64>)
    requires |x| == 8
    ensures |r| == 8
  {
    var n := Ahead(|m|);
    UbiBlock(Ubi(x, m, n), Load(W512, ZeroPad(m[64 * n..])), |m|, SetBitPad(Flags(TYPE_MSG, n == 0, true), pad))
  }

  // Counter mode.
  function CounterBlock(i: nat): (r: seq<Byte>)
    ensures |r| == 64
  {
    ZeroPad(Bytes64(ToWord(i)))
  }

  // Byte `j` of words stored least significant byte first.
  function StoredByte(x: seq<bv64>, j: nat): Byte
    requires j < 8 * |x|
  {
    Bytes64(x[j / 8])[j % 8]
  }

  function OutputWords(x: seq<bv64>, i: nat): (r: seq<bv64>)
    requires |x| == 8
    ensures |r| == 8
  {
    UbiBlock(x, Load(W512, CounterBlock(i)), 8, Flags(TYPE_OUT, true, true))
  }

  function Output(x: seq<bv64>, byteCnt: nat): (r: seq<Byte>)
    requires |x| == 8
    ensures |r| == byteCnt
  {
    seq(byteCnt, j requires 0 <= j < byteCnt => StoredByte(OutputWords(x, j / 64), j % 64))
  }

  // The hash with `hashBitLen` bits of output from chaining words `x`.
  function SkeinOf(x: seq<bv64>, hashBitLen: nat, m: seq<Byte>, pad: bool): (r: seq<Byte>)
    requires |x| == 8
    ensures |r| == (hashBitLen + 7) / 8
  {
    Output(UbiMessage(x, m, pad), (hashBitLen + 7) / 8)
  }

  // The configuration: schema and version, output length, and sequential hashing.
  const TYPE_CFG: bv64 := 0x0400_0000_0000_0000
  const SCHEMA_VER: bv64 := 0x0000_0001_3341_4853

  function Config(hashBitLen: nat): (w: seq<bv64>)
    ensures |w| == 8
  {
    [SCHEMA_VER, ToWord(hashBitLen), 0, 0, 0, 0, 0, 0]
  }

  // What the configuration block, of 32 bytes, makes of zero chaining words.
  function Configured(hashBitLen: nat): (x: seq<bv64>)
    ensures |x| == 8
  {
    UbiBlock(seq(8, i => 0), Config(hashBitLen), 32, Flags(TYPE_CFG, true, true))
  }

  // The tables of values computed beforehand.
  function Precomputed(hashBitLen: nat): (x: Option<seq<bv64>>)
    ensures x.Some? ==> |x.value| == 8
  {
    if hashBitLen == 512 then
      Some([0x4903ADFF749C51CE, 0x0D95DE399746DF03, 0x8FD1934127C79BCE, 0x9A255629FF352CB1,
            0x5DB62599DF6CA7B0, 0xEABE394CA9D5C3F4, 0x991112C71A75B523, 0xAE18A40B660FCC33])
    else if hashBitLen == 384 then
      Some([0xA3F6C6BF3A75EF5F, 0xB0FEF9CCFD84FAA4, 0x9D77DD663D770CFE, 0xD798CBF3B468FDDA,
            0x1BC4A6668A0E4465, 0x7ED7D434E5807407, 0x548FC1ACD4EC44D6, 0x266E17546AA18FF8])
    else if hashBitLen == 256 then
      Some([0xCCD044A12FDB3E13, 0xE83590301A79A9EB, 0x55AEA0614F816E6F, 0x2A2767A4AE9B94DB,
            0xEC06025E74DD7683, 0xE7A436CDC4746251, 0xC36FBAF9393AD185, 0x3EEDBA1833EDFC13])
    else if hashBitLen == 224 then
      Some([0xCCD0616248677224, 0xCBA65CF3A92339EF, 0x8CCD69D652FF4B64, 0x398AED7B3AB890B4,
            0x0F59D1B1457D2BD0, 0x6776FE6575D4EB3D, 0x99FBC70E997413E9, 0x9E2CFCCFE1C41EF7])
    else None
  }

  function InitialWords(hashBitLen: nat): (x: seq<bv64>)
    ensures |x| == 8
  {
    match Precomputed(hashBitLen)
    case Some(x) => x
    case None => Configured(hashBitLen)
  }

  // A last byte of which only the first `k` bits, from the top, belong to the message: the next bit is
  // set and the others are cleared.
  function LastByte(b: Byte, k: nat): Byte
    requires 0 < k < 8
  {
    if k == 1 then (b & 0x80) | 0x40 else if k == 2 then (b & 0xC0) | 0x20
    else if k == 3 then (b & 0xE0) | 0x10 else if k == 4 then (b & 0xF0) | 0x08
    else if k == 5 then (b & 0xF8) | 0x04 else if k == 6 then (b & 0xFC) | 0x02
    else (b & 0xFE) | 0x01
  }

  // The first `bits` bits of the data, padded to whole bytes.
  function BitsOf(data: seq<Byte>, bits: nat): seq<Byte>
    requires bits <= 8 * |data|
  {
    if bits % 8 == 0 then data[..bits / 8] else data[..bits / 8] + [LastByte(data[bits / 8], bits % 8)]
  }

  // Skein-512 of the first `bits` bits of the data.
  function SkeinBits(hashBitLen: nat, data: seq<Byte>, bits: nat): (r: seq<Byte>)
    requires bits <= 8 * |data|
    ensures |r| == (hashBitLen + 7) / 8
  {
    SkeinOf(InitialWords(hashBitLen), hashBitLen, BitsOf(data, bits), bits % 8 != 0)
  }

  // ----- the operations on values -----

  datatype St = St(c: Chain, bCnt: nat, b: seq<Byte>) {
    predicate Valid() {
      |c.x| == 8 && |b| == 64 && bCnt <= 64
    }
  }

  // memcpy behind the waiting bytes.
  function Stored(s: St, msg: seq<Byte>): (r: St)
    requires s.Valid() && s.bCnt + |msg| <= 64
    ensures r.Valid()
  {
    s.(b := s.b[..s.bCnt] + msg + s.b[s.bCnt + |msg|..], bCnt := s.bCnt + |msg|)
  }

  // The whole blocks ahead of the rest, then the rest into the empty buffer.
  function Direct(s: St, msg: seq<Byte>): (r: St)
    requires s.Valid()
    ensures r.Valid()
  {
    var n := Ahead(|msg|);
    Stored(s.(c := Blocks(W512, s.c, msg[..64 * n], 64), bCnt := 0), msg[64 * n..])
  }

  function Updated(s: St, msg: seq<Byte>): (r: St)
    requires s.Valid()
    ensures r.Valid()
  {
    if |msg| + s.bCnt <= 64 then Stored(s, msg)
    else if s.bCnt == 0 then Direct(s, msg)
    else
      var n := 64 - s.bCnt;
      var full := s.b[..s.bCnt] + msg[..n];
      Direct(St(OneBlock(W512, s.c, Load(W512, full), 64), 0, full), msg[n..])
  }

  // ----- what a state stands for -----

  ghost predicate Holds(x: seq<bv64>, s: St, m: seq<Byte>) {
    var n := Ahead(|m|);
    && |x| == 8 && s.Valid() && |m| < TWO64
    && s.c.x == Ubi(x, m, n)
    && Nat(s.c.t0) == 64 * n
    && s.c.t1 == Flags(TYPE_MSG, n == 0, false)
    && s.bCnt == |m| - 64 * n
    && s.b[..s.bCnt] == m[64 * n..]
  }

  lemma HeldCounts(x: seq<bv64>, s: St, m: seq<Byte>)
    requires Holds(x, s, m)
    ensures Nat(s.c.t0) + s.bCnt == |m|
    ensures s.c.t1 == Flags(TYPE_MSG, |m| <= 64, false)
    ensures m != [] ==> s.bCnt > 0
  {
  }

  // `m` is `n` whole blocks, and `c` has taken all of them in.
  ghost predicate Whole(x: seq<bv64>, c: Chain, m: seq<Byte>, n: nat) {
    && |x| == 8 && |m| == 64 * n && |c.x| == 8
    && c.x == Ubi(x, m, n)
    && Nat(c.t0) == 64 * n
    && c.t1 == Flags(TYPE_MSG, n == 0, false)
  }

  lemma AheadIs(len: nat, n: nat)
    requires 64 * n < len <= 64 * (n + 1)
    ensures Ahead(len) == n
  {
  }

  lemma {:induction false} UbiPrefix(x: seq<bv64>, m: seq<Byte>, d: seq<Byte>, n: nat)
    requires |x| == 8 && 64 * n <= |m|
    ensures Ubi(x, m + d, n) == Ubi(x, m, n)
  {
    hide UbiBlock, Load;
    if n > 0 {
      UbiPrefix(x, m, d, n - 1);
      assert (m + d)[64 * (n - 1)..64 * n] == m[64 * (n - 1)..64 * n];
    }
  }

  lemma FlagsChange(first: bool)
    ensures ClearFirst(Flags(TYPE_MSG, first, false)) == Flags(TYPE_MSG, false, false)
    ensures forall pad: bool {:trigger SetBitPad(Flags(TYPE_MSG, first, false), pad)} ::
      SetFinal(SetBitPad(Flags(TYPE_MSG, first, false), pad)) == SetBitPad(Flags(TYPE_MSG, first, true), pad)
    ensures FLAG_FIRST | (TYPE_OUT | FLAG_FINAL) == Flags(TYPE_OUT, true, true)
  {
  }

  lemma NatSixtyFour()
    ensures Nat(64) == 64 && Nat(32) == 32 && Nat(8) == 8 && Nat(0) == 0
  {
    assert Nat(1) == 1 && Nat(2) == 2;
    assert Nat(4) == 4 && Nat(8) == 8;
    assert Nat(16) == 16;
    assert Nat(32) == 32;
  }

  // The block function of the code is the one of the definition, at the position its tweak reaches.
  lemma BlockIsUbi(c: Chain, w: seq<bv64>, add: bv64)
    requires |c.x| == 8 && |w| == 8 && Nat(c.t0) + Nat(add) < TWO64
    ensures var r := OneBlock(W512, c, w, add);
            r.x == UbiBlock(c.x, w, Nat(c.t0) + Nat(add), c.t1) && Nat(r.t0) == Nat(c.t0) + Nat(add) &&
                r.t1 == ClearFirst(c.t1)
  {
    hide Nat, ToWord, Encrypt, ScheduleOf, Plus64, ClearFirst, Feed;
    OneBlockIs(W512, c, w, add);
    NatPlus(c.t0, add);
    ToWordNat(Plus64(c.t0, add));
  }

  lemma BlockKeeps(x: seq<bv64>, c: Chain, m: seq<Byte>, n: nat, block: seq<Byte>)
    requires Whole(x, c, m, n) && |block| == 64 && 64 * (n + 1) < TWO64
    ensures Whole(x, OneBlock(W512, c, Load(W512, block), 64), m + block, n + 1)
  {
    hide Nat, OneBlock, UbiBlock, Load, Flags, ClearFirst;
    NatSixtyFour();
    BlockIsUbi(c, Load(W512, block), 64);
    UbiPrefix(x, m, block, n);
    assert (m + block)[64 * n..64 * (n + 1)] == block;
    FlagsChange(n == 0);
  }

  lemma {:induction false} BlocksKeep(x: seq<bv64>, c: Chain, m: seq<Byte>, n: nat, data: seq<Byte>, k: nat)
    requires Whole(x, c, m, n) && |data| == 64 * k && 64 * (n + k) < TWO64
    ensures |c.x| == 8 && Whole(x, Blocks(W512, c, data, 64), m + data, n + k)
    decreases k
  {
    hide *;
    Sizes();
    WholeLength(x, c, m, n);
    BlocksUnfold(c, data);
    if k == 0 {
      assert m + data == m;
    } else {
      BlockKeeps(x, c, m, n, data[..64]);
      BlocksKeep(x, OneBlock(W512, c, Load(W512, data[..64]), 64), m + data[..64], n + 1, data[64..], k - 1);
      assert (m + data[..64]) + data[64..] == m + data;
    }
  }

  lemma BlocksUnfold(c: Chain, data: seq<Byte>)
    requires |c.x| == 8
    ensures data == [] ==> Blocks(W512, c, data, 64) == c
    ensures |data| >= 64 ==>
      Blocks(W512, c, data, 64) == Blocks(W512, OneBlock(W512, c, Load(W512, data[..64]), 64), data[64..], 64)
  {
    hide OneBlock, Load;
    if |data| >= 64 {
      LoadPrefix(W512, data, data[..64]);
    }
  }

  lemma WholeLength(x: seq<bv64>, c: Chain, m: seq<Byte>, n: nat)
    requires Whole(x, c, m, n)
    ensures |x| == 8 && |c.x| == 8 && |m| == 64 * n
  {
  }

  lemma Sizes()
    ensures Count(W512) == 8 && BlockSize(W512) == 64
  {
  }

  lemma StoredTail(s: St, d: seq<Byte>)
    requires s.Valid() && s.bCnt + |d| <= 64
    ensures var r := Stored(s, d);
            r.c == s.c && r.bCnt == s.bCnt + |d| && r.b[..r.bCnt] == s.b[..s.bCnt] + d
  {
  }

  lemma HoldsIs(x: seq<bv64>, s: St, m: seq<Byte>, n: nat, tail: seq<Byte>)
    requires Whole(x, s.c, m, n) && s.Valid() && 0 < |tail| <= 64 && |m + tail| < TWO64
    requires s.bCnt == |tail| && s.b[..s.bCnt] == tail
    ensures Holds(x, s, m + tail)
  {
    AheadIs(|m + tail|, n);
    hide Nat, Flags, Ahead;
    UbiPrefix(x, m, tail, n);
    assert (m + tail)[64 * n..] == tail;
  }

  // Storing behind the waiting bytes `tail`.
  lemma StoreKeeps(x: seq<bv64>, s: St, m: seq<Byte>, n: nat, tail: seq<Byte>, d: seq<Byte>)
    requires Whole(x, s.c, m, n) && s.Valid() && s.bCnt == |tail| && s.b[..s.bCnt] == tail
    requires 0 < |tail| + |d| <= 64 && |m| + |tail| + |d| < TWO64
    ensures Holds(x, Stored(s, d), m + (tail + d))
  {
    StoredTail(s, d);
    hide *;
    HoldsIs(x, Stored(s, d), m, n, tail + d);
  }

  lemma DirectUnfold(s: St, data: seq<Byte>, k: nat)
    requires |s.c.x| == 8 && |s.b| == 64 && s.bCnt <= 64 && k == Ahead(|data|)
    ensures Direct(s, data) == Stored(St(Blocks(W512, s.c, data[..64 * k], 64), 0, s.b), data[64 * k..])
    ensures data != [] ==> 0 < |data[64 * k..]| <= 64
  {
    hide Blocks, Stored;
  }

  lemma DirectKeeps(x: seq<bv64>, c: Chain, m: seq<Byte>, n: nat, b: seq<Byte>, data: seq<Byte>)
    requires Whole(x, c, m, n) && |b| == 64 && data != [] && |m| + |data| < TWO64
    ensures |c.x| == 8 && Holds(x, Direct(St(c, 0, b), data), m + data)
  {
    hide *;
    Sizes();
    WholeLength(x, c, m, n);
    var k := Ahead(|data|);
    DirectUnfold(St(c, 0, b), data, k);
    var c2, rest := Blocks(W512, c, data[..64 * k], 64), data[64 * k..];
    BlocksKeep(x, c, m, n, data[..64 * k], k);
    ValidWhole(c2, b);
    StoreKeeps(x, St(c2, 0, b), m + data[..64 * k], n + k, [], rest);
    assert m + data[..64 * k] + ([] + rest) == m + data;
  }

  lemma ValidWhole(c: Chain, b: seq<Byte>)
    requires |c.x| == 8 && |b| == 64
    ensures St(c, 0, b).Valid()
  {
  }

  lemma HoldsSplits(x: seq<bv64>, s: St, m: seq<Byte>)
    requires Holds(x, s, m)
    ensures var n := Ahead(|m|);
            && s.Valid()
            && Whole(x, s.c, m[..64 * n], n)
            && s.bCnt == |m| - 64 * n && s.b[..s.bCnt] == m[64 * n..]
  {
    var n := Ahead(|m|);
    hide Nat, Flags, Ahead;
    assert m == m[..64 * n] + m[64 * n..];
    UbiPrefix(x, m[..64 * n], m[64 * n..], n);
  }

  lemma StoreNothing(s: St)
    requires s.Valid()
    ensures Stored(s, []) == s
  {
    assert s.b[..s.bCnt] + [] + s.b[s.bCnt..] == s.b;
  }

  lemma FillKeeps(x: seq<bv64>, s: St, m: seq<Byte>, d: seq<Byte>)
    requires Holds(x, s, m) && |m| + |d| < TWO64 && |d| + s.bCnt > 64 && s.bCnt > 0
    ensures s.Valid() && Holds(x, Updated(s, d), m + d)
  {
    hide *;
    Sizes();
    HoldsSplits(x, s, m);
    ValidParts(s);
    UpdatedFills(s, d);
    var n, k := Ahead(|m|), 64 - s.bCnt;
    var whole, tail := m[..64 * n], m[64 * n..];
    var full := tail + d[..k];
    BlockKeeps(x, s.c, whole, n, full);
    DirectKeeps(x, OneBlock(W512, s.c, Load(W512, full), 64), whole + full, n + 1, full, d[k..]);
    assert whole + (tail + d[..k]) + d[k..] == m + d;
  }

  lemma ValidParts(s: St)
    requires s.Valid()
    ensures |s.c.x| == 8 && |s.b| == 64 && s.bCnt <= 64
  {
  }

  lemma UpdatedFills(s: St, d: seq<Byte>)
    requires s.Valid() && |d| + s.bCnt > 64 && s.bCnt > 0
    ensures var full := s.b[..s.bCnt] + d[..64 - s.bCnt];
            Updated(s, d) == Direct(St(OneBlock(W512, s.c, Load(W512, full), 64), 0, full), d[64 - s.bCnt..])
  {
    hide Direct, OneBlock, Load;
  }

  lemma UpdatedElse(s: St, d: seq<Byte>)
    requires s.Valid()
    ensures |d| + s.bCnt <= 64 ==> Updated(s, d) == Stored(s, d)
    ensures |d| + s.bCnt > 64 && s.bCnt == 0 ==> Updated(s, d) == Direct(s, d)
  {
    hide Direct, OneBlock, Load, Stored;
  }

  lemma SameState(s: St)
    requires s.bCnt == 0
    ensures s == St(s.c, 0, s.b)
  {
  }

  lemma EmptyMessage(x: seq<bv64>, s: St, m: seq<Byte>)
    requires Holds(x, s, m) && s.bCnt == 0
    ensures m == [] && Whole(x, s.c, [], 0)
  {
  }

  // Every update appends its data, whatever its length.
  lemma UpdateKeeps(x: seq<bv64>, s: St, m: seq<Byte>, d: seq<Byte>)
    requires Holds(x, s, m) && |m + d| < TWO64
    ensures s.Valid() && Holds(x, Updated(s, d), m + d)
  {
    hide *;
    HoldsSplits(x, s, m);
    ValidParts(s);
    UpdatedElse(s, d);
    if d == [] {
      StoreNothing(s);
      assert m + d == m;
    } else if |d| + s.bCnt <= 64 {
      var n := Ahead(|m|);
      StoreKeeps(x, s, m[..64 * n], n, m[64 * n..], d);
      assert m[..64 * n] + (m[64 * n..] + d) == m + d;
    } else if s.bCnt == 0 {
      EmptyMessage(x, s, m);
      DirectKeeps(x, s.c, [], 0, s.b, d);
      SameState(s);
    } else {
      FillKeeps(x, s, m, d);
    }
  }

  // ----- any sequence of updates, and the end -----

  function UpdateEach(s: St, chunks: seq<seq<Byte>>): (r: St)
    requires s.Valid()
    ensures r.Valid()
  {
    if chunks == [] then s else Updated(UpdateEach(s, chunks[..|chunks| - 1]), chunks[|chunks| - 1])
  }

  lemma RunStep(s: St, m: seq<Byte>, front: seq<seq<Byte>>, last: seq<Byte>)
    requires s.Valid()
    ensures UpdateEach(s, front + [last]) == Updated(UpdateEach(s, front), last)
    ensures m + Concat(front + [last]) == m + Concat(front) + last
  {
    hide Updated;
    assert (front + [last])[..|front + [last]| - 1] == front;
  }

  lemma NoRun(s: St, m: seq<Byte>)
    requires s.Valid()
    ensures UpdateEach(s, []) == s && m + Concat([]) == m
  {
  }

  // Any sequence of updates, empty ones included, takes in the concatenation.
  lemma {:induction false} ChunksAppend(x: seq<bv64>, s: St, m: seq<Byte>, chunks: seq<seq<Byte>>)
    requires Holds(x, s, m) && |m + Concat(chunks)| < TWO64
    ensures s.Valid() && Holds(x, UpdateEach(s, chunks), m + Concat(chunks))
  {
    hide *;
    HoldsSplits(x, s, m);
    if chunks == [] {
      NoRun(s, m);
    } else {
      var front, last := chunks[..|chunks| - 1], chunks[|chunks| - 1];
      assert chunks == front + [last];
      RunStep(s, m, front, last);
      ChunksAppend(x, s, m, front);
      UpdateKeeps(x, UpdateEach(s, front), m + Concat(front), last);
    }
  }

  // The chaining words after the final block.
  function FinalWords(s: St): (r: seq<bv64>)
    requires s.Valid()
    ensures |r| == 8
  {
    OneBlock(W512, s.c.(t1 := SetFinal(s.c.t1)), Load(W512, ZeroPad(s.b[..s.bCnt])), ToWord(s.bCnt)).x
  }

  lemma HoldsParts(x: seq<bv64>, s: St, m: seq<Byte>)
    requires Holds(x, s, m)
    ensures var n := Ahead(|m|);
            && |x| == 8 && |m| < TWO64 && s.c.x == Ubi(x, m, n) && |s.c.x| == 8
            && s.c.t1 == Flags(TYPE_MSG, n == 0, false)
            && s.b[..s.bCnt] == m[64 * n..]
  {
  }

  // The final block, on a state taken apart.
  lemma FinalBlock(c: Chain, tail: seq<Byte>, bCnt: nat, len: nat, first: bool, pad: bool)
    requires |c.x| == 8 && |tail| == bCnt <= 64 && Nat(c.t0) + bCnt == len < TWO64
    requires c.t1 == SetBitPad(Flags(TYPE_MSG, first, false), pad)
    ensures OneBlock(W512, c.(t1 := SetFinal(c.t1)), Load(W512, ZeroPad(tail)), ToWord(bCnt)).x
         == UbiBlock(c.x, Load(W512, ZeroPad(tail)), len, SetBitPad(Flags(TYPE_MSG, first, true), pad))
  {
    hide *;
    Sizes();
    NatToWord(bCnt);
    FlagsChange(first);
    BlockIsUbi(c.(t1 := SetFinal(c.t1)), Load(W512, ZeroPad(tail)), ToWord(bCnt));
  }

  // With the bit padding flag set for the final block.
  function Padded(s: St, pad: bool): (r: St)
    requires s.Valid()
    ensures r.Valid()
  {
    s.(c := s.c.(t1 := SetBitPad(s.c.t1, pad)))
  }

  // Finalisation gives the hash of everything taken in, and of nothing else.
  lemma FinalHashes(x: seq<bv64>, s: St, m: seq<Byte>, hashBitLen: nat, pad: bool)
    requires Holds(x, s, m)
    ensures s.Valid() && |x| == 8
    ensures Output(FinalWords(Padded(s, pad)), (hashBitLen + 7) / 8) == SkeinOf(x, hashBitLen, m, pad)
  {
    HoldsSplits(x, s, m);
    HoldsParts(x, s, m);
    HeldCounts(x, s, m);
    ValidParts(s);
    var n := Ahead(|m|);
    hide Holds, Whole, Nat, ToWord, OneBlock, UbiBlock, Load, Flags, Output, ZeroPad, Ahead, Ubi, SetBitPad, SetFinal;
    FinalBlock(Padded(s, pad).c, s.b[..s.bCnt], s.bCnt, |m|, n == 0, pad);
  }

  // The state that a hash starts from, with any bytes in the buffer.
  function Begun(x: seq<bv64>, b: seq<Byte>): (s: St)
    requires |x| == 8 && |b| == 64
    ensures s.Valid()
  {
    St(Chain(x, 0, Flags(TYPE_MSG, true, false)), 0, b)
  }

  lemma InitHolds(x: seq<bv64>, b: seq<Byte>)
    requires |x| == 8 && |b| == 64
    ensures Holds(x, Begun(x, b), [])
  {
    NatSixtyFour();
  }

  // Over any run of updates the tweak counts the bytes, those already hashed in T[0] and the waiting
  // ones in bCnt; the first flag is set exactly as long as no block has been processed; and after any
  // byte something is held back for the final block.
  lemma TweakCounts(x: seq<bv64>, b: seq<Byte>, chunks: seq<seq<Byte>>)
    requires |x| == 8 && |b| == 64 && |Concat(chunks)| < TWO64
    ensures var s, n := UpdateEach(Begun(x, b), chunks), |Concat(chunks)|;
            && Nat(s.c.t0) + s.bCnt == n
            && s.c.t1 == Flags(TYPE_MSG, n <= 64, false)
            && (n > 0 ==> s.bCnt > 0)
  {
    hide Holds, Begun, Nat, Flags, UpdateEach;
    InitHolds(x, b);
    assert [] + Concat(chunks) == Concat(chunks);
    ChunksAppend(x, Begun(x, b), [], chunks);
    HeldCounts(x, UpdateEach(Begun(x, b), chunks), Concat(chunks));
  }

  // One output block: the state words of counter mode, key `x` and counter `i`.
  lemma CounterIsUbi(x: seq<bv64>, i: nat)
    requires |x| == 8
    ensures OneBlock(W512, Chain(x, 0, FLAG_FIRST | (TYPE_OUT | FLAG_FINAL)), Load(W512, CounterBlock(i)), 8).x
         == OutputWords(x, i)
  {
    hide Nat, OneBlock, UbiBlock, Load, Flags, CounterBlock;
    NatSixtyFour();
    FlagsChange(true);
    BlockIsUbi(Chain(x, 0, FLAG_FIRST | (TYPE_OUT | FLAG_FINAL)), Load(W512, CounterBlock(i)), 8);
  }

  // ----- the block function in place -----

  // The macro I512 in the unrolled version.
  method InjectModular(v: array<bv64>, kw: array<bv64>, R: nat, ghost k: Schedule)
    requires v != kw && v.Length == 8 && kw.Length == 12 && R < 18
    requires Fits(W512, k) && kw[..3] == k.ts && kw[3..] == k.ks
    modifies v
    ensures v[..] == Inject(W512, k, old(v[..]), R + 1)
  {
    hide Plus64, Small;
    ghost var was := v[..];
    forall i | 0 <= i < 8 {
      v[i] := Plus64(v[i], if i == 5 then Plus64(kw[3 + (R + 6) % 9], kw[(R + 1) % 3])
                           else if i == 6 then Plus64(kw[3 + (R + 7) % 9], kw[(R + 2) % 3])
                           else if i == 7 then Plus64(kw[3 + (R + 8) % 9], Small(R + 1))
                           else kw[3 + (R + 1 + i) % 9]);
    }
    assert forall j: nat :: j < 3 ==> kw[j] == k.ts[j];
    assert forall j: nat :: j < 9 ==> kw[3 + j] == kw[3..][j];
    forall i | 0 <= i < 8
      ensures v[i] == Plus64(was[i], Subkey(W512, k, R + 1, i))
    {
      assert kw[3 + (R + 1 + i) % 9] == Cycle(k.ks, R + 1 + i);
      assert kw[(R + 1) % 3] == Cycle(k.ts, R + 1) && kw[(R + 2) % 3] == Cycle(k.ts, R + 2);
    }
  }

  // The macro R512: the pairs are written out at each use, the distances are row `d` of the table.
  method Round512(v: array<bv64>, d: nat, p0: nat, p1: nat, p2: nat, p3: nat, p4: nat, p5: nat, p6: nat, p7: nat)
    requires v.Length == 8 && d < 8
    requires p0 == First(W512, d, 0) && p1 == Second(W512, d, 0)
    requires p2 == First(W512, d, 1) && p3 == Second(W512, d, 1)
    requires p4 == First(W512, d, 2) && p5 == Second(W512, d, 2)
    requires p6 == First(W512, d, 3) && p7 == Second(W512, d, 3)
    modifies v
    ensures v[..] == RoundAt(W512, old(v[..]), d)
  {
    hide First, Second, Distance, Proper, Mix, Round;
    ghost var was := v[..];
    RoundStarts(W512, was, d);
    RoundSteps(W512, was, d, 0);
    MixInPlace(v, p0, p1, Distance(W512, d, 0));
    RoundSteps(W512, was, d, 1);
    MixInPlace(v, p2, p3, Distance(W512, d, 1));
    RoundSteps(W512, was, d, 2);
    MixInPlace(v, p4, p5, Distance(W512, d, 2));
    RoundSteps(W512, was, d, 3);
    MixInPlace(v, p6, p7, Distance(W512, d, 3));
  }

  // The first and the second half of R512_8_rounds, without the injections.
  method FirstFour(v: array<bv64>)
    requires v.Length == 8
    modifies v
    ensures v[..] == Four(W512, old(v[..]), 0)
  {
    hide RoundAt;
    Round512(v, 0, 0, 1, 2, 3, 4, 5, 6, 7);
    Round512(v, 1, 2, 1, 4, 7, 6, 5, 0, 3);
    Round512(v, 2, 4, 1, 6, 3, 0, 5, 2, 7);
    Round512(v, 3, 6, 1, 0, 7, 2, 5, 4, 3);
  }

  method SecondFour(v: array<bv64>)
    requires v.Length == 8
    modifies v
    ensures v[..] == Four(W512, old(v[..]), 4)
  {
    hide RoundAt;
    Round512(v, 4, 0, 1, 2, 3, 4, 5, 6, 7);
    Round512(v, 5, 2, 1, 4, 7, 6, 5, 0, 3);
    Round512(v, 6, 4, 1, 6, 3, 0, 5, 2, 7);
    Round512(v, 7, 6, 1, 0, 7, 2, 5, 4, 3);
  }

  // The macro R512_8_rounds.
  method EightRounds(v: array<bv64>, kw: array<bv64>, R: nat, ghost k: Schedule, ghost x: seq<bv64>)
    requires v != kw && v.Length == 8 && kw.Length == 12 && R < 9 && |x| == 8
    requires Fits(W512, k) && kw[..3] == k.ts && kw[3..] == k.ks
    requires v[..] == Rotated(W512, k, x, 2 * R)
    modifies v
    ensures v[..] == Rotated(W512, k, x, 2 * R + 2)
  {
    hide Four, Inject;
    FirstFour(v);
    InjectModular(v, kw, 2 * R, k);
    assert v[..] == Rotated(W512, k, x, 2 * R + 1);
    SecondFour(v);
    InjectModular(v, kw, 2 * R + 1, k);
  }

  // The 72 rounds, unrolled.
  method Rounds(v: array<bv64>, kw: array<bv64>, ghost k: Schedule)
    requires v != kw && v.Length == 8 && kw.Length == 12
    requires Fits(W512, k) && kw[..3] == k.ts && kw[3..] == k.ks
    modifies v
    ensures v[..] == Rotated(W512, k, old(v[..]), 18)
  {
    ghost var x := v[..];
    assert Rotated(W512, k, x, 0) == x;
    hide Rotated;
    EightRounds(v, kw, 0, k, x);
    EightRounds(v, kw, 1, k, x);
    EightRounds(v, kw, 2, k, x);
    EightRounds(v, kw, 3, k, x);
    EightRounds(v, kw, 4, k, x);
    EightRounds(v, kw, 5, k, x);
    EightRounds(v, kw, 6, k, x);
    EightRounds(v, kw, 7, k, x);
    EightRounds(v, kw, 8, k, x);
  }

  // ks[0] ^ ... ^ ks[7] ^ SKEIN_KS_PARITY as it is written out.
  lemma ParityOf8(x: seq<bv64>)
    requires |x| == 8
    ensures Parity(x)
         == Xor64(Xor64(Xor64(Xor64(Xor64(Xor64(Xor64(Xor64(
              x[0], x[1]), x[2]), x[3]), x[4]), x[5]), x[6]), x[7]), KS_PARITY)
  {
    hide Xor64, XorFirst;
    XorOne(x);
    XorThreeMore(x, 1);
    XorThreeMore(x, 4);
    XorLast(x);
  }

  lemma XorLast(x: seq<bv64>)
    requires |x| == 8
    ensures XorFirst(x, 8) == Xor64(XorFirst(x, 7), x[7])
  {
  }

  // One block of words through Threefish with feedforward, in place: the schedule is built in kw, whose
  // words 0 and 1 hold the tweak.
  method OneTurn(x: array<bv64>, blk: seq<Byte>, kw: array<bv64>, add: bv64)
    requires x != kw && x.Length == 8 && kw.Length == 12 && |blk| == 64
    modifies x, kw
    ensures Chain(x[..], kw[0], kw[1]) ==
        OneBlock(W512, Chain(old(x[..]), old(kw[0]), old(kw[1])), Load(W512, blk), add)
  {
    hide Plus64, Xor64, Inject, Rotated, Encrypt, ScheduleOf, Load, ClearFirst;
    kw[0] := Plus64(kw[0], add);
    ghost var was := x[..];
    assert was == old(x[..]);
    ghost var k := ScheduleOf(was, kw[0], kw[1]);
    ScheduleFits(was, kw[0], kw[1]);
    SetUpSchedule(x, kw);
    var w := Load(W512, blk);
    var v := FirstAdd(w, kw, k);
    RotatedIsEncrypt(W512, k, w, 18);
    Rounds(v, kw, k);
    ghost var y := v[..];
    assert y == Encrypt(W512, k, w, 18);
    forall i | 0 <= i < 8 {
      x[i] := Xor64(v[i], w[i]);
    }
    assert x[..] == Feed(y, w);
    assert kw[0] == kw[..3][0] == k.ts[0] && kw[1] == kw[..3][1] == k.ts[1];
    kw[1] := ClearFirst(kw[1]);
    OneBlockIs(W512, Chain(was, old(kw[0]), old(kw[1])), w, add);
  }

  method SetUpSchedule(x: array<bv64>, kw: array<bv64>)
    requires x != kw && x.Length == 8 && kw.Length == 12
    modifies kw
    ensures kw[..3] == ScheduleOf(x[..], old(kw[0]), old(kw[1])).ts
    ensures kw[3..] == ScheduleOf(x[..], old(kw[0]), old(kw[1])).ks
  {
    hide Xor64, Parity;
    forall i | 0 <= i < 8 {
      kw[3 + i] := x[i];
    }
    assert kw[3..11] == x[..];
    ParityOf8(x[..]);
    kw[11] := Xor64(Xor64(Xor64(Xor64(Xor64(Xor64(Xor64(Xor64(
                kw[3], kw[4]), kw[5]), kw[6]), kw[7]), kw[8]), kw[9]), kw[10]), KS_PARITY);
    kw[2] := Xor64(kw[0], kw[1]);
    assert kw[3..] == x[..] + [Parity(x[..])];
    assert kw[..3] == [kw[0], kw[1], kw[2]];
  }

  // X0 .. X7 = w + ks, with the tweak added to words 5 and 6.
  method FirstAdd(w: seq<bv64>, kw: array<bv64>, ghost k: Schedule) returns (v: array<bv64>)
    requires |w| == 8 && kw.Length == 12 && Fits(W512, k) && kw[..3] == k.ts && kw[3..] == k.ks
    ensures fresh(v) && v.Length == 8 && v[..] == Inject(W512, k, w, 0)
  {
    hide Plus64, Inject;
    v := new bv64[8];
    forall i | 0 <= i < 8 {
      v[i] := if i == 5 then Plus64(Plus64(w[i], kw[3 + i]), kw[0])
              else if i == 6 then Plus64(Plus64(w[i], kw[3 + i]), kw[1])
              else Plus64(w[i], kw[3 + i]);
    }
    forall i | 0 <= i < 8
      ensures v[..][i] == Inject(W512, k, w, 0)[i]
    {
      assert kw[3 + i] == kw[3..][i] && kw[0] == kw[..3][0] && kw[1] == kw[..3][1];
      FirstInjectionIsInject(W512, k, w, i);
    }
  }

  lemma BlocksOne(c: Chain, data: seq<Byte>, add: bv64)
    requires |c.x| == 8 && |data| == 64
    ensures Blocks(W512, c, data, add) == OneBlock(W512, c, Load(W512, data), add)
  {
    hide OneBlock, Load;
  }

  // The first `n` bytes of words stored least significant byte first.
  function StoredFirst(x: seq<bv64>, n: nat): (r: seq<Byte>)
    requires n <= 8 * |x|
    ensures |r| == n
  {
    seq(n, j requires 0 <= j < n => StoredByte(x, j))
  }

  lemma LoadStored(w: seq<bv64>)
    requires |w| == 8
    ensures Load(W512, StoredFirst(w, 64)) == w
  {
    hide Word64, Bytes64;
    forall i | 0 <= i < 8
      ensures Load(W512, StoredFirst(w, 64))[i] == w[i]
    {
      WordStored(w, i);
    }
  }

  lemma WordStored(w: seq<bv64>, i: nat)
    requires |w| == 8 && i < 8
    ensures Word64(StoredFirst(w, 64)[8 * i..8 * (i + 1)]) == w[i]
  {
    hide Word64, Bytes64;
    var s := StoredFirst(w, 64)[8 * i..8 * (i + 1)];
    forall k | 0 <= k < 8
      ensures s[k] == Bytes64(w[i])[k]
    {
      assert (8 * i + k) / 8 == i && (8 * i + k) % 8 == k;
    }
    assert s == Bytes64(w[i]);
    WordOfBytes(w[i]);
  }

  lemma ConfigIsUbi(hashBitLen: nat)
    ensures OneBlock(W512, Chain(seq(8, i => 0), 0, FLAG_FIRST | (TYPE_CFG | FLAG_FINAL)), Config(hashBitLen), 32).x
         == Configured(hashBitLen)
  {
    hide Nat, OneBlock, UbiBlock, Config, Flags;
    NatSixtyFour();
    ConfigFlags();
    BlockIsUbi(Chain(seq(8, i => 0), 0, FLAG_FIRST | (TYPE_CFG | FLAG_FINAL)), Config(hashBitLen), 32);
  }

  lemma ConfigFlags()
    ensures FLAG_FIRST | (TYPE_CFG | FLAG_FINAL) == Flags(TYPE_CFG, true, true)
  {
  }

  // The mask of the code, for each number of bits.
  lemma LastByteIs(b: Byte, k: nat, mask: Byte)
    requires 0 < k < 8
    requires mask == (if k == 1 then 0x40 else if k == 2 then 0x20 else if k == 3 then 0x10 else if k == 4 then 0x08
                      else if k == 5 then 0x04 else if k == 6 then 0x02 else 0x01)
    ensures (b & (0 - mask)) | mask == LastByte(b, k)
  {
  }

  // Output block `i` extends the output by its `n` bytes.
  lemma OutputPart(key: seq<bv64>, byteCnt: nat, i: nat, n: nat)
    requires |key| == 8 && 64 * i + n <= byteCnt && n <= 64
    ensures Output(key, byteCnt)[..64 * i + n] == Output(key, byteCnt)[..64 * i] + StoredFirst(OutputWords(key, i), n)
  {
    hide StoredByte, OutputWords;
    forall j | 0 <= j < n
      ensures Output(key, byteCnt)[64 * i + j] == StoredByte(OutputWords(key, i), j)
    {
      assert (64 * i + j) / 64 == i && (64 * i + j) % 64 == j;
    }
  }

  // ----- the context -----

  class Ctxt {
    const x: array<bv64>
    const b: array<Byte>
    var t0: bv64
    var t1: bv64
    var bCnt: nat
    var hashBitLen: nat

    ghost predicate Valid()
      reads this, b
    {
      x.Length == 8 && b.Length == 64 && bCnt <= 64
    }

    ghost function Value(): St
      reads this, x, b
    {
      St(Chain(x[..], t0, t1), bCnt, b[..])
    }

    // Skein_512_Init; b starts out arbitrary.
    constructor (hashBitLen: nat)
      ensures fresh(x) && fresh(b) && Valid() && this.hashBitLen == hashBitLen
      ensures Holds(InitialWords(hashBitLen), Value(), [])
    {
      hide Holds, InitialWords, Configured, Flags;
      var table := Precomputed(hashBitLen);
      x := new bv64[8](i requires 0 <= i < 8 => if table.Some? then table.value[i] else 0);
      b := new Byte[64];
      bCnt := 0;
      this.hashBitLen := hashBitLen;
      t0, t1 := 0, FLAG_FIRST | (TYPE_CFG | FLAG_FINAL);
      new;
      if table.None? {
        assert x[..] == seq(8, i => 0);
        Configure(hashBitLen);
      } else {
        assert x[..] == table.value;
      }
      InitialIs(hashBitLen);
      t0, t1, bCnt := 0, Flags(TYPE_MSG, true, false), 0;
      InitHolds(x[..], b[..]);
    }

    // The configuration block, from zero chaining words.
    method Configure(hashBitLen: nat)
      requires Valid() && Chain(x[..], t0, t1) == Chain(seq(8, i => 0), 0, FLAG_FIRST | (TYPE_CFG | FLAG_FINAL))
      modifies this`t0, this`t1, x
      ensures Valid() && x[..] == Configured(hashBitLen)
    {
      hide OneBlock, Load, Configured, Config, StoredFirst;
      var cfg := StoredFirst(Config(hashBitLen), 64);
      LoadStored(Config(hashBitLen));
      ConfigIsUbi(hashBitLen);
      BlocksOne(Chain(x[..], t0, t1), cfg, 32);
      ProcessBlock(cfg, 1, 32);
    }

    method ProcessBlock(blk: seq<Byte>, blkCnt: nat, add: bv64)
      requires x.Length == 8 && blkCnt > 0 && |blk| == 64 * blkCnt
      modifies this`t0, this`t1, x
      ensures Chain(x[..], t0, t1) == Blocks(W512, old(Chain(x[..], t0, t1)), blk, add)
    {
      hide OneBlock, Load;
      var kw := new bv64[12];
      kw[0], kw[1] := t0, t1;
      var pos, left := 0, blkCnt;
      while left > 0
        invariant pos == 64 * (blkCnt - left) && 0 <= left <= blkCnt
        invariant Blocks(W512, Chain(x[..], kw[0], kw[1]), blk[pos..], add) ==
            Blocks(W512, old(Chain(x[..], t0, t1)), blk, add)
      {
        BlocksStep(W512, Chain(x[..], kw[0], kw[1]), blk, pos, add);
        OneTurn(x, blk[pos..pos + 64], kw, add);
        pos := pos + 64;
        left := left - 1;
      }
      assert blk[pos..] == [];
      t0, t1 := kw[0], kw[1];
    }

    // memcpy behind the waiting bytes.
    method CopyIn(msg: seq<Byte>)
      requires Valid() && bCnt + |msg| <= 64
      modifies this`bCnt, b
      ensures Valid() && Value() == Stored(old(Value()), msg)
    {
      forall i | 0 <= i < |msg| {
        b[bCnt + i] := msg[i];
      }
      assert b[..] == old(b[..bCnt]) + msg + old(b[bCnt + |msg|..]);
      bCnt := bCnt + |msg|;
    }

    // Skein_512_Update.
    method Update(msg: seq<Byte>)
      requires Valid() && |msg| + 64 < TWO64
      modifies this, x, b
      ensures Valid() && Value() == Updated(old(Value()), msg) && hashBitLen == old(hashBitLen)
    {
      hide Stored, Blocks, OneBlock, Load;
      var rest := msg;
      if |msg| + bCnt > 64 {
        if bCnt > 0 {
          var n := 64 - bCnt;
          FillAndProcess(msg[..n]);
          rest := msg[n..];
        }
        ghost var s := Value();
        if |rest| > 64 {
          var n := (|rest| - 1) / 64;
          ProcessBlock(rest[..64 * n], n, 64);
          DirectUnfold(s, rest, n);
          rest := rest[64 * n..];
        } else {
          DirectUnfold(s, rest, 0);
          BlocksUnfold(s.c, rest[..0]);
        }
      }
      CopyIn(rest);
    }

    method FillAndProcess(front: seq<Byte>)
      requires Valid() && bCnt + |front| == 64
      modifies this, x, b
      ensures Valid() && hashBitLen == old(hashBitLen)
      ensures var full := old(b[..bCnt]) + front;
              Value() == St(OneBlock(W512, old(Value()).c, Load(W512, full), 64), 0, full)
    {
      hide OneBlock, Load, Blocks;
      CopyIn(front);
      ghost var full := old(b[..bCnt]) + front;
      assert b[..] == full;
      BlocksUnfold(old(Value()).c, full);
      assert full[..64] == full && full[64..] == [];
      BlocksUnfold(OneBlock(W512, old(Value()).c, Load(W512, full), 64), []);
      ProcessBlock(b[..], 1, 64);
      bCnt := 0;
    }

    // One block from the buffer.
    method ProcessBuffer(add: bv64)
      requires Valid()
      modifies this`t0, this`t1, x
      ensures Valid() && Chain(x[..], t0, t1) == OneBlock(W512, old(Value()).c, Load(W512, b[..]), add)
    {
      hide OneBlock, Load;
      BlocksOne(Value().c, b[..], add);
      ProcessBlock(b[..], 1, add);
    }

    // Skein_512_Final; the output goes to the front of hashVal.
    method Final(hashVal: array<Byte>)
      requires Valid() && hashVal != b && hashBitLen + 7 < TWO64 && hashVal.Length >= (hashBitLen + 7) / 8
      modifies this, x, b, hashVal
      ensures hashVal[..(old(hashBitLen) + 7) / 8] == Output(FinalWords(old(Value())), (old(hashBitLen) + 7) / 8)
      ensures hashVal[(old(hashBitLen) + 7) / 8..] == old(hashVal[(hashBitLen + 7) / 8..])
      ensures Valid() && hashBitLen == old(hashBitLen) && x[..] == FinalWords(old(Value()))
    {
      hide OneBlock, Load, SetFinal, ToWord, Output;
      ghost var s := Value();
      t1 := SetFinal(t1);
      forall i | bCnt <= i < 64 {
        b[i] := 0;
      }
      assert b[..] == ZeroPad(s.b[..bCnt]);
      assert x[..] == s.c.x;
      assert Value().c == s.c.(t1 := SetFinal(s.c.t1));
      ProcessBuffer(ToWord(bCnt));
      assert x[..] == FinalWords(s);
      CounterMode(hashVal, (hashBitLen + 7) / 8);
    }

    // Threefish in counter mode under the key in x.
    method CounterMode(hashVal: array<Byte>, byteCnt: nat)
      requires Valid() && hashVal != b && byteCnt <= hashVal.Length
      modifies this, x, b, hashVal
      ensures hashVal[..byteCnt] == Output(old(x[..]), byteCnt)
      ensures hashVal[byteCnt..] == old(hashVal[byteCnt..])
      ensures Valid() && hashBitLen == old(hashBitLen) && x[..] == old(x[..])
    {
      hide Output, OutputWords, OneBlock, Load, CounterBlock, StoredByte;
      var key := x[..];
      forall i | 0 <= i < 64 {
        b[i] := 0;
      }
      assert x[..] == key;
      var i := 0;
      while 64 * i < byteCnt
        invariant Valid() && x[..] == key && hashBitLen == old(hashBitLen)
        invariant b[8..] == seq(56, j => 0)
        invariant 64 * i < byteCnt ==> hashVal[..64 * i] == Output(key, byteCnt)[..64 * i]
        invariant 64 * i >= byteCnt ==> hashVal[..byteCnt] == Output(key, byteCnt)[..byteCnt]
        invariant hashVal[byteCnt..] == old(hashVal[byteCnt..])
        decreases byteCnt - 64 * i
      {
        OneCounterBlock(i);
        var n := byteCnt - 64 * i;
        if n >= 64 {
          n := 64;
        }
        Put(hashVal, 64 * i, n);
        OutputPart(key, byteCnt, i, n);
        forall j | 0 <= j < 8 {
          x[j] := key[j];
        }
        i := i + 1;
      }
      assert Output(key, byteCnt)[..byteCnt] == Output(key, byteCnt);
    }

    // The counter into the buffer, and one block of a new type.
    method OneCounterBlock(i: nat)
      requires Valid() && b[8..] == seq(56, j => 0)
      modifies this, x, b
      ensures Valid() && b[8..] == seq(56, j => 0) && hashBitLen == old(hashBitLen)
      ensures x[..] == OutputWords(old(x[..]), i)
    {
      hide OneBlock, Load, ToWord, Bytes64, OutputWords;
      var ctr := Bytes64(ToWord(i));
      forall j | 0 <= j < 8 {
        b[j] := ctr[j];
      }
      assert b[..] == CounterBlock(i);
      t0, t1, bCnt := 0, FLAG_FIRST | (TYPE_OUT | FLAG_FINAL), 0;
      assert x[..] == old(x[..]);
      CounterIsUbi(x[..], i);
      ProcessBuffer(8);
    }

    // Skein_Put64_LSB_First.
    method Put(hashVal: array<Byte>, at: nat, n: nat)
      requires x.Length == 8 && n <= 64 && at + n <= hashVal.Length
      modifies hashVal
      ensures hashVal[..] == old(hashVal[..at]) + StoredFirst(x[..], n) + old(hashVal[at + n..])
    {
      hide StoredByte;
      var words := x[..];
      forall j | at <= j < at + n {
        hashVal[j] := StoredByte(words, j - at);
      }
      assert x[..] == words;
    }
  }

  lemma MaskIs(k: nat, mask: Byte)
    requires 0 < k < 8 && mask == 1 << (7 - k)
    ensures mask == (if k == 1 then 0x40 else if k == 2 then 0x20 else if k == 3 then 0x10 else if k == 4 then 0x08
                     else if k == 5 then 0x04 else if k == 6 then 0x02 else 0x01)
  {
  }

  method MaskLast(b: Byte, k: nat) returns (r: Byte)
    requires 0 < k < 8
    ensures r == LastByte(b, k)
  {
    hide LastByte;
    var mask: Byte := 1 << (7 - k);
    MaskIs(k, mask);
    LastByteIs(b, k, mask);
    r := (b & (0 - mask)) | mask;
  }

  // Update on the hashState, for a hash of at most 512 bits: a partial last byte is masked and marked.
  method UpdateBits(c: Ctxt, data: seq<Byte>, bits: nat, ghost x: seq<bv64>) returns (ghost s: St)
    requires c.Valid() && bits <= 8 * |data| && bits < TWO64 && Holds(x, c.Value(), [])
    modifies c, c.x, c.b
    ensures c.Valid() && c.hashBitLen == old(c.hashBitLen)
    ensures s.Valid() && Holds(x, s, BitsOf(data, bits)) && c.Value() == Padded(s, bits % 8 != 0)
  {
    hide Holds, Updated, LastByte, SetBitPad;
    var n := bits / 8;
    UpdateKeeps(x, c.Value(), [], data[..n]);
    assert [] + data[..n] == data[..n];
    c.Update(data[..n]);
    s := c.Value();
    if bits % 8 == 0 {
      NoPadding(s);
    } else {
      var last := MaskLast(data[n], bits % 8);
      UpdateKeeps(x, c.Value(), data[..n], [last]);
      c.Update([last]);
      s := c.Value();
      c.t1 := SetBitPad(c.t1, true);
    }
  }

  lemma NoPadding(s: St)
    requires s.Valid()
    ensures Padded(s, false) == s
  {
  }

  // skein_hash for a hash of at most 512 bits, which is Skein-512.
  method Hash(hashBitLen: nat, data: seq<Byte>, bits: nat, hashVal: array<Byte>)
    requires bits <= 8 * |data| && bits < TWO64 && hashBitLen <= 512 && hashVal.Length >= (hashBitLen + 7) / 8
    modifies hashVal
    ensures hashVal[..(hashBitLen + 7) / 8] == SkeinBits(hashBitLen, data, bits)
    ensures hashVal[(hashBitLen + 7) / 8..] == old(hashVal[(hashBitLen + 7) / 8..])
  {
    hide Holds, Output, FinalWords, SkeinOf, InitialWords, BitsOf, Padded;
    var c := new Ctxt(hashBitLen);
    ghost var x := InitialWords(hashBitLen);
    ghost var s := UpdateBits(c, data, bits, x);
    FinalHashes(x, s, BitsOf(data, bits), hashBitLen, bits % 8 != 0);
    c.Final(hashVal);
  }

  lemma InitialIs(hashBitLen: nat)
    ensures InitialWords(hashBitLen) ==
            match Precomputed(hashBitLen)
            case Some(x) => x
            case None => Configured(hashBitLen)
  {
  }
}
