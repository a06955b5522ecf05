/**
 Machine words and the little-endian views the code takes of them: bytes, 64-bit words and
 16-byte blocks. `Nat` reads a 64-bit word as a number; it is defined bit by bit so that facts
 about masks and shifts can be proved by induction.
 */
module Words {

  const TWO32: nat := 0x1_0000_0000
  const TWO64: nat := 0x1_0000_0000_0000_0000

  type Byte = bv8

  datatype Option<T> = None | Some(value: T)

  // A 16-byte cell, as two little-endian words.
  datatype Block = Block(lo: bv64, hi: bv64)

  function XorBlock(a: Block, b: Block): Block {
    Block(Xor64(a.lo, b.lo), Xor64(a.hi, b.hi))
  }

  function Xor64(x: bv64, y: bv64): bv64 {
    x ^ y
  }

  function Plus64(x: bv64, y: bv64): bv64 {
    x + y
  }

  // Two independent 64-bit additions.
  function SumBlock(a: Block, b: Block): Block {
    Block(Plus64(a.lo, b.lo), Plus64(a.hi, b.hi))
  }

  lemma XorBlockCommutes(a: Block, b: Block)
    ensures XorBlock(a, b) == XorBlock(b, a)
  {
  }

  // ----- words as numbers -----

  function Half(x: bv64): bv64 {
    x >> 1
  }

  function LowBit(x: bv64): nat {
    if x & 1 == 1 then 1 else 0
  }

  function Nat(x: bv64): nat
    decreases x
  {
    if x == 0 then 0 else 2 * Nat(Half(x)) + LowBit(x)
  }

  function Push(w: bv64, b: nat): bv64 {
    (w << 1) | if b == 1 then 1 else 0
  }

  function ToWord(n: nat): bv64 {
    if n == 0 then 0 else Push(ToWord(n / 2), n % 2)
  }

  lemma NatStep(x: bv64)
    ensures Nat(x) == 2 * Nat(Half(x)) + LowBit(x)
    ensures LowBit(x) <= 1
  {
  }

  // A word is its upper bits and its lowest bit.
  lemma SplitLowBit(x: bv64, y: bv64)
    ensures Half(x) == Half(y) && LowBit(x) == LowBit(y) ==> x == y
  {
  }

  lemma MaskLowBit(x: bv64, m: bv64)
    ensures Half(x & m) == Half(x) & Half(m)
    ensures LowBit(x & m) <= LowBit(m)
    ensures m == 0 ==> x & m == 0
  {
  }

  lemma {:induction false} NatInjective(x: bv64, y: bv64)
    requires Nat(x) == Nat(y)
    ensures x == y
    decreases Nat(x)
  {
    hide Nat, LowBit, Half;
    NatPositive(x);
    NatPositive(y);
    if Nat(x) != 0 {
      NatStep(x);
      NatStep(y);
      NatInjective(Half(x), Half(y));
      SplitLowBit(x, y);
    }
  }

  lemma {:induction false} NatPositive(x: bv64)
    ensures Nat(x) > 0 <==> x != 0
    decreases x
  {
    if x != 0 && x & 1 == 0 {
      NatPositive(Half(x));
    }
  }

  // Masking never exceeds the mask, whatever the mask is.
  lemma {:induction false} NatMask(x: bv64, m: bv64)
    ensures Nat(x & m) <= Nat(m)
    decreases Nat(m)
  {
    hide Nat, LowBit, Half;
    MaskLowBit(x, m);
    NatPositive(m);
    if Nat(m) != 0 {
      NatStep(x & m);
      NatStep(m);
      NatMask(Half(x), Half(m));
    }
  }

  lemma HalfPush(w: bv64, b: nat)
    requires w <= 0x7FFF_FFFF_FFFF_FFFF && b <= 1
    ensures Half(Push(w, b)) == w && LowBit(Push(w, b)) == b
  {
  }

  lemma NatPush(w: bv64, b: nat)
    requires w <= 0x7FFF_FFFF_FFFF_FFFF && b <= 1
    ensures Nat(Push(w, b)) == 2 * Nat(w) + b
  {
    hide Nat, LowBit, Half, Push;
    HalfPush(w, b);
    NatStep(Push(w, b));
  }

  lemma PushOnes(w: bv64)
    requires w <= 0x0FFF_FFFF_FFFF_FFFF
    ensures Push(Push(Push(Push(w, 1), 1), 1), 1) == (w << 4) | 0xF
    ensures Push(w, 1) <= 0x7FFF_FFFF_FFFF_FFFF
    ensures Push(Push(w, 1), 1) <= 0x7FFF_FFFF_FFFF_FFFF
    ensures Push(Push(Push(w, 1), 1), 1) <= 0x7FFF_FFFF_FFFF_FFFF
  {
  }

  // Four more set bits.
  lemma NatOnes(w: bv64)
    requires w <= 0x0FFF_FFFF_FFFF_FFFF
    ensures Nat((w << 4) | 0xF) == 16 * Nat(w) + 15
  {
    hide Nat, Push;
    PushOnes(w);
    NatPush(w, 1);
    NatPush(Push(w, 1), 1);
    NatPush(Push(Push(w, 1), 1), 1);
    NatPush(Push(Push(Push(w, 1), 1), 1), 1);
  }

  lemma NatAllOnes()
    ensures Nat(0xFFFF_FFFF_FFFF_FFFF) == TWO64 - 1
    ensures Nat(0x7FFF_FFFF_FFFF_FFFF) == TWO64 / 2 - 1
    ensures Nat(0x1_FFFF) == 0x1_FFFF
  {
    assert Nat(0x1) == 1;
    NatOnes(0);
    NatOnes(0xF);
    NatOnes(0xFF);
    NatOnes(0xFFF);
    NatOnes(0xFFFF);
    NatOnes(0xFFFFF);
    NatOnes(0xFFFFFF);
    NatOnes(0xFFFFFFF);
    NatOnes(0xFFFFFFFF);
    NatOnes(0xFFFFFFFFF);
    NatOnes(0xFFFFFFFFFF);
    NatOnes(0xFFFFFFFFFFF);
    NatOnes(0xFFFFFFFFFFFF);
    NatOnes(0xFFFFFFFFFFFFF);
    NatOnes(0xFFFFFFFFFFFFFF);
    NatOnes(0xFFFFFFFFFFFFFFF);
    assert Nat(0x7FFF_FFFF_FFFF_FFFF) == TWO64 / 2 - 1 by { NatStep(0xFFFF_FFFF_FFFF_FFFF); }
    NatOnes(0x1);
    NatOnes(0x1F);
    NatOnes(0x1FF);
    NatOnes(0x1FFF);
  }

  lemma NatBound(x: bv64)
    ensures Nat(x) < TWO64
  {
    NatAllOnes();
    NatMask(x, 0xFFFF_FFFF_FFFF_FFFF);
    assert x & 0xFFFF_FFFF_FFFF_FFFF == x;
  }

  // Numbers up to an all-ones mask stay below it as words.
  lemma {:induction false} ToWordBound(n: nat, m: bv64)
    requires m & (m + 1) == 0
    requires n <= Nat(m)
    ensures ToWord(n) <= m
  {
    if n != 0 {
      hide Nat, Half, Push, LowBit;
      NatPositive(m);
      NatStep(m);
      OnesHalf(m, ToWord(n / 2), n % 2);
      ToWordBound(n / 2, Half(m));
    }
  }

  lemma OnesHalf(m: bv64, w: bv64, b: nat)
    requires m & (m + 1) == 0 && m != 0
    ensures Half(m) & (Half(m) + 1) == 0
    ensures w <= Half(m) ==> Push(w, b) <= m
  {
  }

  lemma {:induction false} NatToWord(n: nat)
    requires n < TWO64
    ensures Nat(ToWord(n)) == n
  {
    if n != 0 {
      hide Nat, Push;
      NatAllOnes();
      ToWordBound(n / 2, 0x7FFF_FFFF_FFFF_FFFF);
      NatToWord(n / 2);
      NatPush(ToWord(n / 2), n % 2);
    }
  }

  lemma ToWordNat(x: bv64)
    ensures ToWord(Nat(x)) == x
  {
    NatBound(x);
    NatToWord(Nat(x));
    NatInjective(ToWord(Nat(x)), x);
  }

  // ----- addition as numbers -----

  lemma PlusIsSum(x: bv64, y: bv64)
    ensures Plus64(x, y) == x + y
  {
  }

  function Bit(b: bool): bv64 {
    if b then 1 else 0
  }

  function Odd(x: bv64): bool {
    x & 1 == 1
  }

  function Twice(x: bv64): bv64 {
    Plus64(x, x)
  }

  function Majority(a: bool, b: bool, c: bool): bool {
    (a && b) || (a && c) || (b && c)
  }

  function Parity3(a: bool, b: bool, c: bool): bool {
    (a != b) != c
  }

  // Addition with a carry coming in.
  function AddCarry(x: bv64, y: bv64, c: bool): bv64 {
    Plus64(Plus64(x, y), Bit(c))
  }

  lemma SplitOdd(x: bv64)
    ensures x == Plus64(Twice(Half(x)), Bit(Odd(x))) && Half(x) <= 0x7FFF_FFFF_FFFF_FFFF
    ensures LowBit(x) == if Odd(x) then 1 else 0
  {
  }

  lemma BitsAdd(a: bool, b: bool, c: bool)
    ensures Plus64(Plus64(Bit(a), Bit(b)), Bit(c)) == Plus64(Twice(Bit(Majority(a, b, c))), Bit(Parity3(a, b, c)))
  {
  }

  lemma TwiceIs(x: bv64)
    ensures Twice(x) == 2 * x
  {
  }

  lemma SumOfThree(x: bv64, y: bv64, z: bv64)
    ensures Plus64(x + y, z) == Plus64(x, y + z)
  {
  }

  lemma PlusAssociates(x: bv64, y: bv64, z: bv64)
    ensures Plus64(Plus64(x, y), z) == Plus64(x, Plus64(y, z))
  {
    hide Plus64;
    PlusIsSum(x, y);
    PlusIsSum(y, z);
    SumOfThree(x, y, z);
  }

  lemma PlusCommutes(x: bv64, y: bv64)
    ensures Plus64(x, y) == Plus64(y, x)
  {
  }

  lemma PlusZero(x: bv64)
    ensures Plus64(x, 0) == x
  {
  }

  lemma Exchange(p: bv64, q: bv64, r: bv64, s: bv64)
    ensures Plus64(Plus64(p, q), Plus64(r, s)) == Plus64(Plus64(p, r), Plus64(q, s))
  {
    hide Plus64;
    PlusAssociates(p, q, Plus64(r, s));
    PlusAssociates(q, r, s);
    PlusCommutes(q, r);
    PlusAssociates(r, q, s);
    PlusAssociates(p, r, Plus64(q, s));
  }

  lemma Collect(h: bv64, g: bv64, a: bv64, b: bv64, c: bv64)
    ensures Plus64(Plus64(Plus64(Twice(h), a), Plus64(Twice(g), b)), c)
         == Plus64(Twice(Plus64(h, g)), Plus64(Plus64(a, b), c))
  {
    hide Plus64;
    Exchange(Twice(h), a, Twice(g), b);
    Exchange(h, h, g, g);
    PlusAssociates(Twice(Plus64(h, g)), Plus64(a, b), c);
  }

  lemma Distribute(s: bv64, m: bv64, l: bv64)
    ensures Plus64(Twice(s), Plus64(Twice(m), l)) == Plus64(Twice(Plus64(s, m)), l)
  {
    hide Plus64;
    PlusAssociates(Twice(s), Twice(m), l);
    Exchange(s, s, m, m);
  }

  // One step of the addition by hand.
  lemma AddStep(x: bv64, y: bv64, c: bool)
    ensures AddCarry(x, y, c)
         == Plus64(Twice(AddCarry(Half(x), Half(y), Majority(Odd(x), Odd(y), c))), Bit(Parity3(Odd(x), Odd(y), c)))
  {
    hide Half, Odd, Majority, Parity3, Bit, Plus64, Twice;
    SplitOdd(x);
    SplitOdd(y);
    BitsAdd(Odd(x), Odd(y), c);
    Collect(Half(x), Half(y), Bit(Odd(x)), Bit(Odd(y)), Bit(c));
    Distribute(Plus64(Half(x), Half(y)), Bit(Majority(Odd(x), Odd(y), c)), Bit(Parity3(Odd(x), Odd(y), c)));
  }

  lemma DoubleSplits(s: bv64, b: bool)
    requires s <= 0x7FFF_FFFF_FFFF_FFFF
    ensures Half(2 * s + Bit(b)) == s && LowBit(2 * s + Bit(b)) == if b then 1 else 0
  {
  }

  lemma NatDouble(s: bv64, b: bool)
    requires s <= 0x7FFF_FFFF_FFFF_FFFF
    ensures Nat(Plus64(Twice(s), Bit(b))) == 2 * Nat(s) + if b then 1 else 0
  {
    hide Nat, Plus64, Twice, Half, LowBit, Bit;
    TwiceIs(s);
    PlusIsSum(2 * s, Bit(b));
    DoubleSplits(s, b);
    NatStep(2 * s + Bit(b));
  }

  lemma HalvesFit(x: bv64, y: bv64, c: bool)
    requires x <= 0x7FFF_FFFF_FFFF_FFFF && y <= 0x7FFF_FFFF_FFFF_FFFF
    ensures AddCarry(Half(x), Half(y), c) <= 0x7FFF_FFFF_FFFF_FFFF
  {
  }

  lemma BitsCount(a: bool, b: bool, c: bool)
    ensures (if a then 1 else 0) + (if b then 1 else 0) + (if c then 1 else 0)
         == (if Majority(a, b, c) then 2 else 0) + (if Parity3(a, b, c) then 1 else 0)
  {
  }

  // The sum of two words as numbers, when the upper bits do not run over.
  lemma {:induction false} NatSumFits(x: bv64, y: bv64, c: bool)
    requires AddCarry(Half(x), Half(y), Majority(Odd(x), Odd(y), c)) <= 0x7FFF_FFFF_FFFF_FFFF
    ensures Nat(AddCarry(x, y, c)) == Nat(x) + Nat(y) + if c then 1 else 0
    decreases Nat(x) + Nat(y)
  {
    hide *;
    var hx, hy, m := Half(x), Half(y), Majority(Odd(x), Odd(y), c);
    NatPositive(x);
    NatPositive(y);
    if Nat(x) == 0 && Nat(y) == 0 {
      ZeroSum(c);
    } else {
      NatStep(x);
      NatStep(y);
      SplitOdd(x);
      SplitOdd(y);
      HalvesFit(hx, hy, Majority(Odd(hx), Odd(hy), m));
      NatSumFits(hx, hy, m);
      BitsCount(Odd(x), Odd(y), c);
      AddStep(x, y, c);
      NatDouble(AddCarry(hx, hy, m), Parity3(Odd(x), Odd(y), c));
    }
  }

  lemma ZeroSum(c: bool)
    ensures Nat(AddCarry(0, 0, c)) == if c then 1 else 0
  {
    assert Nat(1) == 2 * Nat(0) + 1;
  }

  lemma WordAtMost(x: bv64, m: bv64)
    requires m & (m + 1) == 0 && Nat(x) <= Nat(m)
    ensures x <= m
  {
    ToWordNat(x);
    ToWordBound(Nat(x), m);
  }

  // Word addition is addition of numbers as long as the sum fits.
  lemma NatPlus(x: bv64, y: bv64)
    requires Nat(x) + Nat(y) < TWO64
    ensures Nat(Plus64(x, y)) == Nat(x) + Nat(y)
  {
    hide Nat, Half, Odd, Bit, Plus64, LowBit, AddCarry;
    var hx, hy, m := Half(x), Half(y), Majority(Odd(x), Odd(y), false);
    SplitOdd(x);
    SplitOdd(y);
    NatStep(x);
    NatStep(y);
    HalvesFit(hx, hy, Majority(Odd(hx), Odd(hy), m));
    NatSumFits(hx, hy, m);
    NatAllOnes();
    WordAtMost(AddCarry(hx, hy, m), 0x7FFF_FFFF_FFFF_FFFF);
    NatSumFits(x, y, false);
    NoCarryIn(x, y);
  }

  lemma NoCarryIn(x: bv64, y: bv64)
    ensures AddCarry(x, y, false) == Plus64(x, y)
  {
    hide Plus64;
    PlusZero(Plus64(x, y));
  }

  // ----- bytes -----

  // Messages that arrive in several chunks.
  function Concat(chunks: seq<seq<Byte>>): seq<Byte> {
    if chunks == [] then [] else Concat(chunks[..|chunks| - 1]) + chunks[|chunks| - 1]
  }

  function ByteAt(w: bv64, k: nat): Byte
    requires k < 8
  {
    if k == 0 then (w & 0xFF) as Byte
    else if k == 1 then ((w >> 8) & 0xFF) as Byte
    else if k == 2 then ((w >> 16) & 0xFF) as Byte
    else if k == 3 then ((w >> 24) & 0xFF) as Byte
    else if k == 4 then ((w >> 32) & 0xFF) as Byte
    else if k == 5 then ((w >> 40) & 0xFF) as Byte
    else if k == 6 then ((w >> 48) & 0xFF) as Byte
    else ((w >> 56) & 0xFF) as Byte
  }

  function Bytes64(w: bv64): (s: seq<Byte>)
    ensures |s| == 8
  {
    seq(8, k requires 0 <= k < 8 => ByteAt(w, k))
  }

  function Word64(s: seq<Byte>): bv64
    requires |s| == 8
  {
    FromBytes(s[0], s[1], s[2], s[3], s[4], s[5], s[6], s[7])
  }

  function FromBytes(b0: Byte, b1: Byte, b2: Byte, b3: Byte, b4: Byte, b5: Byte, b6: Byte, b7: Byte): bv64 {
    (b0 as bv64) | ((b1 as bv64) << 8) | ((b2 as bv64) << 16) | ((b3 as bv64) << 24) |
    ((b4 as bv64) << 32) | ((b5 as bv64) << 40) | ((b6 as bv64) << 48) | ((b7 as bv64) << 56)
  }

  lemma WordOfBytes(w: bv64)
    ensures Word64(Bytes64(w)) == w
  {
  }

  lemma BytesOfWord(s: seq<Byte>)
    requires |s| == 8
    ensures Bytes64(Word64(s)) == s
  {
  }

  function XorByte(x: Byte, y: Byte): Byte {
    x ^ y
  }

  lemma XorByteCommutes(x: Byte, y: Byte)
    ensures XorByte(x, y) == XorByte(y, x)
  {
  }

  lemma XorByteAssociates(x: Byte, y: Byte, z: Byte)
    ensures XorByte(XorByte(x, y), z) == XorByte(x, XorByte(y, z))
  {
  }

  lemma XorByteCancels(x: Byte, y: Byte)
    ensures XorByte(XorByte(x, y), y) == x
    ensures XorByte(x, 0) == x
  {
  }

  // Bytewise xor is wordwise xor.
  lemma XorByteAt(x: bv64, y: bv64)
    ensures ByteAt(x ^ y, 0) == XorByte(ByteAt(x, 0), ByteAt(y, 0))
    ensures ByteAt(x ^ y, 1) == XorByte(ByteAt(x, 1), ByteAt(y, 1))
    ensures ByteAt(x ^ y, 2) == XorByte(ByteAt(x, 2), ByteAt(y, 2))
    ensures ByteAt(x ^ y, 3) == XorByte(ByteAt(x, 3), ByteAt(y, 3))
    ensures ByteAt(x ^ y, 4) == XorByte(ByteAt(x, 4), ByteAt(y, 4))
    ensures ByteAt(x ^ y, 5) == XorByte(ByteAt(x, 5), ByteAt(y, 5))
    ensures ByteAt(x ^ y, 6) == XorByte(ByteAt(x, 6), ByteAt(y, 6))
    ensures ByteAt(x ^ y, 7) == XorByte(ByteAt(x, 7), ByteAt(y, 7))
  {
  }

  lemma XorBytes64(x: bv64, y: bv64, r: seq<Byte>)
    requires |r| == 8
    requires forall k :: 0 <= k < 8 ==> r[k] == XorByte(Bytes64(x)[k], Bytes64(y)[k])
    ensures Word64(r) == Xor64(x, y)
  {
    hide ByteAt, Word64, XorByte;
    forall k | 0 <= k < 8
      ensures r[k] == Bytes64(x ^ y)[k]
    {
      assert k == 0 || k == 1 || k == 2 || k == 3 || k == 4 || k == 5 || k == 6 || k == 7;
      XorByteAt(x, y);
    }
    assert r == Bytes64(x ^ y);
    WordOfBytes(x ^ y);
  }

  function BlockBytes(b: Block): (s: seq<Byte>)
    ensures |s| == 16
  {
    Bytes64(b.lo) + Bytes64(b.hi)
  }

  function BytesBlock(s: seq<Byte>): Block
    requires |s| == 16
  {
    Block(Word64(s[..8]), Word64(s[8..]))
  }

  lemma BlockOfBytes(b: Block)
    ensures BytesBlock(BlockBytes(b)) == b
  {
    WordOfBytes(b.lo);
    WordOfBytes(b.hi);
    assert BlockBytes(b)[..8] == Bytes64(b.lo) && BlockBytes(b)[8..] == Bytes64(b.hi);
  }

  lemma BytesOfBlock(s: seq<Byte>)
    requires |s| == 16
    ensures BlockBytes(BytesBlock(s)) == s
  {
    BytesOfWord(s[..8]);
    BytesOfWord(s[8..]);
  }

  lemma XorBytesBlock(a: Block, b: Block, r: seq<Byte>)
    requires |r| == 16
    requires forall k :: 0 <= k < 16 ==> r[k] == XorByte(BlockBytes(a)[k], BlockBytes(b)[k])
    ensures BytesBlock(r) == XorBlock(a, b)
  {
    hide Bytes64, Word64, XorByte, Xor64;
    var lo, hi := r[..8], r[8..];
    assert forall k :: 0 <= k < 8 ==> lo[k] == r[k] && hi[k] == r[k + 8];
    XorBytes64(a.lo, b.lo, lo);
    XorBytes64(a.hi, b.hi, hi);
  }
}
