/**
 The CryptoNight mixing loop: one reference step over the scratchpad, and the four loops the code
 contains (portable copy and swap, ARM in place, x86 registers, and the 64-bit scalar one), each
 proved to run that step. The AES round is a parameter `aes(block, key)`; the modules about AES
 show that the routines plugged in there are the same function.

 The scratchpad is an array of 16-byte cells. Addresses are masked with `mask`, one less than the
 number of cells. The code only uses powers of two there, but nothing below depends on it.
 */
module CryptoNight {
  import opened Words
  import opened WideMul

  type Round = (Block, Block) -> Block

  datatype Mix = Mix(mem: seq<Block>, a: Block, b: Block)

  // The scratchpad has exactly the cells that masked addresses reach.
  predicate Covers(size: nat, mask: bv64) {
    size == Nat(mask) + 1
  }

  // ----- the reference step -----

  function Cell(x: bv64, mask: bv64): (j: nat)
    ensures j <= Nat(mask)
  {
    NatMask(x >> 4, mask);
    Nat((x >> 4) & mask)
  }

  // Variant 1 adds a two-bit value to a byte, chosen by bits 5, 4 and 0 of that byte.
  function TweakBits(x: bv8): bv8 {
    if x & 0x20 == 0 then
      if x & 0x10 == 0 then (if x & 1 == 0 then 1 else 0) else (if x & 1 == 0 then 3 else 0)
    else
      if x & 0x10 == 0 then (if x & 1 == 0 then 1 else 1) else (if x & 1 == 0 then 3 else 1)
  }

  // Byte 11 of a block, which is byte 3 of its upper word.
  function Byte3(w: bv64): bv8 {
    ((w >> 24) & 0xFF) as bv8
  }

  function SetByte3(w: bv64, v: bv8): bv64 {
    (w & 0xFFFF_FFFF_00FF_FFFF) | ((v as bv64) << 24)
  }

  function Byte11(b: Block): bv8 {
    Byte3(b.hi)
  }

  function SetByte11(b: Block, v: bv8): Block {
    Block(b.lo, SetByte3(b.hi, v))
  }

  function Tweak1(variant: int, b: Block): Block {
    if variant > 0 then SetByte11(b, XorByte(Byte11(b), TweakBits(Byte11(b)) << 4)) else b
  }

  function Tweak2(variant: int, tweak: bv64, b: Block): Block {
    if variant > 0 then Block(b.lo, Xor64(b.hi, tweak)) else b
  }

  // The upper and lower word of a product.
  function MulHi(x: bv64, y: bv64): bv64 {
    ToWord(Nat(x) * Nat(y) / TWO64)
  }

  function MulLo(x: bv64, y: bv64): bv64 {
    ToWord(Nat(x) * Nat(y) % TWO64)
  }

  // Adds the product of two words to a block, upper word first.
  function AddProduct(a: Block, x: bv64, y: bv64): Block {
    SumBlock(a, Block(MulHi(x, y), MulLo(x, y)))
  }

  // The AES half: one cell is encrypted under `a`, mixed with `b` and written back.
  function FirstHalf(aes: Round, mask: bv64, variant: int, s: Mix): (t: Mix)
    requires Covers(|s.mem|, mask)
    ensures |t.mem| == |s.mem|
  {
    var i := Cell(s.a.lo, mask);
    var c := aes(s.mem[i], s.a);
    Mix(s.mem[i := Tweak1(variant, XorBlock(s.b, c))], s.a, c)
  }

  // The multiplying half: the cell that the encrypted block addresses is exchanged for a sum.
  function SecondHalf(mask: bv64, variant: int, tweak: bv64, s: Mix): (t: Mix)
    requires Covers(|s.mem|, mask)
    ensures |t.mem| == |s.mem|
  {
    var j := Cell(s.b.lo, mask);
    var sum := AddProduct(s.a, s.b.lo, s.mem[j].lo);
    Mix(s.mem[j := Tweak2(variant, tweak, sum)], XorBlock(sum, s.mem[j]), s.b)
  }

  function Step(aes: Round, mask: bv64, variant: int, tweak: bv64, s: Mix): (t: Mix)
    requires Covers(|s.mem|, mask)
    ensures |t.mem| == |s.mem|
  {
    SecondHalf(mask, variant, tweak, FirstHalf(aes, mask, variant, s))
  }

  function Run(aes: Round, mask: bv64, variant: int, tweak: bv64, n: nat, s: Mix): (t: Mix)
    requires Covers(|s.mem|, mask)
    ensures |t.mem| == |s.mem|
  {
    if n == 0 then s else Step(aes, mask, variant, tweak, Run(aes, mask, variant, tweak, n - 1, s))
  }

  lemma StepCongruence(aes: Round, aes': Round, mask: bv64, variant: int, tweak: bv64, s: Mix)
    requires Covers(|s.mem|, mask)
    requires forall x, k :: aes(x, k) == aes'(x, k)
    ensures Step(aes, mask, variant, tweak, s) == Step(aes', mask, variant, tweak, s)
  {
    hide XorBlock, Tweak1, Tweak2, AddProduct, Nat, SecondHalf;
    assert aes(s.mem[Cell(s.a.lo, mask)], s.a) == aes'(s.mem[Cell(s.a.lo, mask)], s.a);
  }

  // Only the values of the round matter, not which routine computes them.
  lemma {:induction false} RunCongruence(aes: Round, aes': Round, mask: bv64, variant: int, tweak: bv64, n: nat, s: Mix)
    requires Covers(|s.mem|, mask)
    requires forall x, k :: aes(x, k) == aes'(x, k)
    ensures Run(aes, mask, variant, tweak, n, s) == Run(aes', mask, variant, tweak, n, s)
  {
    hide Step;
    if n != 0 {
      RunCongruence(aes, aes', mask, variant, tweak, n - 1, s);
      StepCongruence(aes, aes', mask, variant, tweak, Run(aes, mask, variant, tweak, n - 1, s));
    }
  }

  // ----- what the loops compute with -----

  // Twice the number that bits 5, 4 and 0 of a byte make.
  function TweakIndex(tmp: bv8): bv8 {
    (((tmp >> 3) & 6) | (tmp & 1)) << 1
  }

  // The table shifted in place, and the two bits taken from the table.
  function ByteTweak(tmp: bv8): bv8 {
    ((0x75310 as bv32 >> TweakIndex(tmp)) & 0x30) as bv8
  }

  function WordTweak(x: bv8): bv64 {
    (0x7531 as bv64 >> TweakIndex(x)) & 0x3
  }

  // VARIANT1_1, on byte 11.
  function Variant1Byte(b: Block): Block {
    var tmp := Byte11(b);
    SetByte11(b, XorByte(tmp, ByteTweak(tmp)))
  }

  // The same inside the 64-bit loop, on the upper word.
  function Variant1Word(vh: bv64): bv64 {
    Xor64(vh, WordTweak(Byte3(vh)) << 28)
  }

  lemma TweakIndexValues(x: bv8)
    ensures TweakIndex(x) ==
            (if x & 0x20 == 0 then 0 else 8) + (if x & 0x10 == 0 then 0 else 4) + (if x & 1 == 0 then 0 else 2)
  {
  }

  lemma ByteTweakIs(x: bv8)
    ensures ByteTweak(x) == TweakBits(x) << 4
  {
    hide TweakIndex;
    TweakIndexValues(x);
  }

  lemma WordTweakIs(x: bv8)
    ensures WordTweak(x) == TweakBits(x) as bv64
  {
    hide TweakIndex;
    TweakIndexValues(x);
  }

  // Two bits added to the upper half of byte 3, or at bit 28.
  lemma TweakPosition(w: bv64, t: bv8)
    requires t < 4
    ensures Xor64(w, (t as bv64) << 28) == SetByte3(w, XorByte(Byte3(w), t << 4))
  {
  }

  lemma TweakBitsSmall(x: bv8)
    ensures TweakBits(x) < 4
  {
  }

  lemma Variant1Forms(variant: int, b: Block)
    requires variant > 0
    ensures Variant1Byte(b) == Tweak1(variant, b)
    ensures Block(b.lo, Variant1Word(b.hi)) == Tweak1(variant, b)
  {
    hide TweakBits, ByteTweak, WordTweak, SetByte3, Byte3, XorByte, Xor64;
    ByteTweakIs(Byte3(b.hi));
    WordTweakIs(Byte3(b.hi));
    TweakBitsSmall(Byte3(b.hi));
    TweakPosition(b.hi, TweakBits(Byte3(b.hi)));
  }

  // The four address computations, as byte offsets.
  function OffsetPortable(x: bv64, mask: bv64): bv64 {
    ((x / 16) & mask) * 16
  }

  function OffsetX86(x: bv64, mask: bv64): bv64 {
    ((x >> 4) & mask) << 4
  }

  function OffsetArm32(x: bv64, mask: bv64): bv64 {
    (((x & 0xFFFF_FFFF) as bv32) & (((mask << 4) & 0xFFFF_FFFF) as bv32)) as bv64
  }

  function OffsetScalar(x: bv64, mask: bv64): bv64 {
    x & (mask << 4)
  }

  // The number of the cell at a byte offset.
  function CellAt(offset: bv64): nat {
    Nat(offset >> 4)
  }

  lemma OffsetPortableForm(x: bv64, mask: bv64)
    ensures OffsetPortable(x, mask) == OffsetX86(x, mask)
  {
    assert x / 16 == x >> 4;
  }

  lemma OffsetScalarForm(x: bv64, mask: bv64)
    ensures OffsetScalar(x, mask) == OffsetX86(x, mask)
  {
  }

  lemma OffsetArm32Form(x: bv64, mask: bv64)
    requires mask < 0x1000_0000
    ensures OffsetArm32(x, mask) == OffsetX86(x, mask)
  {
  }

  lemma OffsetCell(x: bv64, mask: bv64)
    ensures CellAt(OffsetX86(x, mask)) == Cell(x, mask)
    ensures OffsetX86(x, mask) & 0xF == 0
  {
    assert OffsetX86(x, mask) >> 4 == (x >> 4) & mask;
  }

  // ----- the four loops: reading and writing the cell at a byte offset are array accesses -----

  // `mul` of the portable code, through mul128: upper word first.
  method MulPortable(a: Block, c: Block) returns (d: Block)
    ensures d == Block(MulHi(a.lo, c.lo), MulLo(a.lo, c.lo))
  {
    NatBound(a.lo);
    NatBound(c.lo);
    var lo, hi := Mul128(Nat(a.lo), Nat(c.lo));
    ProductWords(Nat(a.lo) * Nat(c.lo), lo, hi);
    d := Block(ToWord(hi), ToWord(lo));
  }

  // `mul` of the ARM code, from 32-bit limbs.
  method MulArm(a: Block, c: Block) returns (d: Block)
    ensures d == Block(MulHi(a.lo, c.lo), MulLo(a.lo, c.lo))
  {
    NatBound(a.lo);
    NatBound(c.lo);
    var lo, hi := LimbMul(Nat(a.lo), Nat(c.lo));
    ProductWords(Nat(a.lo) * Nat(c.lo), lo, hi);
    d := Block(ToWord(hi), ToWord(lo));
  }

  lemma ProductWords(product: nat, lo: nat, hi: nat)
    requires hi * TWO64 + lo == product && lo < TWO64
    ensures hi == product / TWO64 && lo == product % TWO64
  {
  }

  // xor_blocks of the portable code, one byte at a time.
  method XorBytewise(a: Block, b: Block) returns (r: Block)
    ensures r == XorBlock(a, b)
  {
    hide XorByte, Bytes64, XorBlock;
    var bytes, other := BlockBytes(a), BlockBytes(b);
    for i := 0 to 16
      invariant |bytes| == 16
      invariant forall k :: 0 <= k < i ==> bytes[k] == XorByte(BlockBytes(a)[k], other[k])
      invariant forall k :: i <= k < 16 ==> bytes[k] == BlockBytes(a)[k]
    {
      bytes := bytes[i := XorByte(bytes[i], other[i])];
    }
    r := BytesBlock(bytes);
    XorBytesBlock(a, b, bytes);
  }

  method PortableFirstHalf(longState: array<Block>, mask: bv64, aes: Round, variant: int, a0: Block, b0: Block)
    returns (a: Block, b: Block)
    requires Covers(longState.Length, mask)
    modifies longState
    ensures Mix(longState[..], b, a) == FirstHalf(aes, mask, variant, Mix(old(longState[..]), a0, b0))
  {
    hide XorBlock, Variant1Byte, SetByte11, Byte11, TweakBits, Nat, OffsetPortable, OffsetX86, CellAt;
    a, b := a0, b0;
    var j := OffsetPortable(a.lo, mask);
    OffsetPortableForm(a.lo, mask);
    OffsetCell(a.lo, mask);
    var c := longState[CellAt(j)];
    c := aes(c, a);
    b := XorBytewise(b, c);
    b, c := c, b;
    longState[CellAt(j)] := c;
    assert j == OffsetPortable(a.lo, mask);
    a, b := b, a;
    if variant > 0 {
      longState[CellAt(j)] := Variant1Byte(longState[CellAt(j)]);
      Variant1Forms(variant, c);
    }
    assert longState[..] == old(longState[..])[Cell(a0.lo, mask) := Tweak1(variant, c)];
  }

  method PortableSecondHalf(longState: array<Block>, mask: bv64, variant: int, tweak: bv64, a0: Block, b0: Block)
    returns (a: Block, b: Block)
    requires Covers(longState.Length, mask)
    modifies longState
    ensures Mix(longState[..], a, b) == SecondHalf(mask, variant, tweak, Mix(old(longState[..]), b0, a0))
  {
    hide XorBlock, SumBlock, Xor64, MulHi, MulLo, Nat, OffsetPortable, OffsetX86, CellAt;
    a, b := a0, b0;
    var j := OffsetPortable(a.lo, mask);
    OffsetPortableForm(a.lo, mask);
    OffsetCell(a.lo, mask);
    var c := longState[CellAt(j)];
    var d := MulPortable(a, c);
    b := SumBlock(b, d);
    b, c := c, b;
    XorBlockCommutes(b, c);
    b := XorBytewise(b, c);
    if variant > 0 {
      c := Block(c.lo, Xor64(c.hi, tweak));
    }
    longState[CellAt(j)] := c;
    assert j == OffsetPortable(a.lo, mask);
    a, b := b, a;
    assert longState[..] == old(longState[..])[Cell(a0.lo, mask) := c];
  }

  method PortableLoop(longState: array<Block>, mask: bv64, aes: Round, variant: int, tweak: bv64, iterations: nat,
                      a0: Block, b0: Block)
    returns (a: Block, b: Block)
    requires Covers(longState.Length, mask)
    modifies longState
    ensures Mix(longState[..], a, b)
         == Run(aes, mask, variant, tweak, iterations, Mix(old(longState[..]), a0, b0))
  {
    hide FirstHalf, SecondHalf, Nat;
    a, b := a0, b0;
    for i := 0 to iterations
      invariant Mix(longState[..], a, b) == Run(aes, mask, variant, tweak, i, Mix(old(longState[..]), a0, b0))
    {
      a, b := PortableFirstHalf(longState, mask, aes, variant, a, b);
      a, b := PortableSecondHalf(longState, mask, variant, tweak, a, b);
    }
  }

  // `aesb_single_round(p, p, a)` and everything after it work directly on the cell.
  method ArmFirstHalf(longState: array<Block>, mask: bv64, aes: Round, variant: int, a0: Block, b0: Block)
    returns (a: Block, b: Block)
    requires Covers(longState.Length, mask) && mask < 0x1000_0000
    modifies longState
    ensures Mix(longState[..], b, a) == FirstHalf(aes, mask, variant, Mix(old(longState[..]), a0, b0))
  {
    hide XorBlock, Variant1Byte, SetByte11, Byte11, TweakBits, Nat, OffsetArm32, OffsetX86, CellAt;
    a, b := a0, b0;
    var p := OffsetArm32(a.lo, mask);
    OffsetArm32Form(a.lo, mask);
    OffsetCell(a.lo, mask);
    longState[CellAt(p)] := aes(longState[CellAt(p)], a);
    b := XorBlock(b, longState[CellAt(p)]);
    b, longState[CellAt(p)] := longState[CellAt(p)], b;
    a, b := b, a;
    ghost var c := longState[CellAt(p)];
    if variant > 0 {
      longState[CellAt(p)] := Variant1Byte(longState[CellAt(p)]);
      Variant1Forms(variant, c);
    }
    assert longState[..] == old(longState[..])[Cell(a0.lo, mask) := Tweak1(variant, c)];
  }

  method ArmSecondHalf(longState: array<Block>, mask: bv64, variant: int, tweak: bv64, a0: Block, b0: Block)
    returns (a: Block, b: Block)
    requires Covers(longState.Length, mask) && mask < 0x1000_0000
    modifies longState
    ensures Mix(longState[..], a, b) == SecondHalf(mask, variant, tweak, Mix(old(longState[..]), b0, a0))
  {
    hide XorBlock, SumBlock, Xor64, MulHi, MulLo, Nat, OffsetArm32, OffsetX86, CellAt;
    a, b := a0, b0;
    var p := OffsetArm32(a.lo, mask);
    OffsetArm32Form(a.lo, mask);
    OffsetCell(a.lo, mask);
    var d := MulArm(a, longState[CellAt(p)]);
    b := SumBlock(b, d);
    b, longState[CellAt(p)] := longState[CellAt(p)], b;
    XorBlockCommutes(b, longState[CellAt(p)]);
    b := XorBlock(b, longState[CellAt(p)]);
    a, b := b, a;
    ghost var sum := longState[CellAt(p)];
    if variant > 0 {
      longState[CellAt(p)] := Block(longState[CellAt(p)].lo, Xor64(longState[CellAt(p)].hi, tweak));
    }
    assert longState[..] == old(longState[..])[Cell(a0.lo, mask) := Tweak2(variant, tweak, sum)];
  }

  method ArmLoop(longState: array<Block>, mask: bv64, aes: Round, variant: int, tweak: bv64, iterations: nat,
                 a0: Block, b0: Block)
    returns (a: Block, b: Block)
    requires Covers(longState.Length, mask) && mask < 0x1000_0000
    modifies longState
    ensures Mix(longState[..], a, b)
         == Run(aes, mask, variant, tweak, iterations, Mix(old(longState[..]), a0, b0))
  {
    hide FirstHalf, SecondHalf, Nat;
    a, b := a0, b0;
    for i := 0 to iterations
      invariant Mix(longState[..], a, b) == Run(aes, mask, variant, tweak, i, Mix(old(longState[..]), a0, b0))
    {
      a, b := ArmFirstHalf(longState, mask, aes, variant, a, b);
      a, b := ArmSecondHalf(longState, mask, variant, tweak, a, b);
    }
  }

  // pre_aes, the round, and post_aes up to VARIANT1_1. The ARMv8 loop is the same text with its own round.
  method X86FirstHalf(hp: array<Block>, mask: bv64, aes: Round, variant: int, a: Block, b0: Block)
    returns (c: Block)
    requires Covers(hp.Length, mask)
    modifies hp
    ensures Mix(hp[..], a, c) == FirstHalf(aes, mask, variant, Mix(old(hp[..]), a, b0))
  {
    hide XorBlock, Variant1Byte, SetByte11, Byte11, TweakBits, Nat, OffsetX86, CellAt;
    var j := OffsetX86(a.lo, mask);
    OffsetCell(a.lo, mask);
    c := hp[CellAt(j)];
    c := aes(c, a);
    var b := XorBlock(b0, c);
    hp[CellAt(j)] := b;
    if variant > 0 {
      hp[CellAt(j)] := Variant1Byte(hp[CellAt(j)]);
      Variant1Forms(variant, b);
    }
    assert hp[..] == old(hp[..])[Cell(a.lo, mask) := Tweak1(variant, b)];
  }

  method X86SecondHalf(hp: array<Block>, mask: bv64, variant: int, tweak: bv64, a0: Block, c: Block)
    returns (a: Block, b: Block)
    requires Covers(hp.Length, mask)
    modifies hp
    ensures Mix(hp[..], a, b) == SecondHalf(mask, variant, tweak, Mix(old(hp[..]), a0, c))
  {
    hide XorBlock, SumBlock, Xor64, MulHi, MulLo, Nat, OffsetX86, CellAt;
    a := a0;
    var j := OffsetX86(c.lo, mask);
    OffsetCell(c.lo, mask);
    b := hp[CellAt(j)];
    var hi, lo := MulHi(c.lo, b.lo), MulLo(c.lo, b.lo);
    a := SumBlock(a, Block(hi, lo));
    hp[CellAt(j)] := a;
    ghost var sum := a;
    a := XorBlock(a, b);
    if variant > 0 {
      hp[CellAt(j)] := Block(hp[CellAt(j)].lo, Xor64(hp[CellAt(j)].hi, tweak));
    }
    b := c;
    assert hp[..] == old(hp[..])[Cell(c.lo, mask) := Tweak2(variant, tweak, sum)];
  }

  method X86Loop(hp: array<Block>, mask: bv64, aes: Round, variant: int, tweak: bv64, iterations: nat,
                 a0: Block, b0: Block)
    returns (a: Block, b: Block)
    requires Covers(hp.Length, mask)
    modifies hp
    ensures Mix(hp[..], a, b) == Run(aes, mask, variant, tweak, iterations, Mix(old(hp[..]), a0, b0))
  {
    hide FirstHalf, SecondHalf, Nat;
    a, b := a0, b0;
    for i := 0 to iterations
      invariant Mix(hp[..], a, b) == Run(aes, mask, variant, tweak, i, Mix(old(hp[..]), a0, b0))
    {
      var c := X86FirstHalf(hp, mask, aes, variant, a, b);
      a, b := X86SecondHalf(hp, mask, variant, tweak, a, c);
    }
  }

  // The loop of monero_cpu_fast: variant 1 only, `idx` carries the next address, and the two
  // words of a cell are written one after the other.
  method ScalarFirstHalf(memory: array<Block>, mask: bv64, aes: Round, idx: bv64, a: Block, bx: Block)
    returns (cx: Block)
    requires Covers(memory.Length, mask) && idx == a.lo
    modifies memory
    ensures Mix(memory[..], a, cx) == FirstHalf(aes, mask, 1, Mix(old(memory[..]), a, bx))
  {
    hide XorBlock, Variant1Word, Variant1Byte, SetByte11, Byte11, TweakBits, Nat, OffsetScalar, OffsetX86, CellAt;
    var m := OffsetScalar(idx, mask);
    OffsetScalarForm(idx, mask);
    OffsetCell(idx, mask);
    cx := memory[CellAt(m)];
    cx := aes(cx, a);
    var tmp := XorBlock(bx, cx);
    memory[CellAt(m)] := Block(tmp.lo, memory[CellAt(m)].hi);
    var vh := tmp.hi;
    vh := Variant1Word(vh);
    memory[CellAt(m)] := Block(memory[CellAt(m)].lo, vh);
    Variant1Forms(1, tmp);
    assert memory[..] == old(memory[..])[Cell(a.lo, mask) := Tweak1(1, tmp)];
  }

  method ScalarSecondHalf(memory: array<Block>, mask: bv64, tweak: bv64, a: Block, cx: Block)
    returns (al: bv64, ah: bv64)
    requires Covers(memory.Length, mask)
    modifies memory
    ensures Mix(memory[..], Block(al, ah), cx) == SecondHalf(mask, 1, tweak, Mix(old(memory[..]), a, cx))
  {
    hide Plus64, Xor64, MulHi, MulLo, Nat, OffsetScalar, OffsetX86, CellAt;
    var idx := cx.lo;
    var m := OffsetScalar(idx, mask);
    OffsetScalarForm(idx, mask);
    OffsetCell(idx, mask);
    var cl, ch := memory[CellAt(m)].lo, memory[CellAt(m)].hi;
    var hi, lo := MulHi(idx, cl), MulLo(idx, cl);
    al, ah := Plus64(a.lo, hi), Plus64(a.hi, lo);
    memory[CellAt(m)] := Block(al, memory[CellAt(m)].hi);
    memory[CellAt(m)] := Block(memory[CellAt(m)].lo, Xor64(ah, tweak));
    assert memory[..] == old(memory[..])[Cell(cx.lo, mask) := Tweak2(1, tweak, Block(al, ah))];
    al, ah := Xor64(al, cl), Xor64(ah, ch);
  }

  method ScalarLoop(memory: array<Block>, mask: bv64, aes: Round, tweak: bv64, iterations: nat, a0: Block, b0: Block)
    returns (a: Block, b: Block)
    requires Covers(memory.Length, mask)
    modifies memory
    ensures Mix(memory[..], a, b) == Run(aes, mask, 1, tweak, iterations, Mix(old(memory[..]), a0, b0))
  {
    hide FirstHalf, SecondHalf, Nat;
    var al, ah, bx := a0.lo, a0.hi, b0;
    var idx := al;
    for i := 0 to iterations
      invariant idx == al
      invariant Mix(memory[..], Block(al, ah), bx) == Run(aes, mask, 1, tweak, i, Mix(old(memory[..]), a0, b0))
    {
      var cx := ScalarFirstHalf(memory, mask, aes, idx, Block(al, ah), bx);
      bx := cx;
      al, ah := ScalarSecondHalf(memory, mask, tweak, Block(al, ah), cx);
      idx := al;
    }
    a, b := Block(al, ah), bx;
  }
}
