/**
 SHA-256 as FIPS 180-4 defines it: the functions of section 4.1.2, the message schedule of 64 words
 and the eight working variables a to h of section 6.2.2. This is the reference for the multiway
 code.
 */
module Sha256 {
  import opened Words
  import opened Words32

  function ChOf(x: bv32, y: bv32, z: bv32): bv32 {
    (x & y) ^ (!x & z)
  }

  function MajOf(x: bv32, y: bv32, z: bv32): bv32 {
    (x & y) ^ (x & z) ^ (y & z)
  }

  // SHR of section 3.2; RotR is ROTR.
  function ShR(x: bv32, n: bv32): bv32
    requires n < 32
  {
    x >> n
  }

  function BigSigma0(x: bv32): bv32 {
    Xor32(Xor32(RotR(x, 2), RotR(x, 13)), RotR(x, 22))
  }

  function BigSigma1(x: bv32): bv32 {
    Xor32(Xor32(RotR(x, 6), RotR(x, 11)), RotR(x, 25))
  }

  function SmallSigma0(x: bv32): bv32 {
    Xor32(Xor32(RotR(x, 7), RotR(x, 18)), ShR(x, 3))
  }

  function SmallSigma1(x: bv32): bv32 {
    Xor32(Xor32(RotR(x, 17), RotR(x, 19)), ShR(x, 10))
  }

  function Eight(j: nat, a: bv32, b: bv32, c: bv32, d: bv32, e: bv32, f: bv32, g: bv32, h: bv32): bv32 {
    if j == 0 then a else if j == 1 then b else if j == 2 then c else if j == 3 then d
    else if j == 4 then e else if j == 5 then f else if j == 6 then g else h
  }

  // The constants of section 4.2.2.
  function K(t: nat): bv32
    requires t < 64
  {
    if t < 8 then Eight(t, 0x428a2f98, 0x71374491, 0xb5c0fbcf, 0xe9b5dba5, 0x3956c25b, 0x59f111f1, 0x923f82a4,
        0xab1c5ed5)
    else if t < 16 then
      Eight(t - 8, 0xd807aa98, 0x12835b01, 0x243185be, 0x550c7dc3, 0x72be5d74, 0x80deb1fe, 0x9bdc06a7, 0xc19bf174)
    else if t < 24 then
      Eight(t - 16, 0xe49b69c1, 0xefbe4786, 0x0fc19dc6, 0x240ca1cc, 0x2de92c6f, 0x4a7484aa, 0x5cb0a9dc, 0x76f988da)
    else if t < 32 then
      Eight(t - 24, 0x983e5152, 0xa831c66d, 0xb00327c8, 0xbf597fc7, 0xc6e00bf3, 0xd5a79147, 0x06ca6351, 0x14292967)
    else if t < 40 then
      Eight(t - 32, 0x27b70a85, 0x2e1b2138, 0x4d2c6dfc, 0x53380d13, 0x650a7354, 0x766a0abb, 0x81c2c92e, 0x92722c85)
    else if t < 48 then
      Eight(t - 40, 0xa2bfe8a1, 0xa81a664b, 0xc24b8b70, 0xc76c51a3, 0xd192e819, 0xd6990624, 0xf40e3585, 0x106aa070)
    else if t < 56 then
      Eight(t - 48, 0x19a4c116, 0x1e376c08, 0x2748774c, 0x34b0bcb5, 0x391c0cb3, 0x4ed8aa4a, 0x5b9cca4f, 0x682e6ff3)
    else Eight(t - 56, 0x748f82ee, 0x78a5636f, 0x84c87814, 0x8cc70208, 0x90befffa, 0xa4506ceb, 0xbef9a3f7, 0xc67178f2)
  }

  // The working variables, of one lane or of all lanes together.
  datatype Regs<T> = Regs(a: T, b: T, c: T, d: T, e: T, f: T, g: T, h: T)

  // Section 5.3.3.
  function Iv(): Regs<bv32> {
    Regs(0x6a09e667, 0xbb67ae85, 0x3c6ef372, 0xa54ff53a, 0x510e527f, 0x9b05688c, 0x1f83d9ab, 0x5be0cd19)
  }

  // The message schedule.
  function W(m: seq<bv32>, t: nat): bv32
    requires |m| == 16
    decreases t, m
  {
    if t < 16 then m[t]
    else
      Add32(Add32(Add32(SmallSigma1(W(m, t - 2)), W(m, t - 7)), SmallSigma0(W(m, t - 15))), W(m, t - 16))
  }

  function RoundOf(r: Regs<bv32>, k: bv32, w: bv32): Regs<bv32> {
    var t1 := Add32(Add32(Add32(Add32(r.h, BigSigma1(r.e)), ChOf(r.e, r.f, r.g)), k), w);
    var t2 := Add32(BigSigma0(r.a), MajOf(r.a, r.b, r.c));
    Regs(Add32(t1, t2), r.a, r.b, r.c, Add32(r.d, t1), r.e, r.f, r.g)
  }

  // The first `t` rounds.
  function RoundsOf(r: Regs<bv32>, m: seq<bv32>, t: nat): Regs<bv32>
    requires |m| == 16 && t <= 64
    decreases t, m
  {
    if t == 0 then r else RoundOf(RoundsOf(r, m, t - 1), K(t - 1), W(m, t - 1))
  }

  function AddRegs(r: Regs<bv32>, s: Regs<bv32>): Regs<bv32> {
    Regs(Add32(r.a, s.a), Add32(r.b, s.b), Add32(r.c, s.c), Add32(r.d, s.d),
         Add32(r.e, s.e), Add32(r.f, s.f), Add32(r.g, s.g), Add32(r.h, s.h))
  }

  // The sixteen words of a block.
  function BlockWords(block: seq<Byte>): (m: seq<bv32>)
    requires |block| == 64
    ensures |m| == 16
  {
    seq(16, t requires 0 <= t < 16 => BigWord(block[4 * t], block[4 * t + 1], block[4 * t + 2], block[4 * t + 3]))
  }

  // Section 6.2.2: one block.
  function Compress(r: Regs<bv32>, block: seq<Byte>): Regs<bv32>
    requires |block| == 64
  {
    AddRegs(RoundsOf(r, BlockWords(block), 64), r)
  }

  // All whole blocks of a message, one after the other.
  function ChainOf(r: Regs<bv32>, m: seq<Byte>): Regs<bv32>
    decreases |m|
  {
    if |m| < 64 then r else ChainOf(Compress(r, m[..64]), m[64..])
  }

  function Reg(r: Regs<bv32>, j: nat): bv32
    requires j < 8
  {
    Eight(j, r.a, r.b, r.c, r.d, r.e, r.f, r.g, r.h)
  }

  function DigestOf(r: Regs<bv32>): (d: seq<Byte>)
    ensures |d| == 32
  {
    seq(32, k requires 0 <= k < 32 => BigByte(Reg(r, k / 4), k % 4))
  }

  // ----- the forms of the functions that the code computes -----

  lemma ChForm(x: bv32, y: bv32, z: bv32)
    ensures z ^ (x & (y ^ z)) == ChOf(x, y, z)
  {
  }

  lemma MajForm(x: bv32, y: bv32, z: bv32)
    ensures (x & y) | (z & (x | y)) == MajOf(x, y, z)
  {
  }

  // Adding five words from the right.
  lemma AddFive(a: bv32, b: bv32, c: bv32, d: bv32, e: bv32)
    ensures Add32(a, Add32(b, Add32(c, Add32(d, e)))) == Add32(Add32(Add32(Add32(a, b), c), d), e)
  {
    hide Add32;
    AddAssociates(a, b, Add32(c, Add32(d, e)));
    AddAssociates(Add32(a, b), c, Add32(d, e));
    AddAssociates(Add32(Add32(a, b), c), d, e);
  }

  // The old schedule word added first instead of last.
  lemma AddFour(old16: bv32, s1: bv32, w7: bv32, s0: bv32)
    ensures Add32(old16, Add32(s1, Add32(w7, s0))) == Add32(Add32(Add32(s1, w7), s0), old16)
  {
    hide Add32;
    AddAssociates(s1, w7, s0);
    AddCommutes(old16, Add32(Add32(s1, w7), s0));
  }
}
