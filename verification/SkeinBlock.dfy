/**
 Skein's block function (UBI mode) over Threefish, for both block sizes: what one call of
 Skein_512_Process_Block or Skein1024_Process_Block does to the chaining words and the tweak, and
 the in-place rounds that both are written with.
 */
module SkeinBlock {
  import opened Words
  import opened Rotations
  import opened Threefish

  const FLAG_FIRST: bv64 := 0x4000_0000_0000_0000
  const FLAG_FINAL: bv64 := 0x8000_0000_0000_0000
  const TYPE_MSG: bv64 := 0x3000_0000_0000_0000
  const TYPE_OUT: bv64 := 0x3F00_0000_0000_0000
  const KS_PARITY: bv64 := 0x1BD1_1BDA_A9FC_1A22

  // The chaining words X and the two tweak words.
  datatype Chain = Chain(x: seq<bv64>, t0: bv64, t1: bv64)

  // ks[0] ^ ... ^ ks[n - 1]
  function XorFirst(x: seq<bv64>, n: nat): bv64
    requires 1 <= n <= |x|
    decreases n, x
  {
    if n == 1 then x[0] else Xor64(XorFirst(x, n - 1), x[n - 1])
  }

  function Parity(x: seq<bv64>): bv64
    requires |x| > 0
  {
    Xor64(XorFirst(x, |x|), KS_PARITY)
  }

  function ScheduleOf(x: seq<bv64>, t0: bv64, t1: bv64): Schedule
    requires |x| > 0
  {
    Schedule(x + [Parity(x)], [t0, t1, Xor64(t0, t1)])
  }

  function ClearFirst(t1: bv64): bv64 {
    t1 & !FLAG_FIRST
  }

  // The feedforward.
  function Feed(y: seq<bv64>, w: seq<bv64>): (r: seq<bv64>)
    requires |y| == |w|
    ensures |r| == |w|
  {
    seq(|w|, i requires 0 <= i < |w| => Xor64(y[i], w[i]))
  }

  // One block of words `w`, counted as `add` bytes.
  function OneBlock(t: Width, c: Chain, w: seq<bv64>, add: bv64): (r: Chain)
    requires |c.x| == Count(t) && |w| == Count(t)
    ensures |r.x| == Count(t)
  {
    var t0 := Plus64(c.t0, add);
    Chain(Feed(Encrypt(t, ScheduleOf(c.x, t0, c.t1), w, Groups(t)), w), t0, ClearFirst(c.t1))
  }

  function BlockSize(t: Width): nat {
    8 * Count(t)
  }

  // Skein_Get64_LSB_First.
  function Load(t: Width, s: seq<Byte>): (w: seq<bv64>)
    requires |s| >= BlockSize(t)
    ensures |w| == Count(t)
  {
    seq(Count(t), i requires 0 <= i < Count(t) => Word64(s[8 * i..8 * (i + 1)]))
  }

  // All whole blocks of `data`.
  function Blocks(t: Width, c: Chain, data: seq<Byte>, add: bv64): (r: Chain)
    requires |c.x| == Count(t)
    ensures |r.x| == Count(t)
    decreases |data|
  {
    if |data| < BlockSize(t) then c
    else Blocks(t, OneBlock(t, c, Load(t, data), add), data[BlockSize(t)..], add)
  }

  // ----- rounds in place -----

  method MixInPlace(x: array<bv64>, i: nat, j: nat, r: bv64)
    requires i < x.Length && j < x.Length && i != j && Proper(r)
    modifies x
    ensures x[..] == Mix(old(x[..]), i, j, r)
  {
    hide Plus64, Xor64, RotL, Proper;
    WithinWord(r);
    x[i] := Plus64(x[i], x[j]);
    x[j] := RotL(x[j], r);
    x[j] := Xor64(x[j], x[i]);
  }

  lemma RoundStarts(t: Width, x: seq<bv64>, d: nat)
    requires |x| == Count(t) && d < 8
    ensures Round(t, x, d, 0) == x
  {
  }

  lemma RoundSteps(t: Width, x: seq<bv64>, d: nat, k: nat)
    requires |x| == Count(t) && d < 8 && 2 * k < Count(t)
    ensures Round(t, x, d, k + 1) == Mix(Round(t, x, d, k), First(t, d, k), Second(t, d, k), Distance(t, d, k))
  {
  }

  // The first full key injection as it is written out: w + ks, and w + ks + ts for two words.
  function FirstInjection(t: Width, k: Schedule, w: seq<bv64>, i: nat): bv64
    requires Fits(t, k) && |w| == Count(t) && i < Count(t)
  {
    if i == Count(t) - 3 then Plus64(Plus64(w[i], k.ks[i]), k.ts[0])
    else if i == Count(t) - 2 then Plus64(Plus64(w[i], k.ks[i]), k.ts[1])
    else Plus64(w[i], k.ks[i])
  }

  lemma SmallZero(x: bv64)
    ensures Plus64(x, Small(0)) == x
  {
  }

  lemma FirstInjectionIsInject(t: Width, k: Schedule, w: seq<bv64>, i: nat)
    requires Fits(t, k) && |w| == Count(t) && i < Count(t)
    ensures FirstInjection(t, k, w, i) == Inject(t, k, w, 0)[i]
  {
    hide Plus64, Small;
    assert Cycle(k.ks, 0 + i) == k.ks[i];
    assert Cycle(k.ts, 0) == k.ts[0] && Cycle(k.ts, 1) == k.ts[1];
    PlusAssociates(w[i], k.ks[i], k.ts[0]);
    PlusAssociates(w[i], k.ks[i], k.ts[1]);
    SmallZero(k.ks[i]);
  }

  lemma ScheduleFits(x: seq<bv64>, t0: bv64, t1: bv64)
    requires |x| == 8 || |x| == 16
    ensures Fits(if |x| == 8 then W512 else W1024, ScheduleOf(x, t0, t1))
    ensures ScheduleOf(x, t0, t1).ts[0] == t0 && ScheduleOf(x, t0, t1).ts[1] == t1
  {
  }

  lemma BlocksStep(t: Width, c: Chain, data: seq<Byte>, pos: nat, add: bv64)
    requires |c.x| == Count(t) && pos + BlockSize(t) <= |data|
    ensures Blocks(t, c, data[pos..], add)
         == Blocks(t, OneBlock(t, c, Load(t, data[pos..pos + BlockSize(t)]), add), data[pos + BlockSize(t)..], add)
  {
    hide OneBlock, Load;
    assert data[pos..][BlockSize(t)..] == data[pos + BlockSize(t)..];
    LoadPrefix(t, data[pos..], data[pos..pos + BlockSize(t)]);
  }

  lemma LoadPrefix(t: Width, s: seq<Byte>, p: seq<Byte>)
    requires |p| == BlockSize(t) && p <= s
    ensures Load(t, s) == Load(t, p)
  {
    hide Word64;
    forall i | 0 <= i < Count(t)
      ensures Load(t, s)[i] == Load(t, p)[i]
    {
      assert s[8 * i..8 * (i + 1)] == p[8 * i..8 * (i + 1)];
    }
  }

  lemma XorThreeMore(x: seq<bv64>, n: nat)
    requires 1 <= n && n + 3 <= |x|
    ensures XorFirst(x, n + 3) == Xor64(Xor64(Xor64(XorFirst(x, n), x[n]), x[n + 1]), x[n + 2])
  {
    hide Xor64;
    assert XorFirst(x, n + 2) == Xor64(XorFirst(x, n + 1), x[n + 1]);
  }

  lemma XorOne(x: seq<bv64>)
    requires |x| > 0
    ensures XorFirst(x, 1) == x[0]
  {
  }

  lemma OneBlockIs(t: Width, c: Chain, w: seq<bv64>, add: bv64)
    requires |c.x| == Count(t) && |w| == Count(t)
    ensures var k := ScheduleOf(c.x, Plus64(c.t0, add), c.t1);
            Fits(t, k) &&
            OneBlock(t, c, w, add) == Chain(Feed(Encrypt(t, k, w, Groups(t)), w), Plus64(c.t0, add), ClearFirst(c.t1))
  {
  }

  // The cipher after its first key injection.
  function Rotated(t: Width, k: Schedule, x: seq<bv64>, n: nat): (y: seq<bv64>)
    requires Fits(t, k) && |x| == Count(t) && n < 64
    ensures |y| == Count(t)
    decreases n, k
  {
    if n == 0 then x else Inject(t, k, Four(t, Rotated(t, k, x, n - 1), Half8(n)), n)
  }

  lemma {:induction false} RotatedIsEncrypt(t: Width, k: Schedule, x: seq<bv64>, n: nat)
    requires Fits(t, k) && |x| == Count(t) && n < 64
    ensures Rotated(t, k, Inject(t, k, x, 0), n) == Encrypt(t, k, x, n)
  {
    hide Inject, Four;
    if n > 0 {
      RotatedIsEncrypt(t, k, x, n - 1);
    }
  }
}
