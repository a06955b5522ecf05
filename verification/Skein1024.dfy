/**
 Skein1024_Process_Block (skein.c), compiled as its looping version: instead of indexing the key
 schedule modulo 17 and 3 it lets the two windows ks and ts slide through one array kw, where each
 tweak word lands on the key word that was copied forward just before.
 */
module Skein1024 {
  import opened Words
  import opened Rotations
  import opened Threefish
  import opened SkeinBlock

  // kw holds 16 + 4 words and one more for each of the 20 injections; ts is kw, ks is kw + 3.
  const KW: nat := 40

  // Before injection `n` the tweak window starts at kw[n - 1] and the key window at kw[n + 2].
  ghost predicate Window(kw: seq<bv64>, k: Schedule, n: nat) {
    && |kw| == KW && Fits(W1024, k) && 1 <= n <= 21
    && (forall j: nat :: n - 1 <= j <= n + 1 ==> kw[j] == Cycle(k.ts, j))
    && (forall j: nat :: n + 2 <= j <= n + 18 ==> kw[j] == Cycle(k.ks, j - 3))
  }

  lemma CycleWraps(s: seq<bv64>, j: nat)
    requires |s| == 3 || |s| == 17
    ensures Cycle(s, j + |s|) == Cycle(s, j)
  {
    if |s| == 3 {
      assert (j + 3) % 3 == j % 3;
    } else {
      assert (j + 17) % 17 == j % 17;
    }
  }

  // The two writes of an injection, in their order.
  function Slid(kw: seq<bv64>, n: nat): (r: seq<bv64>)
    requires |kw| == KW && 1 <= n <= 20
  {
    var copied := kw[n + 19 := kw[n + 2]];
    copied[n + 2 := copied[n - 1]]
  }

  lemma WindowSlides(kw: seq<bv64>, k: Schedule, n: nat)
    requires Window(kw, k, n) && n <= 20
    ensures Window(Slid(kw, n), k, n + 1)
  {
    hide Cycle;
    CycleWraps(k.ks, n - 1);
    CycleWraps(k.ts, n - 1);
  }

  lemma WindowStarts(kw: seq<bv64>, k: Schedule)
    requires |kw| == KW && Fits(W1024, k) && kw[..3] == k.ts && kw[3..20] == k.ks
    ensures Window(kw, k, 1)
  {
    forall j: nat | j <= 2
      ensures kw[j] == Cycle(k.ts, j)
    {
      assert kw[j] == kw[..3][j];
    }
    forall j: nat | 3 <= j <= 19
      ensures kw[j] == Cycle(k.ks, j - 3)
    {
      assert kw[j] == kw[3..20][j - 3];
    }
  }

  // What is added to word `i`, read off the windows.
  function FromWindows(kw: seq<bv64>, n: nat, i: nat): bv64
    requires |kw| == KW && 1 <= n <= 20 && i < 16
  {
    if i == 13 then Plus64(kw[n + 16], kw[n])
    else if i == 14 then Plus64(kw[n + 17], kw[n + 1])
    else if i == 15 then Plus64(kw[n + 18], Small(n))
    else kw[n + 3 + i]
  }

  lemma WindowFits(kw: seq<bv64>, k: Schedule, n: nat)
    requires Window(kw, k, n)
    ensures Fits(W1024, k)
  {
  }

  // What injection `n` takes from the windows is subkey `n` of the modular form.
  lemma WindowInjects(kw: seq<bv64>, k: Schedule, n: nat, i: nat)
    requires Window(kw, k, n) && n <= 20 && i < 16
    ensures Fits(W1024, k) && Subkey(W1024, k, n, i) == FromWindows(kw, n, i)
  {
    hide Cycle, Plus64, Small;
    assert kw[n + 3 + i] == Cycle(k.ks, n + i);
    assert kw[n] == Cycle(k.ts, n) && kw[n + 1] == Cycle(k.ts, n + 1);
  }

  method AddFromWindows(x: array<bv64>, kw: array<bv64>, n: nat)
    requires x != kw && x.Length == 16 && kw.Length == KW && 1 <= n <= 20
    modifies x
    ensures forall i :: 0 <= i < 16 ==> x[i] == Plus64(old(x[i]), FromWindows(kw[..], n, i))
  {
    hide Plus64, Small;
    forall i | 0 <= i < 16 {
      x[i] := Plus64(x[i], if i == 13 then Plus64(kw[n + 16], kw[n])
                           else if i == 14 then Plus64(kw[n + 17], kw[n + 1])
                           else if i == 15 then Plus64(kw[n + 18], Small(n))
                           else kw[n + 3 + i]);
    }
  }

  // The macro I1024 in the looping version, with n for r + R.
  method InjectSliding(x: array<bv64>, kw: array<bv64>, n: nat, ghost k: Schedule)
    requires x != kw && x.Length == 16 && kw.Length == KW && 1 <= n <= 20 && Window(kw[..], k, n)
    modifies x, kw
    ensures x[..] == Inject(W1024, k, old(x[..]), n)
    ensures kw[..] == Slid(old(kw[..]), n) && Window(kw[..], k, n + 1)
  {
    ghost var before, words := kw[..], x[..];
    hide Window, Plus64, Small, Subkey, FromWindows;
    WindowFits(before, k, n);
    AddFromWindows(x, kw, n);
    forall i | 0 <= i < 16
      ensures x[..][i] == Plus64(words[i], Subkey(W1024, k, n, i))
    {
      WindowInjects(before, k, n, i);
    }
    assert x[..] == Inject(W1024, k, words, n);
    kw[n + 19] := kw[n + 2];
    kw[n + 2] := kw[n - 1];
    WindowSlides(before, k, n);
  }

  lemma SlidKeepsTweak(kw: seq<bv64>, n: nat)
    requires |kw| == KW && 1 <= n <= 20
    ensures Slid(kw, n)[..3] == kw[..3]
  {
  }

  // The macro R1024: the pairs are written out at each use, the distances are row `d` of the table.
  method Round1024(x: array<bv64>, d: nat, p0: nat, p1: nat, p2: nat, p3: nat, p4: nat, p5: nat, p6: nat, p7: nat,
                   p8: nat, p9: nat, p10: nat, p11: nat, p12: nat, p13: nat, p14: nat, p15: nat)
    requires x.Length == 16 && d < 8
    requires p0 == First(W1024, d, 0) && p1 == Second(W1024, d, 0)
    requires p2 == First(W1024, d, 1) && p3 == Second(W1024, d, 1)
    requires p4 == First(W1024, d, 2) && p5 == Second(W1024, d, 2)
    requires p6 == First(W1024, d, 3) && p7 == Second(W1024, d, 3)
    requires p8 == First(W1024, d, 4) && p9 == Second(W1024, d, 4)
    requires p10 == First(W1024, d, 5) && p11 == Second(W1024, d, 5)
    requires p12 == First(W1024, d, 6) && p13 == Second(W1024, d, 6)
    requires p14 == First(W1024, d, 7) && p15 == Second(W1024, d, 7)
    modifies x
    ensures x[..] == RoundAt(W1024, old(x[..]), d)
  {
    hide First, Second, Distance, Proper, Mix, Round;
    ghost var was := x[..];
    RoundStarts(W1024, was, d);
    RoundSteps(W1024, was, d, 0);
    MixInPlace(x, p0, p1, Distance(W1024, d, 0));
    RoundSteps(W1024, was, d, 1);
    MixInPlace(x, p2, p3, Distance(W1024, d, 1));
    RoundSteps(W1024, was, d, 2);
    MixInPlace(x, p4, p5, Distance(W1024, d, 2));
    RoundSteps(W1024, was, d, 3);
    MixInPlace(x, p6, p7, Distance(W1024, d, 3));
    RoundSteps(W1024, was, d, 4);
    MixInPlace(x, p8, p9, Distance(W1024, d, 4));
    RoundSteps(W1024, was, d, 5);
    MixInPlace(x, p10, p11, Distance(W1024, d, 5));
    RoundSteps(W1024, was, d, 6);
    MixInPlace(x, p12, p13, Distance(W1024, d, 6));
    RoundSteps(W1024, was, d, 7);
    MixInPlace(x, p14, p15, Distance(W1024, d, 7));
  }

  // The first and the second half of R1024_8_rounds, without the injections.
  method FirstFour(x: array<bv64>)
    requires x.Length == 16
    modifies x
    ensures x[..] == Four(W1024, old(x[..]), 0)
  {
    hide RoundAt;
    Round1024(x, 0, 0, 1, 2, 3, 4, 5, 6, 7, 8, 9, 10, 11, 12, 13, 14, 15);
    Round1024(x, 1, 0, 9, 2, 13, 6, 11, 4, 15, 10, 7, 12, 3, 14, 5, 8, 1);
    Round1024(x, 2, 0, 7, 2, 5, 4, 3, 6, 1, 12, 15, 14, 13, 8, 11, 10, 9);
    Round1024(x, 3, 0, 15, 2, 11, 6, 13, 4, 9, 14, 1, 8, 5, 10, 3, 12, 7);
  }

  method SecondFour(x: array<bv64>)
    requires x.Length == 16
    modifies x
    ensures x[..] == Four(W1024, old(x[..]), 4)
  {
    hide RoundAt;
    Round1024(x, 4, 0, 1, 2, 3, 4, 5, 6, 7, 8, 9, 10, 11, 12, 13, 14, 15);
    Round1024(x, 5, 0, 9, 2, 13, 6, 11, 4, 15, 10, 7, 12, 3, 14, 5, 8, 1);
    Round1024(x, 6, 0, 7, 2, 5, 4, 3, 6, 1, 12, 15, 14, 13, 8, 11, 10, 9);
    Round1024(x, 7, 0, 15, 2, 11, 6, 13, 4, 9, 14, 1, 8, 5, 10, 3, 12, 7);
  }

  // The rounds of one block: 20 injections, two for each turn of the loop.
  method Rounds(x: array<bv64>, kw: array<bv64>, ghost k: Schedule)
    requires x != kw && x.Length == 16 && kw.Length == KW && Window(kw[..], k, 1)
    modifies x, kw
    ensures Fits(W1024, k)
    ensures x[..] == Rotated(W1024, k, old(x[..]), 20)
    ensures kw[..3] == old(kw[..3])
  {
    hide Four, Inject, Window, Slid;
    WindowFits(kw[..], k, 1);
    ghost var was := x[..];
    var r := 1;
    while r <= 20
      invariant 1 <= r <= 21 && r % 2 == 1
      invariant Window(kw[..], k, r)
      invariant x[..] == Rotated(W1024, k, was, r - 1)
      invariant kw[..3] == old(kw[..3])
    {
      FirstFour(x);
      SlidKeepsTweak(kw[..], r);
      InjectSliding(x, kw, r, k);
      SecondFour(x);
      SlidKeepsTweak(kw[..], r + 1);
      InjectSliding(x, kw, r + 1, k);
      r := r + 2;
    }
  }

  // ks[0] ^ ... ^ ks[15] as it is written out.
  lemma ParityOf16(x: seq<bv64>)
    requires |x| == 16
    ensures Parity(x)
         == Xor64(Xor64(Xor64(Xor64(Xor64(Xor64(Xor64(Xor64(Xor64(Xor64(Xor64(Xor64(Xor64(Xor64(Xor64(Xor64(
              x[0], x[1]), x[2]), x[3]), x[4]), x[5]), x[6]), x[7]), x[8]), x[9]), x[10]), x[11]), x[12]),
              x[13]), x[14]), x[15]), KS_PARITY)
  {
    hide Xor64, XorFirst;
    XorOne(x);
    XorThreeMore(x, 1);
    XorThreeMore(x, 4);
    XorThreeMore(x, 7);
    XorThreeMore(x, 10);
    XorThreeMore(x, 13);
  }

  class Ctxt {
    const x: array<bv64>
    var t0: bv64
    var t1: bv64

    ghost function Value(): Chain
      reads this, x
    {
      Chain(x[..], t0, t1)
    }

    constructor (x0: seq<bv64>, t0: bv64, t1: bv64)
      requires |x0| == 16
      ensures fresh(x) && x.Length == 16 && Value() == Chain(x0, t0, t1)
    {
      x := new bv64[16](i requires 0 <= i < 16 => x0[i]);
      this.t0, this.t1 := t0, t1;
    }

    method CopyKey(kw: array<bv64>)
      requires x != kw && x.Length == 16 && kw.Length == KW
      modifies kw
      ensures kw[3..19] == x[..] && kw[..3] == old(kw[..3])
    {
      forall i | 0 <= i < 16 {
        kw[3 + i] := x[i];
      }
    }

    method ParityWord(kw: array<bv64>) returns (p: bv64)
      requires kw.Length == KW
      ensures p == Parity(kw[3..19])
    {
      hide Xor64, Parity;
      p := Xor64(Xor64(Xor64(Xor64(Xor64(Xor64(Xor64(Xor64(Xor64(Xor64(Xor64(Xor64(Xor64(Xor64(Xor64(Xor64(
             kw[3], kw[4]), kw[5]), kw[6]), kw[7]), kw[8]), kw[9]), kw[10]), kw[11]), kw[12]), kw[13]), kw[14]),
             kw[15]), kw[16]), kw[17]), kw[18]), KS_PARITY);
      ParityOf16(kw[3..19]);
    }

    // The key schedule words of one block, over the chaining words and the tweak in kw[0], kw[1].
    method SetUpSchedule(kw: array<bv64>)
      requires x != kw && x.Length == 16 && kw.Length == KW
      modifies kw
      ensures kw[..3] == ScheduleOf(x[..], old(kw[0]), old(kw[1])).ts
      ensures kw[3..20] == ScheduleOf(x[..], old(kw[0]), old(kw[1])).ks
    {
      hide Xor64, Parity;
      CopyKey(kw);
      assert kw[0] == kw[..3][0] && kw[1] == kw[..3][1];
      kw[19] := ParityWord(kw);
      assert kw[3..20] == x[..] + [Parity(x[..])];
      kw[2] := Xor64(kw[0], kw[1]);
      assert kw[..3] == [kw[0], kw[1], kw[2]];
    }

    // X00 .. X15 = w + ks, with the tweak added to words 13 and 14.
    method FirstAdd(w: seq<bv64>, kw: array<bv64>, ghost k: Schedule) returns (v: array<bv64>)
      requires |w| == 16 && kw.Length == KW && Fits(W1024, k) && kw[..3] == k.ts && kw[3..20] == k.ks
      ensures fresh(v) && v.Length == 16 && v[..] == Inject(W1024, k, w, 0)
    {
      hide Plus64, Inject;
      v := new bv64[16];
      forall i | 0 <= i < 16 {
        v[i] := if i == 13 then Plus64(Plus64(w[i], kw[3 + i]), kw[0])
                else if i == 14 then Plus64(Plus64(w[i], kw[3 + i]), kw[1])
                else Plus64(w[i], kw[3 + i]);
      }
      forall i | 0 <= i < 16
        ensures v[..][i] == Inject(W1024, k, w, 0)[i]
      {
        assert kw[3 + i] == kw[3..20][i] && kw[0] == kw[..3][0] && kw[1] == kw[..3][1];
        FirstInjectionIsInject(W1024, k, w, i);
      }
    }

    // One turn of the do loop; the tweak lives in kw[0] and kw[1] until all blocks are done.
    method OneTurn(blk: seq<Byte>, kw: array<bv64>, add: bv64)
      requires x != kw && x.Length == 16 && kw.Length == KW && |blk| >= 128
      modifies x, kw
      ensures Chain(x[..], kw[0], kw[1]) ==
          OneBlock(W1024, Chain(old(x[..]), old(kw[0]), old(kw[1])), Load(W1024, blk), add)
    {
      hide Plus64, Xor64, Inject, Rotated, Encrypt, ScheduleOf, Load, ClearFirst, Window;
      kw[0] := Plus64(kw[0], add);
      ghost var was := x[..];
      assert was == old(x[..]);
      ghost var k := ScheduleOf(was, kw[0], kw[1]);
      ScheduleFits(was, kw[0], kw[1]);
      SetUpSchedule(kw);
      var w := Load(W1024, blk);
      WindowStarts(kw[..], k);
      var v := FirstAdd(w, kw, k);
      RotatedIsEncrypt(W1024, k, w, 20);
      Rounds(v, kw, k);
      ghost var y := v[..];
      assert y == Encrypt(W1024, k, w, 20);
      forall i | 0 <= i < 16 {
        x[i] := Xor64(v[i], w[i]);
      }
      assert x[..] == Feed(y, w);
      assert kw[0] == kw[..3][0] == k.ts[0] && kw[1] == kw[..3][1] == k.ts[1];
      kw[1] := ClearFirst(kw[1]);
      OneBlockIs(W1024, Chain(was, old(kw[0]), old(kw[1])), w, add);
    }

    method ProcessBlock(blk: seq<Byte>, blkCnt: nat, add: bv64)
      requires x.Length == 16 && blkCnt > 0 && |blk| == 128 * blkCnt
      modifies this, x
      ensures Value() == Blocks(W1024, old(Value()), blk, add)
    {
      hide OneBlock;
      var kw := new bv64[KW];
      kw[0], kw[1] := t0, t1;
      var pos, left := 0, blkCnt;
      while left > 0
        invariant pos == 128 * (blkCnt - left) && 0 <= left <= blkCnt
        invariant Blocks(W1024, Chain(x[..], kw[0], kw[1]), blk[pos..], add) == Blocks(W1024, old(Value()), blk, add)
      {
        BlocksStep(W1024, Chain(x[..], kw[0], kw[1]), blk, pos, add);
        OneTurn(blk[pos..pos + 128], kw, add);
        pos := pos + 128;
        left := left - 1;
      }
      assert blk[pos..] == [];
      t0, t1 := kw[0], kw[1];
    }
  }
}
