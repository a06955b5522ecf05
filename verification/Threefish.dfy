/**
 The Threefish block cipher inside Skein (skein.c), in the modular-index form of its key schedule,
 for 8 and for 16 words, and its inverse.
 */
module Threefish {
  import opened Words
  import opened Rotations

  datatype Width = W512 | W1024

  function Count(t: Width): nat {
    if t == W512 then 8 else 16
  }

  // Threefish runs 72 rounds on 8 words and 80 on 16, in groups of four.
  function Groups(t: Width): nat {
    if t == W512 then 18 else 20
  }

  function Pick4<T>(k: nat, a: T, b: T, c: T, d: T): T {
    if k == 0 then a else if k == 1 then b else if k == 2 then c else d
  }

  function Pick8<T>(k: nat, a: T, b: T, c: T, d: T, e: T, f: T, g: T, h: T): T {
    if k < 4 then Pick4(k, a, b, c, d) else Pick4(k - 4, e, f, g, h)
  }

  // Pair `k` of round `d`, rounds counted modulo 8: the word that is added to ...
  function First(t: Width, d: nat, k: nat): (i: nat)
    requires d < 8 && 2 * k < Count(t)
    ensures i < Count(t)
  {
    var e := if d < 4 then d else d - 4;
    match t
    case W512 =>
      Pick4(e, Pick4(k, 0, 2, 4, 6), Pick4(k, 2, 4, 6, 0), Pick4(k, 4, 6, 0, 2), Pick4(k, 6, 0, 2, 4))
    case W1024 =>
      Pick4(e, Pick8(k, 0, 2, 4, 6, 8, 10, 12, 14), Pick8(k, 0, 2, 6, 4, 10, 12, 14, 8),
            Pick8(k, 0, 2, 4, 6, 12, 14, 8, 10), Pick8(k, 0, 2, 6, 4, 14, 8, 10, 12))
  }

  // ... and the word that is rotated.
  function Second(t: Width, d: nat, k: nat): (j: nat)
    requires d < 8 && 2 * k < Count(t)
    ensures j < Count(t) && j != First(t, d, k)
  {
    var e := if d < 4 then d else d - 4;
    match t
    case W512 =>
      Pick4(e, Pick4(k, 1, 3, 5, 7), Pick4(k, 1, 7, 5, 3), Pick4(k, 1, 3, 5, 7), Pick4(k, 1, 7, 5, 3))
    case W1024 =>
      Pick4(e, Pick8(k, 1, 3, 5, 7, 9, 11, 13, 15), Pick8(k, 9, 13, 11, 15, 7, 3, 5, 1),
            Pick8(k, 7, 5, 3, 1, 15, 13, 11, 9), Pick8(k, 15, 11, 13, 9, 1, 5, 3, 7))
  }

  // Choosing among table entries.
  function Among4(k: nat, a: bv64, b: bv64, c: bv64, d: bv64): (r: bv64)
    requires Proper(a) && Proper(b) && Proper(c) && Proper(d)
    ensures Proper(r)
  {
    if k == 0 then a else if k == 1 then b else if k == 2 then c else d
  }

  function Among8(k: nat, a: bv64, b: bv64, c: bv64, d: bv64, e: bv64, f: bv64, g: bv64, h: bv64): (r: bv64)
    requires Proper(a) && Proper(b) && Proper(c) && Proper(d)
    requires Proper(e) && Proper(f) && Proper(g) && Proper(h)
    ensures Proper(r)
  {
    if k < 4 then Among4(k, a, b, c, d) else Among4(k - 4, e, f, g, h)
  }

  // The rotation constants of skein.c, row `d` and pair `k`.
  function Distance512(d: nat, k: nat): (r: bv64)
    requires d < 8 && k < 4
    ensures Proper(r)
  {
    Among8(d, Among4(k, 46, 36, 19, 37),
          Among4(k, 33, 27, 14, 42),
          Among4(k, 17, 49, 36, 39),
          Among4(k, 44, 9, 54, 56),
          Among4(k, 39, 30, 34, 24),
          Among4(k, 13, 50, 10, 17),
          Among4(k, 25, 29, 39, 43),
          Among4(k, 8, 35, 56, 22))
  }

  function LowDistance1024(d: nat, k: nat): (r: bv64)
    requires d < 4 && k < 8
    ensures Proper(r)
  {
    Among4(d, Among8(k, 24, 13, 8, 47, 8, 17, 22, 37),
          Among8(k, 38, 19, 10, 55, 49, 18, 23, 52),
          Among8(k, 33, 4, 51, 13, 34, 41, 59, 17),
          Among8(k, 5, 20, 48, 41, 47, 28, 16, 25))
  }

  function HighDistance1024(d: nat, k: nat): (r: bv64)
    requires d < 4 && k < 8
    ensures Proper(r)
  {
    Among4(d, Among8(k, 41, 9, 37, 31, 12, 47, 44, 30),
          Among8(k, 16, 34, 56, 51, 4, 53, 42, 41),
          Among8(k, 31, 44, 47, 46, 19, 42, 44, 25),
          Among8(k, 9, 48, 35, 52, 23, 31, 37, 20))
  }

  function Distance(t: Width, d: nat, k: nat): (r: bv64)
    requires d < 8 && 2 * k < Count(t)
    ensures Proper(r)
  {
    if t == W512 then Distance512(d, k)
    else if d < 4 then LowDistance1024(d, k)
    else HighDistance1024(d - 4, k)
  }

  // ----- one round -----

  function Minus64(x: bv64, y: bv64): bv64 {
    x - y
  }

  lemma MinusOfSum(x: bv64, y: bv64)
    ensures Minus64(x + y, y) == x
  {
  }

  lemma PlusOfDifference(x: bv64, y: bv64)
    ensures Plus64(x - y, y) == x
  {
  }

  lemma SumUndone(x: bv64, y: bv64)
    ensures Minus64(Plus64(x, y), y) == x
  {
    hide Minus64;
    MinusOfSum(x, y);
  }

  lemma DifferenceUndone(x: bv64, y: bv64)
    ensures Plus64(Minus64(x, y), y) == x
  {
    hide Plus64;
    PlusOfDifference(x, y);
  }

  lemma PlusMinus(x: bv64, y: bv64)
    ensures Minus64(Plus64(x, y), y) == x && Plus64(Minus64(x, y), y) == x
  {
    hide *;
    SumUndone(x, y);
    DifferenceUndone(x, y);
  }

  lemma XorXor(x: bv64, y: bv64)
    ensures Xor64(Xor64(x, y), y) == x
  {
  }

  function Mix(x: seq<bv64>, i: nat, j: nat, r: bv64): (y: seq<bv64>)
    requires i < |x| && j < |x| && i != j && Proper(r)
    ensures |y| == |x|
  {
    var a := Plus64(x[i], x[j]);
    x[i := a][j := Xor64(RotL(x[j], r), a)]
  }

  function Unmix(y: seq<bv64>, i: nat, j: nat, r: bv64): (x: seq<bv64>)
    requires i < |y| && j < |y| && i != j && Proper(r)
    ensures |x| == |y|
  {
    var b := RotL(Xor64(y[j], y[i]), 64 - r);
    y[j := b][i := Minus64(y[i], b)]
  }

  lemma WithinWord(r: bv64)
    requires Proper(r)
    ensures 0 < r < 64
  {
  }

  lemma MixUndone(x: seq<bv64>, i: nat, j: nat, r: bv64)
    requires i < |x| && j < |x| && i != j && Proper(r)
    ensures Unmix(Mix(x, i, j, r), i, j, r) == x
    ensures Mix(Unmix(x, i, j, r), i, j, r) == x
  {
    hide Plus64, Minus64, Xor64, RotL, Proper;
    WithinWord(r);
    XorXor(RotL(x[j], r), Plus64(x[i], x[j]));
    RotationUndone(x[j], r);
    PlusMinus(x[i], x[j]);
    var b := RotL(Xor64(x[j], x[i]), 64 - r);
    RotationUndone(Xor64(x[j], x[i]), r);
    PlusMinus(x[i], b);
    XorXor(x[j], x[i]);
  }

  // The first `k` pairs of round `d`.
  function Round(t: Width, x: seq<bv64>, d: nat, k: nat): (y: seq<bv64>)
    requires |x| == Count(t) && d < 8 && 2 * k <= Count(t)
    ensures |y| == Count(t)
    decreases k, x
  {
    if k == 0 then x
    else Mix(Round(t, x, d, k - 1), First(t, d, k - 1), Second(t, d, k - 1), Distance(t, d, k - 1))
  }

  function Unround(t: Width, y: seq<bv64>, d: nat, k: nat): (x: seq<bv64>)
    requires |y| == Count(t) && d < 8 && 2 * k <= Count(t)
    ensures |x| == Count(t)
    decreases k
  {
    if k == 0 then y
    else Unround(t, Unmix(y, First(t, d, k - 1), Second(t, d, k - 1), Distance(t, d, k - 1)), d, k - 1)
  }

  lemma {:induction false} RoundUndone(t: Width, x: seq<bv64>, d: nat, k: nat)
    requires |x| == Count(t) && d < 8 && 2 * k <= Count(t)
    ensures Unround(t, Round(t, x, d, k), d, k) == x
    ensures Round(t, Unround(t, x, d, k), d, k) == x
    decreases k
  {
    hide Mix, Unmix, First, Second, Distance, Proper;
    if k > 0 {
      var i, j, r := First(t, d, k - 1), Second(t, d, k - 1), Distance(t, d, k - 1);
      MixUndone(Round(t, x, d, k - 1), i, j, r);
      RoundUndone(t, x, d, k - 1);
      MixUndone(x, i, j, r);
      RoundUndone(t, Unmix(x, i, j, r), d, k - 1);
    }
  }

  // ----- four rounds -----

  function RoundAt(t: Width, x: seq<bv64>, d: nat): (y: seq<bv64>)
    requires |x| == Count(t) && d < 8
    ensures |y| == Count(t)
  {
    Round(t, x, d, Count(t) / 2)
  }

  function UnroundAt(t: Width, y: seq<bv64>, d: nat): (x: seq<bv64>)
    requires |y| == Count(t) && d < 8
    ensures |x| == Count(t)
  {
    Unround(t, y, d, Count(t) / 2)
  }

  // Rounds e to e + 3 of the cycle of eight.
  function Four(t: Width, x: seq<bv64>, e: nat): (y: seq<bv64>)
    requires |x| == Count(t) && e <= 4
    ensures |y| == Count(t)
  {
    RoundAt(t, RoundAt(t, RoundAt(t, RoundAt(t, x, e), e + 1), e + 2), e + 3)
  }

  function Unfour(t: Width, y: seq<bv64>, e: nat): (x: seq<bv64>)
    requires |y| == Count(t) && e <= 4
    ensures |x| == Count(t)
  {
    UnroundAt(t, UnroundAt(t, UnroundAt(t, UnroundAt(t, y, e + 3), e + 2), e + 1), e)
  }

  lemma RoundAtUndone(t: Width, x: seq<bv64>, d: nat)
    requires |x| == Count(t) && d < 8
    ensures UnroundAt(t, RoundAt(t, x, d), d) == x && RoundAt(t, UnroundAt(t, x, d), d) == x
  {
    hide Round, Unround;
    RoundUndone(t, x, d, Count(t) / 2);
  }

  lemma FourUndone(t: Width, x: seq<bv64>, e: nat)
    requires |x| == Count(t) && e <= 4
    ensures Unfour(t, Four(t, x, e), e) == x && Four(t, Unfour(t, x, e), e) == x
  {
    hide RoundAt, UnroundAt;
    var a := RoundAt(t, x, e);
    var b := RoundAt(t, a, e + 1);
    var c := RoundAt(t, b, e + 2);
    RoundAtUndone(t, x, e);
    RoundAtUndone(t, a, e + 1);
    RoundAtUndone(t, b, e + 2);
    RoundAtUndone(t, c, e + 3);
    var u := UnroundAt(t, x, e + 3);
    var v := UnroundAt(t, u, e + 2);
    var w := UnroundAt(t, v, e + 1);
    RoundAtUndone(t, x, e + 3);
    RoundAtUndone(t, u, e + 2);
    RoundAtUndone(t, v, e + 1);
    RoundAtUndone(t, w, e);
  }

  // ----- key schedule and cipher -----

  // Key and tweak with their parity words.
  datatype Schedule = Schedule(ks: seq<bv64>, ts: seq<bv64>)

  predicate Fits(t: Width, k: Schedule) {
    |k.ks| == Count(t) + 1 && |k.ts| == 3
  }

  // The index of a cycle.
  function Cycle(s: seq<bv64>, j: nat): bv64
    requires |s| > 0
  {
    s[j % |s|]
  }

  function Small(n: nat): bv64
    requires n < 64
  {
    n as bv64
  }

  // Word `i` of subkey `n`.
  function Subkey(t: Width, k: Schedule, n: nat, i: nat): bv64
    requires Fits(t, k) && n < 64
  {
    var key := Cycle(k.ks, n + i);
    if i == Count(t) - 3 then Plus64(key, Cycle(k.ts, n))
    else if i == Count(t) - 2 then Plus64(key, Cycle(k.ts, n + 1))
    else if i == Count(t) - 1 then Plus64(key, Small(n))
    else key
  }

  function Inject(t: Width, k: Schedule, x: seq<bv64>, n: nat): (y: seq<bv64>)
    requires Fits(t, k) && |x| == Count(t) && n < 64
    ensures |y| == Count(t)
  {
    seq(Count(t), i requires 0 <= i < Count(t) => Plus64(x[i], Subkey(t, k, n, i)))
  }

  function Uninject(t: Width, k: Schedule, y: seq<bv64>, n: nat): (x: seq<bv64>)
    requires Fits(t, k) && |y| == Count(t) && n < 64
    ensures |x| == Count(t)
  {
    seq(Count(t), i requires 0 <= i < Count(t) => Minus64(y[i], Subkey(t, k, n, i)))
  }

  lemma InjectUndone(t: Width, k: Schedule, x: seq<bv64>, n: nat)
    requires Fits(t, k) && |x| == Count(t) && n < 64
    ensures Uninject(t, k, Inject(t, k, x, n), n) == x
    ensures Inject(t, k, Uninject(t, k, x, n), n) == x
  {
    hide Plus64, Minus64, Subkey;
    forall i | 0 <= i < Count(t)
      ensures Uninject(t, k, Inject(t, k, x, n), n)[i] == x[i]
      ensures Inject(t, k, Uninject(t, k, x, n), n)[i] == x[i]
    {
      PlusMinus(x[i], Subkey(t, k, n, i));
    }
  }

  // Which half of the cycle of eight rounds leads to subkey `n`.
  function Half8(n: nat): (e: nat)
    ensures e == 0 || e == 4
  {
    if n % 2 == 1 then 0 else 4
  }

  // The cipher up to subkey `n`: four rounds before each subkey but the first.
  function Encrypt(t: Width, k: Schedule, x: seq<bv64>, n: nat): (y: seq<bv64>)
    requires Fits(t, k) && |x| == Count(t) && n < 64
    ensures |y| == Count(t)
    decreases n, k
  {
    if n == 0 then Inject(t, k, x, 0) else Inject(t, k, Four(t, Encrypt(t, k, x, n - 1), Half8(n)), n)
  }

  function Decrypt(t: Width, k: Schedule, y: seq<bv64>, n: nat): (x: seq<bv64>)
    requires Fits(t, k) && |y| == Count(t) && n < 64
    ensures |x| == Count(t)
    decreases n, k
  {
    if n == 0 then Uninject(t, k, y, 0) else Decrypt(t, k, Unfour(t, Uninject(t, k, y, n), Half8(n)), n - 1)
  }

  // For a fixed key and tweak the cipher is a permutation of the blocks.
  lemma {:induction false} EncryptUndone(t: Width, k: Schedule, x: seq<bv64>, n: nat)
    requires Fits(t, k) && |x| == Count(t) && n < 64
    ensures Decrypt(t, k, Encrypt(t, k, x, n), n) == x
    ensures Encrypt(t, k, Decrypt(t, k, x, n), n) == x
    decreases n
  {
    hide Inject, Uninject, Four, Unfour;
    if n == 0 {
      InjectUndone(t, k, x, 0);
    } else {
      var e := Half8(n);
      var y := Encrypt(t, k, x, n - 1);
      InjectUndone(t, k, Four(t, y, e), n);
      FourUndone(t, y, e);
      EncryptUndone(t, k, x, n - 1);
      var v := Uninject(t, k, x, n);
      InjectUndone(t, k, x, n);
      FourUndone(t, v, e);
      EncryptUndone(t, k, Unfour(t, v, e), n - 1);
    }
  }
}
