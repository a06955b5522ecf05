/**
 The compression function of BLAKE-256 (blake256_compress in blake256.c), against the one of the
 BLAKE specification (section 2.1): the code steps through the diagonals in another order, repeats
 the permutation table instead of taking the round modulo 10, and folds the result in two loops.
 */
module BlakeCompress {
  import opened Words
  import opened Words32
  import opened Blake256

  function Pick16(j: nat, a: nat, b: nat, c: nat, d: nat, e: nat, f: nat, g: nat, h: nat,
                  i: nat, k: nat, l: nat, m: nat, n: nat, o: nat, p: nat, q: nat): (r: nat)
    requires a < 16 && b < 16 && c < 16 && d < 16 && e < 16 && f < 16 && g < 16 && h < 16
    requires i < 16 && k < 16 && l < 16 && m < 16 && n < 16 && o < 16 && p < 16 && q < 16
    ensures r < 16
  {
    if j < 8 then
      if j == 0 then a else if j == 1 then b else if j == 2 then c else if j == 3 then d
      else if j == 4 then e else if j == 5 then f else if j == 6 then g else h
    else
      if j == 8 then i else if j == 9 then k else if j == 10 then l else if j == 11 then m
      else if j == 12 then n else if j == 13 then o else if j == 14 then p else q
  }

  // The ten permutations of the specification.
  function Sigma(r: nat, j: nat): (s: nat)
    requires r < 10 && j < 16
    ensures s < 16
  {
    if r == 0 then Pick16(j, 0, 1, 2, 3, 4, 5, 6, 7, 8, 9, 10, 11, 12, 13, 14, 15)
    else if r == 1 then Pick16(j, 14, 10, 4, 8, 9, 15, 13, 6, 1, 12, 0, 2, 11, 7, 5, 3)
    else if r == 2 then Pick16(j, 11, 8, 12, 0, 5, 2, 15, 13, 10, 14, 3, 6, 7, 1, 9, 4)
    else if r == 3 then Pick16(j, 7, 9, 3, 1, 13, 12, 11, 14, 2, 6, 5, 10, 4, 0, 15, 8)
    else if r == 4 then Pick16(j, 9, 0, 5, 7, 2, 4, 10, 15, 14, 1, 11, 12, 6, 8, 3, 13)
    else if r == 5 then Pick16(j, 2, 12, 6, 10, 0, 11, 8, 3, 4, 13, 7, 5, 15, 14, 1, 9)
    else if r == 6 then Pick16(j, 12, 5, 1, 15, 14, 13, 4, 10, 0, 7, 6, 3, 9, 2, 8, 11)
    else if r == 7 then Pick16(j, 13, 11, 7, 14, 12, 1, 3, 9, 5, 0, 15, 4, 8, 6, 2, 10)
    else if r == 8 then Pick16(j, 6, 15, 14, 9, 11, 3, 0, 8, 12, 2, 13, 7, 1, 4, 10, 5)
    else Pick16(j, 10, 2, 8, 4, 7, 6, 1, 5, 15, 11, 9, 14, 3, 12, 13, 0)
  }

  // The table `sigma` of the code, with its four extra rows.
  function SigmaRow(r: nat, j: nat): (s: nat)
    requires r < 14 && j < 16
    ensures s < 16
  {
    if r < 10 then Sigma(r, j)
    else if r == 10 then Pick16(j, 0, 1, 2, 3, 4, 5, 6, 7, 8, 9, 10, 11, 12, 13, 14, 15)
    else if r == 11 then Pick16(j, 14, 10, 4, 8, 9, 15, 13, 6, 1, 12, 0, 2, 11, 7, 5, 3)
    else if r == 12 then Pick16(j, 11, 8, 12, 0, 5, 2, 15, 13, 10, 14, 3, 6, 7, 1, 9, 4)
    else Pick16(j, 7, 9, 3, 1, 13, 12, 11, 14, 2, 6, 5, 10, 4, 0, 15, 8)
  }

  lemma RowsRepeat(r: nat, j: nat)
    requires r < 14 && j < 16
    ensures SigmaRow(r, j) == Sigma(if r < 10 then r else r - 10, j)
  {
  }

  // The sixteen constants.
  function Constants(): (c: seq<bv32>)
    ensures |c| == 16
  {
    [0x243F6A88, 0x85A308D3, 0x13198A2E, 0x03707344, 0xA4093822, 0x299F31D0, 0x082EFA98, 0xEC4E6C89,
     0x452821E6, 0x38D01377, 0xBE5466CF, 0x34E90C6C, 0xC0AC29B7, 0xC97C50DD, 0x3F84D5B5, 0xB5470917]
  }

  // ----- G on four words -----

  datatype Four = Four(a: bv32, b: bv32, c: bv32, d: bv32)

  // Half of G: the message word xor constant, and two rotations.
  function HalfG(f: Four, x: bv32, r: bv32, s: bv32): Four
    requires 0 < r < 32 && 0 < s < 32
  {
    var a := Add32(Add32(f.a, f.b), x);
    var d := RotR(Xor32(f.d, a), r);
    var c := Add32(f.c, d);
    Four(a, RotR(Xor32(f.b, c), s), c, d)
  }

  function G(f: Four, x: bv32, y: bv32): Four {
    HalfG(HalfG(f, x, 16, 12), y, 8, 7)
  }

  // The first and the second word that step `i` of round `r` mixes in.
  function Mixed(m: seq<bv32>, r: nat, i: nat): bv32
    requires |m| == 16 && r < 10 && i < 8
  {
    Xor32(m[Sigma(r, 2 * i)], Constants()[Sigma(r, 2 * i + 1)])
  }

  function MixedToo(m: seq<bv32>, r: nat, i: nat): bv32
    requires |m| == 16 && r < 10 && i < 8
  {
    Xor32(m[Sigma(r, 2 * i + 1)], Constants()[Sigma(r, 2 * i)])
  }

  // The words of step `i`: a column for i < 4, a diagonal for the others.
  function IndexA(i: nat): (k: nat)
    requires i < 8
    ensures k < 4
  {
    if i < 4 then i else i - 4
  }

  function IndexB(i: nat): (k: nat)
    requires i < 8
    ensures 4 <= k < 8
  {
    if i < 4 then 4 + i else if i < 7 then i + 1 else 4
  }

  function IndexC(i: nat): (k: nat)
    requires i < 8
    ensures 8 <= k < 12
  {
    if i < 4 then 8 + i else if i < 6 then i + 6 else i + 2
  }

  function IndexD(i: nat): (k: nat)
    requires i < 8
    ensures 12 <= k < 16
  {
    if i < 4 then 12 + i else if i == 4 then 15 else i + 7
  }

  function FourAt(v: seq<bv32>, i: nat): Four
    requires |v| == 16 && i < 8
  {
    Four(v[IndexA(i)], v[IndexB(i)], v[IndexC(i)], v[IndexD(i)])
  }

  function Put(v: seq<bv32>, i: nat, f: Four): (w: seq<bv32>)
    requires |v| == 16 && i < 8
    ensures |w| == 16
  {
    v[IndexA(i) := f.a][IndexB(i) := f.b][IndexC(i) := f.c][IndexD(i) := f.d]
  }

  function Step(v: seq<bv32>, m: seq<bv32>, r: nat, i: nat): (w: seq<bv32>)
    requires |v| == 16 && |m| == 16 && r < 10 && i < 8
    ensures |w| == 16
  {
    Put(v, i, G(FourAt(v, i), Mixed(m, r, i), MixedToo(m, r, i)))
  }

  // A round of the specification: steps 0 to 7 in order.
  function RoundSteps(v: seq<bv32>, m: seq<bv32>, r: nat, i: nat): (w: seq<bv32>)
    requires |v| == 16 && |m| == 16 && r < 10 && i <= 8
    ensures |w| == 16
    decreases i, v
  {
    if i == 0 then v else Step(RoundSteps(v, m, r, i - 1), m, r, i - 1)
  }

  function RoundsOf(v: seq<bv32>, m: seq<bv32>, n: nat): (w: seq<bv32>)
    requires |v| == 16 && |m| == 16 && n <= 14
    ensures |w| == 16
    decreases n, v
  {
    if n == 0 then v
    else RoundSteps(RoundsOf(v, m, n - 1), m, if n - 1 < 10 then n - 1 else n - 11, 8)
  }

  // ----- the compression function of the specification -----

  function Low(t: nat): bv32 {
    (t % TWO32) as bv32
  }

  function High(t: nat): bv32 {
    (t / TWO32 % TWO32) as bv32
  }

  // The initial words, for the counter `t`.
  function Start(h: Chain, s: seq<bv32>, t: nat): (v: seq<bv32>)
    requires |s| == 4
    ensures |v| == 16
  {
    h + [Xor32(s[0], 0x243F6A88), Xor32(s[1], 0x85A308D3), Xor32(s[2], 0x13198A2E), Xor32(s[3], 0x03707344),
         Xor32(Low(t), 0xA4093822), Xor32(Low(t), 0x299F31D0), Xor32(High(t), 0x082EFA98), Xor32(High(t), 0xEC4E6C89)]
  }

  function MessageWords(block: seq<Byte>): (m: seq<bv32>)
    requires |block| == 64
    ensures |m| == 16
  {
    seq(16, i requires 0 <= i < 16 => BigWord(block[4 * i], block[4 * i + 1], block[4 * i + 2], block[4 * i + 3]))
  }

  // The new chaining value: h xor s xor both halves of the words.
  function Finish(h: Chain, s: seq<bv32>, v: seq<bv32>): (r: Chain)
    requires |s| == 4 && |v| == 16
  {
    seq(8, i requires 0 <= i < 8 => Xor32(Xor32(h[i], s[i % 4]), Xor32(v[i], v[i + 8])))
  }

  function CompressOf(h: Chain, s: seq<bv32>, block: seq<Byte>, t: nat): Chain
    requires |s| == 4 && |block| == 64
  {
    Finish(h, s, RoundsOf(Start(h, s, t), MessageWords(block), 14))
  }

  // ----- the order of the diagonals does not matter -----

  lemma Disjoint(i: nat, j: nat)
    requires 4 <= i < 8 && 4 <= j < 8 && i != j
    ensures IndexA(i) != IndexA(j) && IndexB(i) != IndexB(j) && IndexC(i) != IndexC(j) && IndexD(i) != IndexD(j)
  {
  }

  lemma PutAt(v: seq<bv32>, i: nat, f: Four, k: nat)
    requires |v| == 16 && i < 8 && k < 16
    ensures Put(v, i, f)[k]
         == if k == IndexA(i) then f.a else if k == IndexB(i) then f.b else if k == IndexC(i) then f.c
            else if k == IndexD(i) then f.d else v[k]
  {
    hide IndexA, IndexB, IndexC, IndexD;
  }

  lemma FourAfterPut(v: seq<bv32>, i: nat, j: nat, f: Four)
    requires |v| == 16 && 4 <= i < 8 && 4 <= j < 8 && i != j
    ensures FourAt(Put(v, i, f), j) == FourAt(v, j)
  {
    hide Put, IndexA, IndexB, IndexC, IndexD;
    Disjoint(i, j);
    PutAt(v, i, f, IndexA(j));
    PutAt(v, i, f, IndexB(j));
    PutAt(v, i, f, IndexC(j));
    PutAt(v, i, f, IndexD(j));
  }

  lemma PutsCommute(v: seq<bv32>, i: nat, j: nat, f: Four, g: Four)
    requires |v| == 16 && 4 <= i < 8 && 4 <= j < 8 && i != j
    ensures Put(Put(v, i, f), j, g) == Put(Put(v, j, g), i, f)
  {
    hide Put, IndexA, IndexB, IndexC, IndexD;
    Disjoint(i, j);
    forall k | 0 <= k < 16
      ensures Put(Put(v, i, f), j, g)[k] == Put(Put(v, j, g), i, f)[k]
    {
      PutAt(v, i, f, k);
      PutAt(Put(v, i, f), j, g, k);
      PutAt(v, j, g, k);
      PutAt(Put(v, j, g), i, f, k);
    }
  }

  // Steps on different diagonals can change places.
  lemma StepsCommute(v: seq<bv32>, m: seq<bv32>, r: nat, i: nat, j: nat)
    requires |v| == 16 && |m| == 16 && r < 10 && 4 <= i < 8 && 4 <= j < 8 && i != j
    ensures Step(Step(v, m, r, i), m, r, j) == Step(Step(v, m, r, j), m, r, i)
  {
    hide FourAt, Put, G, Mixed, MixedToo;
    var f := G(FourAt(v, i), Mixed(m, r, i), MixedToo(m, r, i));
    var g := G(FourAt(v, j), Mixed(m, r, j), MixedToo(m, r, j));
    FourAfterPut(v, i, j, f);
    FourAfterPut(v, j, i, g);
    PutsCommute(v, i, j, f, g);
  }

  lemma StepIs(v: seq<bv32>, m: seq<bv32>, r: nat, i: nat)
    requires |v| == 16 && |m| == 16 && r < 10 && i < 8
    ensures RoundSteps(v, m, r, 0) == v
    ensures RoundSteps(v, m, r, i + 1) == Step(RoundSteps(v, m, r, i), m, r, i)
  {
  }

  // The code's order 7, 6, 4, 5 of the diagonals gives the round of the specification.
  lemma CodeOrder(v: seq<bv32>, m: seq<bv32>, r: nat)
    requires |v| == 16 && |m| == 16 && r < 10
    ensures var u := RoundSteps(v, m, r, 4);
            Step(Step(Step(Step(u, m, r, 7), m, r, 6), m, r, 4), m, r, 5) == RoundSteps(v, m, r, 8)
  {
    hide Step, RoundSteps;
    var u := RoundSteps(v, m, r, 4);
    StepIs(v, m, r, 4);
    StepIs(v, m, r, 5);
    StepIs(v, m, r, 6);
    StepIs(v, m, r, 7);
    var u4 := Step(u, m, r, 4);
    var u45 := Step(u4, m, r, 5);
    StepsCommute(u45, m, r, 6, 7);
    StepsCommute(u4, m, r, 5, 7);
    StepsCommute(u, m, r, 4, 7);
    var u7 := Step(u, m, r, 7);
    StepsCommute(Step(u7, m, r, 4), m, r, 5, 6);
    StepsCommute(u7, m, r, 4, 6);
  }

  // ----- the code -----

  // v[a] += x + v[b]
  lemma SumOrder(a: bv32, b: bv32, x: bv32)
    ensures Add32(a, Add32(x, b)) == Add32(Add32(a, b), x)
  {
    hide Add32;
    AddCommutes(x, b);
    AddAssociates(a, b, x);
  }

  method HalfGInPlace(v: array<bv32>, a: nat, b: nat, c: nat, d: nat, x: bv32, r: bv32, s: bv32)
    requires v.Length == 16 && a < 4 <= b < 8 <= c < 12 <= d < 16 && 0 < r < 32 && 0 < s < 32
    modifies v
    ensures var f := HalfG(Four(old(v[a]), old(v[b]), old(v[c]), old(v[d])), x, r, s);
            v[..] == old(v[..])[a := f.a][b := f.b][c := f.c][d := f.d]
  {
    hide Add32, Xor32, RotR;
    SumOrder(v[a], v[b], x);
    v[a] := Add32(v[a], Add32(x, v[b]));
    v[d] := RotR(Xor32(v[d], v[a]), r);
    v[c] := Add32(v[c], v[d]);
    v[b] := RotR(Xor32(v[b], v[c]), s);
  }

  // The macro G.
  method GInPlace(v: array<bv32>, a: nat, b: nat, c: nat, d: nat, x: bv32, y: bv32)
    requires v.Length == 16 && a < 4 <= b < 8 <= c < 12 <= d < 16
    modifies v
    ensures var f := G(Four(old(v[a]), old(v[b]), old(v[c]), old(v[d])), x, y);
            v[..] == old(v[..])[a := f.a][b := f.b][c := f.c][d := f.d]
  {
    hide HalfG;
    HalfGInPlace(v, a, b, c, d, x, 16, 12);
    HalfGInPlace(v, a, b, c, d, y, 8, 7);
  }

  // G(a, b, c, d, e) in round `i` of the loop.
  method GStep(v: array<bv32>, m: seq<bv32>, i: nat, a: nat, b: nat, c: nat, d: nat, e: nat)
    requires v.Length == 16 && |m| == 16 && i < 14 && e < 16 && e % 2 == 0
    requires a == IndexA(e / 2) && b == IndexB(e / 2) && c == IndexC(e / 2) && d == IndexD(e / 2)
    modifies v
    ensures v[..] == Step(old(v[..]), m, if i < 10 then i else i - 10, e / 2)
  {
    hide G, Constants, Xor32, Sigma, SigmaRow;
    RowsRepeat(i, e);
    RowsRepeat(i, e + 1);
    ghost var was := v[..];
    GInPlace(v, a, b, c, d, Xor32(m[SigmaRow(i, e)], Constants()[SigmaRow(i, e + 1)]),
             Xor32(m[SigmaRow(i, e + 1)], Constants()[SigmaRow(i, e)]));
    assert 2 * (e / 2) == e;
    assert FourAt(was, e / 2) == Four(was[a], was[b], was[c], was[d]);
  }

  method Round(v: array<bv32>, m: seq<bv32>, i: nat)
    requires v.Length == 16 && |m| == 16 && i < 14
    modifies v
    ensures v[..] == RoundSteps(old(v[..]), m, if i < 10 then i else i - 10, 8)
  {
    hide Step, RoundSteps;
    ghost var was, r := v[..], if i < 10 then i else i - 10;
    StepIs(was, m, r, 0);
    GStep(v, m, i, 0, 4, 8, 12, 0);
    StepIs(was, m, r, 1);
    GStep(v, m, i, 1, 5, 9, 13, 2);
    StepIs(was, m, r, 2);
    GStep(v, m, i, 2, 6, 10, 14, 4);
    StepIs(was, m, r, 3);
    GStep(v, m, i, 3, 7, 11, 15, 6);
    GStep(v, m, i, 3, 4, 9, 14, 14);
    GStep(v, m, i, 2, 7, 8, 13, 12);
    GStep(v, m, i, 0, 5, 10, 15, 8);
    GStep(v, m, i, 1, 6, 11, 12, 10);
    CodeOrder(was, m, r);
  }

  // No counter is the same as the counter 0.
  function CounterOf(c: Option<nat>): nat {
    match c
    case None => 0
    case Some(n) => n
  }

  lemma XorCommutes32(x: bv32, y: bv32)
    ensures Xor32(x, y) == Xor32(y, x)
    ensures Xor32(0, x) == x
  {
  }

  lemma ZeroCounter()
    ensures Low(0) == 0 && High(0) == 0
  {
  }

  lemma CounterHalves(t0: nat, t1: nat)
    requires t0 < TWO32 && t1 < TWO32
    ensures Low(t1 * TWO32 + t0) == t0 as bv32 && High(t1 * TWO32 + t0) == t1 as bv32
  {
    assert (t1 * TWO32 + t0) % TWO32 == t0 && (t1 * TWO32 + t0) / TWO32 == t1;
  }

  lemma StartIs(h: Chain, s: seq<bv32>, t0: nat, t1: nat, nullt: bool)
    requires |s| == 4 && t0 < TWO32 && t1 < TWO32
    ensures var lo, hi := if nullt then 0 else t0 as bv32, if nullt then 0 else t1 as bv32;
            Start(h, s, CounterOf(if nullt then None else Some(t1 * TWO32 + t0))) == Words16(h, s, lo, hi)
  {
    hide Xor32, Low, High;
    ZeroCounter();
    CounterHalves(t0, t1);
    var t := CounterOf(if nullt then None else Some(t1 * TWO32 + t0));
    XorCommutes32(Low(t), 0xA4093822);
    XorCommutes32(Low(t), 0x299F31D0);
    XorCommutes32(High(t), 0x082EFA98);
    XorCommutes32(High(t), 0xEC4E6C89);
  }

  // The words before the rounds, from the two counter words.
  function Words16(h: Chain, s: seq<bv32>, lo: bv32, hi: bv32): (v: seq<bv32>)
    requires |s| == 4
    ensures |v| == 16
  {
    h + [Xor32(s[0], 0x243F6A88), Xor32(s[1], 0x85A308D3), Xor32(s[2], 0x13198A2E), Xor32(s[3], 0x03707344),
         Xor32(0xA4093822, lo), Xor32(0x299F31D0, lo), Xor32(0x082EFA98, hi), Xor32(0xEC4E6C89, hi)]
  }

  lemma XorZero32(x: bv32)
    ensures Xor32(x, 0) == x
  {
  }

  method LoadStart(h: Chain, s: seq<bv32>) returns (v: array<bv32>)
    requires |s| == 4
    ensures fresh(v) && v.Length == 16
    ensures v[..] ==
        h + [Xor32(s[0], 0x243F6A88), Xor32(s[1], 0x85A308D3), Xor32(s[2], 0x13198A2E), Xor32(s[3], 0x03707344)]
                       + [0xA4093822, 0x299F31D0, 0x082EFA98, 0xEC4E6C89]
  {
    hide Xor32;
    v := new bv32[16];
    forall i | 0 <= i < 8 {
      v[i] := h[i];
    }
    v[8] := Xor32(s[0], 0x243F6A88);
    v[9] := Xor32(s[1], 0x85A308D3);
    v[10] := Xor32(s[2], 0x13198A2E);
    v[11] := Xor32(s[3], 0x03707344);
    v[12] := 0xA4093822;
    v[13] := 0x299F31D0;
    v[14] := 0x082EFA98;
    v[15] := 0xEC4E6C89;
    assert v[..8] == h;
    assert v[8..12] == [v[8], v[9], v[10], v[11]];
    assert v[12..] == [v[12], v[13], v[14], v[15]];
    assert v[..] == v[..8] + v[8..12] + v[12..];
  }

  method XorCounter(v: array<bv32>, lo: bv32, hi: bv32)
    requires v.Length == 16
    modifies v
    ensures v[..] ==
        old(v[..12]) + [Xor32(old(v[12]), lo), Xor32(old(v[13]), lo), Xor32(old(v[14]), hi), Xor32(old(v[15]), hi)]
  {
    hide Xor32;
    v[12] := Xor32(v[12], lo);
    v[13] := Xor32(v[13], lo);
    v[14] := Xor32(v[14], hi);
    v[15] := Xor32(v[15], hi);
  }

  lemma WordsFrom(h: Chain, s: seq<bv32>, lo: bv32, hi: bv32, v: seq<bv32>)
    requires |s| == 4
    requires v ==
        h + [Xor32(s[0], 0x243F6A88), Xor32(s[1], 0x85A308D3), Xor32(s[2], 0x13198A2E), Xor32(s[3], 0x03707344)]
                    + [0xA4093822, 0x299F31D0, 0x082EFA98, 0xEC4E6C89]
    ensures |v| == 16
    ensures v[..12] + [Xor32(v[12], lo), Xor32(v[13], lo), Xor32(v[14], hi), Xor32(v[15], hi)] == Words16(h, s, lo, hi)
    ensures v == Words16(h, s, 0, 0)
  {
    hide Xor32;
    XorZero32(0xA4093822);
    XorZero32(0x299F31D0);
    XorZero32(0x082EFA98);
    XorZero32(0xEC4E6C89);
  }

  method SetUp(h: Chain, s: seq<bv32>, lo: bv32, hi: bv32, nullt: bool) returns (v: array<bv32>)
    requires |s| == 4
    ensures fresh(v) && v.Length == 16
    ensures v[..] == Words16(h, s, if nullt then 0 else lo, if nullt then 0 else hi)
  {
    hide Xor32, Words16;
    v := LoadStart(h, s);
    WordsFrom(h, s, lo, hi, v[..]);
    if !nullt {
      XorCounter(v, lo, hi);
    }
  }

  lemma XorFour(h: bv32, v: bv32, w: bv32, s: bv32)
    ensures Xor32(Xor32(Xor32(h, v), w), s) == Xor32(Xor32(h, s), Xor32(v, w))
  {
  }

  // The two loops at the end: h[i mod 8] ^= v[i] for sixteen words, then h[i] ^= s[i mod 4].
  method Fold(h: array<bv32>, v: seq<bv32>, s: seq<bv32>)
    requires h.Length == 8 && |v| == 16 && |s| == 4
    modifies h
    ensures h[..] == Finish(old(h[..]), s, v)
  {
    hide Xor32;
    ghost var was := h[..];
    FoldWords(h, v);
    ghost var both := h[..];
    var i := 0;
    while i < 8
      invariant 0 <= i <= 8
      invariant forall k :: 0 <= k < 8 ==> h[k] == if k < i then Xor32(both[k], s[k % 4]) else both[k]
    {
      h[i] := Xor32(h[i], s[i % 4]);
      i := i + 1;
    }
    forall k | 0 <= k < 8
      ensures h[k] == Xor32(Xor32(was[k], s[k % 4]), Xor32(v[k], v[k + 8]))
    {
      XorFour(was[k], v[k], v[k + 8], s[k % 4]);
    }
  }

  method FoldWords(h: array<bv32>, v: seq<bv32>)
    requires h.Length == 8 && |v| == 16
    modifies h
    ensures forall k :: 0 <= k < 8 ==> h[k] == Xor32(Xor32(old(h[k]), v[k]), v[k + 8])
  {
    hide Xor32;
    ghost var was := h[..];
    var i := 0;
    while i < 16
      invariant 0 <= i <= 16
      invariant forall k :: 0 <= k < 8 ==> h[k] == Folded(was, v, i, k)
    {
      var j := if i < 8 then i else i - 8;
      assert j == i % 8;
      h[j] := Xor32(h[j], v[i]);
      i := i + 1;
    }
  }

  // Word `k` after the first `i` words of v have been folded in.
  function Folded(h: seq<bv32>, v: seq<bv32>, i: nat, k: nat): bv32
    requires |h| == 8 && |v| == 16 && k < 8
  {
    if i <= k then h[k]
    else if i <= k + 8 then Xor32(h[k], v[k])
    else Xor32(Xor32(h[k], v[k]), v[k + 8])
  }

  // blake256_compress.
  method Compress(h: array<bv32>, s: seq<bv32>, t0: nat, t1: nat, nullt: bool, block: seq<Byte>)
    requires h.Length == 8 && |s| == 4 && t0 < TWO32 && t1 < TWO32 && |block| == 64
    modifies h
    ensures var c := if nullt then None else Some(t1 * TWO32 + t0);
            && h[..] == CompressOf(old(h[..]), s, block, CounterOf(c))
            && (s == [0, 0, 0, 0] ==> h[..] == Plain()(old(h[..]), block, c))
  {
    hide Start, Words16, MessageWords, RoundSteps, Finish;
    var m := MessageWords(block);
    StartIs(h[..], s, t0, t1, nullt);
    var v := SetUp(h[..], s, t0 as bv32, t1 as bv32, nullt);
    ghost var v0 := v[..];
    var i := 0;
    while i < 14
      invariant 0 <= i <= 14
      invariant v[..] == RoundsOf(v0, m, i)
      invariant h[..] == old(h[..])
    {
      Round(v, m, i);
      i := i + 1;
    }
    Fold(h, v[..], s);
  }

  // The compression of a state whose salt is zero: what the streaming code of Blake256 is given.
  function Plain(): Compression {
    (h: Chain, block: seq<Byte>, c: Option<nat>) =>
      if |block| == 64 then CompressOf(h, [0, 0, 0, 0], block, CounterOf(c)) else h
  }
}
