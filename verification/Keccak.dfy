/**
 Keccak: the permutation in place on 25 words, with its single-temporary rho and pi walk, against
 the step mappings of section 3.2 of FIPS 202; and the sponge with the padding of keccak.c.
 */
module Keccak {
  import opened Words

  type State = s: seq<bv64> | |s| == 25 witness seq(25, i => 0)

  // ROTL64
  function Rotl(x: bv64, n: nat): bv64
    requires n < 64
  {
    (x << n) | (x >> (64 - n))
  }

  // `n % 5` of an index one or two rows long.
  function Wrap5(n: nat): (r: nat)
    requires n < 10
    ensures r < 5
  {
    if n < 5 then n else n - 5
  }

  function Xor5(a: bv64, b: bv64, c: bv64, d: bv64, e: bv64): bv64 {
    Xor64(Xor64(Xor64(Xor64(a, b), c), d), e)
  }

  // ----- the step mappings; lane (x, y) is word x + 5 * y -----

  function ColumnParity(s: State, x: nat): bv64
    requires x < 5
  {
    Xor5(s[x], s[x + 5], s[x + 10], s[x + 15], s[x + 20])
  }

  function ThetaEffect(s: State, x: nat): bv64
    requires x < 5
  {
    Xor64(ColumnParity(s, Wrap5(x + 4)), Rotl(ColumnParity(s, Wrap5(x + 1)), 1))
  }

  function Theta(s: State): State {
    seq(25, i requires 0 <= i < 25 => Xor64(s[i], ThetaEffect(s, i % 5)))
  }

  // The rotation of each lane.
  function Offset(i: nat): (n: nat)
    requires i < 25
    ensures n < 64
  {
    if i < 5 then (if i == 0 then 0 else if i == 1 then 1 else if i == 2 then 62 else if i == 3 then 28 else 27)
    else if i < 10 then (if i == 5 then 36 else if i == 6 then 44 else if i == 7 then 6 else if i == 8 then 55 else 20)
    else if i < 15 then (if i == 10 then 3 else if i == 11 then 10
      else if i == 12 then 43 else if i == 13 then 25 else 39)
    else if i < 20 then (if i == 15 then 41 else if i == 16 then 45
      else if i == 17 then 15 else if i == 18 then 21 else 8)
    else (if i == 20 then 18 else if i == 21 then 2 else if i == 22 then 61 else if i == 23 then 56 else 14)
  }

  // Pi moves lane (x, y) to (y, 2x + 3y); this is the lane that arrives at `i`.
  function PiSource(i: nat): (j: nat)
    requires i < 25
    ensures j < 25
  {
    (i % 5 + 3 * (i / 5)) % 5 + 5 * (i % 5)
  }

  lemma PiSourceArrives(i: nat)
    requires i < 25
    ensures var x, y := PiSource(i) % 5, PiSource(i) / 5;
            i % 5 == y && i / 5 == (2 * x + 3 * y) % 5
  {
    var x0, y0 := i % 5, i / 5;
    var x := (x0 + 3 * y0) % 5;
    var q := (x0 + 3 * y0) / 5;
    assert x0 + 3 * y0 == 5 * q + x;
    assert 2 * x + 3 * x0 == 5 * (x0 + y0 - 2 * q) + y0;
    Mod5(2 * x + 3 * x0, x0 + y0 - 2 * q, y0);
  }

  lemma Mod5(n: nat, q: int, m: nat)
    requires n == 5 * q + m && m < 5
    ensures n % 5 == m
  {
  }

  function RhoPi(s: State): State {
    seq(25, i requires 0 <= i < 25 => Rotl(s[PiSource(i)], Offset(PiSource(i))))
  }

  function ChiWord(a: bv64, b: bv64, c: bv64): bv64 {
    a ^ (!b & c)
  }

  // The word `k` places to the right in the same row.
  function RightOf(i: nat, k: nat): (j: nat)
    requires i < 25 && k < 5
    ensures j < 25
  {
    i / 5 * 5 + Wrap5(i % 5 + k)
  }

  lemma RightOfAt(y: nat, x: nat, k: nat)
    requires y < 5 && x < 5 && k < 5
    ensures RightOf(5 * y + x, k) == 5 * y + Wrap5(x + k)
  {
  }

  function Chi(s: State): State {
    seq(25, i requires 0 <= i < 25 => ChiWord(s[i], s[RightOf(i, 1)], s[RightOf(i, 2)]))
  }

  function RoundConstant(r: nat): bv64
    requires r < 24
  {
    if r < 8 then
      if r == 0 then 0x0000000000000001 else if r == 1 then 0x0000000000008082
      else if r == 2 then 0x800000000000808a else if r == 3 then 0x8000000080008000
      else if r == 4 then 0x000000000000808b else if r == 5 then 0x0000000080000001
      else if r == 6 then 0x8000000080008081 else 0x8000000000008009
    else if r < 16 then
      if r == 8 then 0x000000000000008a else if r == 9 then 0x0000000000000088
      else if r == 10 then 0x0000000080008009 else if r == 11 then 0x000000008000000a
      else if r == 12 then 0x000000008000808b else if r == 13 then 0x800000000000008b
      else if r == 14 then 0x8000000000008089 else 0x8000000000008003
    else
      if r == 16 then 0x8000000000008002 else if r == 17 then 0x8000000000000080
      else if r == 18 then 0x000000000000800a else if r == 19 then 0x800000008000000a
      else if r == 20 then 0x8000000080008081 else if r == 21 then 0x8000000000008080
      else if r == 22 then 0x0000000080000001 else 0x8000000080008008
  }

  function Iota(s: State, r: nat): State
    requires r < 24
  {
    s[0 := Xor64(s[0], RoundConstant(r))]
  }

  function Rounds(s: State, n: nat): State
    requires n <= 24
    decreases n, s
  {
    if n == 0 then s else Iota(Chi(RhoPi(Theta(Rounds(s, n - 1)))), n - 1)
  }

  function KeccakF(s: State): State {
    Rounds(s, 24)
  }

  // ----- the tables of the walk -----

  // keccakf_piln
  function Piln(i: nat): (j: nat)
    requires i < 24
    ensures 0 < j < 25
  {
    if i < 12 then
      if i < 6 then
        if i == 0 then 10 else if i == 1 then 7 else if i == 2 then 11
          else if i == 3 then 17 else if i == 4 then 18 else 3
      else
        if i == 6 then 5 else if i == 7 then 16 else if i == 8 then 8
          else if i == 9 then 21 else if i == 10 then 24 else 4
    else
      if i < 18 then
        if i == 12 then 15 else if i == 13 then 23 else if i == 14 then 19
          else if i == 15 then 13 else if i == 16 then 12 else 2
      else
        if i == 18 then 20 else if i == 19 then 14 else if i == 20 then 22
          else if i == 21 then 9 else if i == 22 then 6 else 1
  }

  // keccakf_rotc
  function Rotc(i: nat): (n: nat)
    requires i < 24
    ensures n < 64
  {
    if i < 12 then
      if i < 6 then
        if i == 0 then 1 else if i == 1 then 3 else if i == 2 then 6
          else if i == 3 then 10 else if i == 4 then 15 else 21
      else
        if i == 6 then 28 else if i == 7 then 36 else if i == 8 then 45
          else if i == 9 then 55 else if i == 10 then 2 else 14
    else
      if i < 18 then
        if i == 12 then 27 else if i == 13 then 41 else if i == 14 then 56
          else if i == 15 then 8 else if i == 16 then 25 else 43
      else
        if i == 18 then 62 else if i == 19 then 18 else if i == 20 then 39
          else if i == 21 then 61 else if i == 22 then 20 else 44
  }

  // The position whose old value is written in step `i` of the walk, which starts at word 1.
  function WalkSource(i: nat): (j: nat)
    requires i <= 24
    ensures 0 < j < 25
  {
    if i == 0 then 1 else Piln(i - 1)
  }

  // The step that writes word `j`.
  function StepOf(j: nat): (i: nat)
    requires 0 < j < 25
    ensures i < 24
  {
    if j < 13 then
      if j < 7 then
        if j == 1 then 23 else if j == 2 then 17 else if j == 3 then 5
          else if j == 4 then 11 else if j == 5 then 6 else 22
      else
        if j == 7 then 1 else if j == 8 then 8 else if j == 9 then 21
          else if j == 10 then 0 else if j == 11 then 2 else 16
    else
      if j < 19 then
        if j == 13 then 15 else if j == 14 then 19 else if j == 15 then 12
          else if j == 16 then 7 else if j == 17 then 3 else 4
      else
        if j == 19 then 14 else if j == 20 then 18 else if j == 21 then 9
          else if j == 22 then 20 else if j == 23 then 13 else 10
  }

  // The walk visits every word but word 0 exactly once.
  lemma WalkIsCycle(i: nat)
    requires i < 24
    ensures StepOf(Piln(i)) == i
  {
  }

  lemma EveryWordVisited(j: nat)
    requires 0 < j < 25
    ensures Piln(StepOf(j)) == j
  {
  }

  // It follows pi, and rotates by the triangular numbers (section 3.2.2 of FIPS 202).
  lemma PiSourceAt(i: nat, x0: nat, y0: nat, q: nat, x: nat)
    requires i == x0 + 5 * y0 && x0 < 5 && i < 25
    requires x0 + 3 * y0 == 5 * q + x && x < 5
    ensures PiSource(i) == x + 5 * x0
  {
    Mod5(i, y0, x0);
    Mod5(x0 + 3 * y0, q, x);
  }

  lemma WalkFollowsPi(i: nat)
    requires i < 24
    ensures PiSource(Piln(i)) == WalkSource(i)
  {
    hide PiSource;
    PiSourceAt(10, 0, 2, 1, 1); PiSourceAt(7, 2, 1, 1, 0); PiSourceAt(11, 1, 2, 1, 2); PiSourceAt(17, 2, 3, 2, 1);
    PiSourceAt(18, 3, 3, 2, 2); PiSourceAt(3, 3, 0, 0, 3); PiSourceAt(5, 0, 1, 0, 3); PiSourceAt(16, 1, 3, 2, 0);
    PiSourceAt(8, 3, 1, 1, 1); PiSourceAt(21, 1, 4, 2, 3); PiSourceAt(24, 4, 4, 3, 1); PiSourceAt(4, 4, 0, 0, 4);
    PiSourceAt(15, 0, 3, 1, 4); PiSourceAt(23, 3, 4, 3, 0); PiSourceAt(19, 4, 3, 2, 3); PiSourceAt(13, 3, 2, 1, 4);
    PiSourceAt(12, 2, 2, 1, 3); PiSourceAt(2, 2, 0, 0, 2); PiSourceAt(20, 0, 4, 2, 2); PiSourceAt(14, 4, 2, 2, 0);
    PiSourceAt(22, 2, 4, 2, 4); PiSourceAt(9, 4, 1, 1, 2); PiSourceAt(6, 1, 1, 0, 4); PiSourceAt(1, 1, 0, 0, 1);
  }

  lemma WalkOffsets(i: nat)
    requires i < 24
    ensures Rotc(i) == Offset(WalkSource(i))
  {
  }

  lemma TriangularLow(i: nat)
    requires i < 12
    ensures Rotc(i) == (i + 1) * (i + 2) / 2 % 64
  {
  }

  lemma TriangularHigh(i: nat)
    requires 12 <= i < 24
    ensures Rotc(i) == (i + 1) * (i + 2) / 2 % 64
  {
  }

  // The rotation of each step is the offset of the lane it moves, a triangular number.
  lemma WalkRotations(i: nat)
    requires i < 24
    ensures Rotc(i) == Offset(WalkSource(i)) == (i + 1) * (i + 2) / 2 % 64
  {
    hide *;
    WalkOffsets(i);
    if i < 12 {
      TriangularLow(i);
    } else {
      TriangularHigh(i);
    }
  }

  // ----- keccakf, in place -----

  method ColumnParities(st: array<bv64>) returns (bc: array<bv64>)
    requires st.Length == 25
    ensures fresh(bc) && bc.Length == 5
    ensures forall k :: 0 <= k < 5 ==> bc[k] == ColumnParity(st[..], k)
  {
    hide Xor5;
    bc := new bv64[5];
    for i := 0 to 5
      invariant forall k :: 0 <= k < i ==> bc[k] == ColumnParity(st[..], k)
    {
      bc[i] := Xor5(st[i], st[i + 5], st[i + 10], st[i + 15], st[i + 20]);
    }
  }

  method ThetaInPlace(st: array<bv64>)
    requires st.Length == 25
    modifies st
    ensures st[..] == Theta(old(st[..]))
  {
    hide Xor64, Rotl, ColumnParity;
    var bc := ColumnParities(st);
    for i := 0 to 5
      invariant forall k :: 0 <= k < 5 ==> bc[k] == ColumnParity(old(st[..]), k)
      invariant ColumnsMixed(old(st[..]), st[..], i)
    {
      var t := Xor64(bc[Wrap5(i + 4)], Rotl(bc[Wrap5(i + 1)], 1));
      ghost var before := st[..];
      AddToColumn(st, i, t);
      NextColumnMixed(old(st[..]), before, st[..], i, t);
    }
  }

  lemma NextColumnMixed(s: State, before: State, after: State, i: nat, t: bv64)
    requires i < 5 && t == ThetaEffect(s, i)
    requires ColumnsMixed(s, before, i)
    requires forall k :: 0 <= k < 25 ==> after[k] == if k % 5 == i then Xor64(before[k], t) else before[k]
    ensures ColumnsMixed(s, after, i + 1)
  {
    hide Xor64, ThetaEffect;
  }

  // The first `n` columns have received their theta effect.
  ghost predicate ColumnsMixed(s: State, t: seq<bv64>, n: nat) {
    |t| == 25 && forall k :: 0 <= k < 25 ==> t[k] == if k % 5 < n then Xor64(s[k], ThetaEffect(s, k % 5)) else s[k]
  }

  method AddToColumn(st: array<bv64>, i: nat, t: bv64)
    requires st.Length == 25 && i < 5
    modifies st
    ensures forall k :: 0 <= k < 25 ==> st[k] == if k % 5 == i then Xor64(old(st[..])[k], t) else old(st[..])[k]
  {
    hide Xor64;
    var j := 0;
    while j < 25
      invariant j % 5 == 0 && 0 <= j <= 25
      invariant forall k :: 0 <= k < 25 ==>
          st[k] == if k % 5 == i && k < j then Xor64(old(st[..])[k], t) else old(st[..])[k]
    {
      st[j + i] := Xor64(st[j + i], t);
      j := j + 5;
    }
  }

  method RhoPiInPlace(st: array<bv64>)
    requires st.Length == 25
    modifies st
    ensures st[..] == RhoPi(old(st[..]))
  {
    hide Rotl, Piln, Rotc, StepOf, PiSource, Offset;
    ghost var s := st[..];
    var t := st[1];
    for i := 0 to 24
      invariant t == s[WalkSource(i)]
      invariant st[0] == s[0]
      invariant forall p :: 0 < p < 25 ==>
        st[p] == if StepOf(p) < i then Rotl(s[WalkSource(StepOf(p))], Rotc(StepOf(p))) else s[p]
    {
      var j := Piln(i);
      WalkIsCycle(i);
      forall p | 0 < p < 25
        ensures StepOf(p) == i <==> p == j
      {
        EveryWordVisited(p);
      }
      var bc0 := st[j];
      st[j] := Rotl(t, Rotc(i));
      t := bc0;
    }
    forall p | 0 <= p < 25
      ensures st[p] == RhoPi(s)[p]
    {
      if p == 0 {
        FirstWordFixed(s[0]);
      } else {
        EveryWordVisited(p);
        WalkFollowsPi(StepOf(p));
        WalkRotations(StepOf(p));
      }
    }
  }

  lemma FirstWordFixed(x: bv64)
    ensures Rotl(x, 0) == x && PiSource(0) == 0 && Offset(0) == 0
  {
  }

  // The first `n` rows are mapped.
  ghost predicate RowsMapped(s: State, t: seq<bv64>, n: nat) {
    && |t| == 25 && n <= 25
    && (forall k :: 0 <= k < n ==> t[k] == ChiWord(s[k], s[RightOf(k, 1)], s[RightOf(k, 2)]))
    && forall k :: n <= k < 25 ==> t[k] == s[k]
  }

  method ChiInPlace(st: array<bv64>)
    requires st.Length == 25
    modifies st
    ensures st[..] == Chi(old(st[..]))
  {
    hide ChiWord, RightOf;
    for y := 0 to 5
      invariant RowsMapped(old(st[..]), st[..], 5 * y)
    {
      ChiRow(st, y, old(st[..]));
    }
  }

  // One turn of the outer loop, at j = 5 * y.
  method ChiRow(st: array<bv64>, y: nat, ghost s: State)
    requires st.Length == 25 && y < 5
    requires RowsMapped(s, st[..], 5 * y)
    modifies st
    ensures RowsMapped(s, st[..], 5 * y + 5)
  {
    hide ChiWord, RightOf, RowsMapped, Wrap5;
    UnmappedWords(s, st[..], 5 * y);
    var bc := ReadRow(st, 5 * y);
    for i := 0 to 5
      invariant forall k :: 0 <= k < 5 ==> bc[k] == s[5 * y + k]
      invariant RowsMapped(s, st[..], 5 * y + i)
    {
      ChiStep(st, 5 * y + i, bc[Wrap5(i + 1)], bc[Wrap5(i + 2)], y, i, s);
    }
  }

  method ChiStep(st: array<bv64>, at: nat, b1: bv64, b2: bv64, ghost y: nat, ghost x: nat, ghost s: State)
    requires st.Length == 25 && y < 5 && x < 5 && at == 5 * y + x
    requires b1 == s[5 * y + Wrap5(x + 1)] && b2 == s[5 * y + Wrap5(x + 2)]
    requires RowsMapped(s, st[..], at)
    modifies st
    ensures RowsMapped(s, st[..], at + 1)
  {
    hide ChiWord, RightOf, RowsMapped, Wrap5;
    UnmappedWords(s, st[..], at);
    ghost var before := st[..];
    st[at] := ChiWord(st[at], b1, b2);
    assert before[at] == s[at];
    NextWordMapped(s, before, st[..], y, x);
  }

  lemma UnmappedWords(s: State, t: seq<bv64>, n: nat)
    requires RowsMapped(s, t, n)
    ensures |t| == 25 && forall k :: n <= k < 25 ==> t[k] == s[k]
  {
  }

  lemma NextWordMapped(s: State, before: seq<bv64>, after: seq<bv64>, y: nat, x: nat)
    requires y < 5 && x < 5 && RowsMapped(s, before, 5 * y + x)
    requires after == before[5 * y + x := ChiWord(s[5 * y + x], s[5 * y + Wrap5(x + 1)], s[5 * y + Wrap5(x + 2)])]
    ensures RowsMapped(s, after, 5 * y + x + 1)
  {
    hide ChiWord, RightOf;
    RightOfAt(y, x, 1);
    RightOfAt(y, x, 2);
  }

  method ReadRow(st: array<bv64>, j: nat) returns (bc: array<bv64>)
    requires j + 5 <= st.Length
    ensures fresh(bc) && bc.Length == 5
    ensures forall k :: 0 <= k < 5 ==> bc[k] == st[j + k]
  {
    bc := new bv64[5];
    for i := 0 to 5
      invariant forall k :: 0 <= k < i ==> bc[k] == st[j + k]
    {
      bc[i] := st[j + i];
    }
  }

  // keccakf with all 24 rounds.
  method KeccakFInPlace(st: array<bv64>)
    requires st.Length == 25
    modifies st
    ensures st[..] == KeccakF(old(st[..]))
  {
    hide Theta, RhoPi, Chi, RoundConstant, Xor64;
    for round := 0 to 24
      invariant st[..] == Rounds(old(st[..]), round)
    {
      ThetaInPlace(st);
      RhoPiInPlace(st);
      ChiInPlace(st);
      st[0] := Xor64(st[0], RoundConstant(round));
    }
  }

  // ----- the sponge -----

  // The rate in bytes; 200 asks for the whole state and uses HASH_DATA_AREA.
  function Rate(mdlen: int): int {
    if mdlen == 200 then 136 else 200 - 2 * mdlen
  }

  // pad10*1 on whole bytes.
  function PadBytes(n: nat): (p: seq<Byte>)
    requires n > 0
    ensures |p| == n
  {
    if n == 1 then [0x81] else [0x01] + seq(n - 2, i => 0) + [0x80]
  }

  function PaddedMessage(m: seq<Byte>, rate: nat): (p: seq<Byte>)
    requires rate > 0
    ensures |p| % rate == 0
  {
    PaddedLength(|m|, rate);
    m + PadBytes(rate - |m| % rate)
  }

  lemma PaddedLength(n: nat, rate: nat)
    requires rate > 0
    ensures (n + (rate - n % rate)) % rate == 0
  {
    var q := n / rate + 1;
    assert n + (rate - n % rate) == q * rate;
    MultipleMod(q, rate);
  }

  lemma {:induction false} MultipleMod(q: nat, d: nat)
    requires d > 0
    ensures q * d % d == 0
  {
    if q > 0 {
      MultipleMod(q - 1, d);
      assert q * d == (q - 1) * d + d;
      assert ((q - 1) * d + d) % d == (q - 1) * d % d by { AddModulus((q - 1) * d, d); }
    }
  }

  lemma AddModulus(n: nat, d: nat)
    requires d > 0
    ensures (n + d) % d == n % d
  {
    var q, r := n / d, n % d;
    assert n + d == (q + 1) * d + r;
    QuotientUnique(n + d, q + 1, r, d);
  }

  lemma QuotientUnique(n: nat, q: nat, r: nat, d: nat)
    requires d > 0 && n == q * d + r && r < d
    ensures n % d == r && n / d == q
  {
    var q', r' := n / d, n % d;
    assert n == q' * d + r';
    assert (q - q') * d == r' - r && (q' - q) * d == r - r';
    MultipleIsFar(q - q', d);
    MultipleIsFar(q' - q, d);
  }

  lemma MultipleIsFar(k: int, d: nat)
    requires d > 0
    ensures k > 0 ==> k * d >= d
  {
    if k > 0 {
      assert k * d == (k - 1) * d + d;
    }
  }

  function ByteOrZero(block: seq<Byte>, i: nat): Byte {
    if i < |block| then block[i] else 0
  }

  // Word `i` of a block continued with zeros.
  function BlockWord(block: seq<Byte>, i: nat): bv64 {
    Word64(EightBytes(block, i))
  }

  function EightBytes(block: seq<Byte>, i: nat): (s: seq<Byte>)
    ensures |s| == 8
    ensures forall k :: 0 <= k < 8 ==> s[k] == ByteOrZero(block, 8 * i + k)
  {
    seq(8, k requires 0 <= k < 8 => ByteOrZero(block, 8 * i + k))
  }

  // Adding a whole block to the state.
  function Absorb(s: State, block: seq<Byte>): State {
    seq(25, i requires 0 <= i < 25 => Xor64(s[i], BlockWord(block, i)))
  }

  // Adding only the first `n` words of it, as the code does with rsizw.
  function AbsorbWords(s: State, block: seq<Byte>, n: nat): State {
    seq(25, i requires 0 <= i < 25 => if i < n then Xor64(s[i], BlockWord(block, i)) else s[i])
  }

  function Sponge(s: State, p: seq<Byte>, rate: nat): State
    requires rate > 0
    decreases |p|
  {
    if |p| < rate then s
    else Sponge(KeccakF(Absorb(s, p[..rate])), p[rate..], rate)
  }

  // The sponge of the code, which takes `rate / 8` words of every block.
  function WordSponge(s: State, p: seq<Byte>, rate: nat): State
    requires rate > 0
    decreases |p|
  {
    if |p| < rate then s
    else WordSponge(KeccakF(AbsorbWords(s, p[..rate], rate / 8)), p[rate..], rate)
  }

  lemma DropBlock(n: nat, rate: nat)
    requires 0 < rate <= n
    ensures (n - rate) % rate == n % rate
  {
    AddModulus(n - rate, rate);
  }

  lemma WordOfZeros(block: seq<Byte>, i: nat)
    requires |block| <= 8 * i
    ensures BlockWord(block, i) == 0
  {
    hide ByteAt, Word64;
    forall k | 0 <= k < 8
      ensures EightBytes(block, i)[k] == Bytes64(0)[k]
    {
      ZeroBytes(k);
    }
    assert EightBytes(block, i) == Bytes64(0);
    WordOfBytes(0);
  }

  lemma Xor64Zero(x: bv64, y: bv64)
    ensures Xor64(x, y) == x <==> y == 0
  {
  }

  // Taking whole words absorbs all of a padded block exactly when the rate is a multiple of 8.
  lemma AbsorbsWholeBlock(s: State, block: seq<Byte>)
    requires 0 < |block| <= 200 && block[|block| - 1] != 0
    ensures AbsorbWords(s, block, |block| / 8) == Absorb(s, block) <==> |block| % 8 == 0
  {
    hide Xor64, BlockWord;
    var n := |block| / 8;
    if |block| % 8 == 0 {
      AbsorbsWords(s, block);
    } else {
      LastWordNonzero(block);
      Xor64Zero(s[n], BlockWord(block, n));
      assert AbsorbWords(s, block, n)[n] != Absorb(s, block)[n];
    }
  }

  lemma AbsorbsWords(s: State, block: seq<Byte>)
    requires |block| <= 200 && |block| % 8 == 0
    ensures AbsorbWords(s, block, |block| / 8) == Absorb(s, block)
  {
    hide Xor64, BlockWord;
    forall i | 0 <= i < 25
      ensures AbsorbWords(s, block, |block| / 8)[i] == Absorb(s, block)[i]
    {
      if i >= |block| / 8 {
        WordOfZeros(block, i);
        Xor64Zero(s[i], BlockWord(block, i));
      }
    }
  }

  lemma LastWordNonzero(block: seq<Byte>)
    requires |block| > 0 && |block| % 8 != 0 && block[|block| - 1] != 0
    ensures BlockWord(block, |block| / 8) != 0
  {
    hide Word64, ByteAt;
    var i := |block| / 8;
    var k := |block| - 1 - 8 * i;
    BytesOfWord(EightBytes(block, i));
    assert EightBytes(block, i)[k] == block[|block| - 1];
    ZeroBytes(k);
  }

  lemma ZeroBytes(k: nat)
    requires k < 8
    ensures Bytes64(0)[k] == 0
  {
  }

  lemma {:induction false} WordSpongeIsSponge(s: State, p: seq<Byte>, rate: nat)
    requires 0 < rate <= 200 && rate % 8 == 0
    ensures WordSponge(s, p, rate) == Sponge(s, p, rate)
    decreases |p|
  {
    hide Absorb, AbsorbWords, KeccakF;
    if |p| >= rate {
      AbsorbsWords(s, p[..rate]);
      WordSpongeIsSponge(KeccakF(Absorb(s, p[..rate])), p[rate..], rate);
    }
  }

  // ----- keccak -----

  function ZeroState(): State {
    seq(25, i requires 0 <= i < 25 => 0)
  }

  function StateBytes(s: State): (b: seq<Byte>)
    ensures |b| == 200
  {
    seq(200, i requires 0 <= i < 200 => Bytes64(s[i / 8])[i % 8])
  }

  // The calls that end in local_abort.
  predicate Aborts(mdlen: int) {
    mdlen <= 0 || (mdlen > 100 && mdlen != 200) || Rate(mdlen) + 1 >= 144
  }

  function Digest(input: seq<Byte>, mdlen: int): Option<seq<Byte>>
    requires mdlen != 100
  {
    if Aborts(mdlen) then None
    else Some(StateBytes(WordSponge(ZeroState(), PaddedMessage(input, Rate(mdlen)), Rate(mdlen)))[..mdlen])
  }

  // For a rate of whole words the digest is that of the standard sponge.
  lemma DigestIsSponge(input: seq<Byte>, mdlen: int)
    requires mdlen == 200 || (mdlen % 4 == 0 && 32 <= mdlen <= 96)
    ensures Digest(input, mdlen)
         == Some(StateBytes(Sponge(ZeroState(), PaddedMessage(input, Rate(mdlen)), Rate(mdlen)))[..mdlen])
  {
    hide PaddedMessage, StateBytes;
    WordSpongeIsSponge(ZeroState(), PaddedMessage(input, Rate(mdlen)), Rate(mdlen));
  }

  // ----- the output lengths whose rate is not a multiple of 8 -----

  lemma PadEnds(n: nat)
    requires n > 0
    ensures PadBytes(n)[n - 1] != 0
  {
  }

  lemma Remainder(n: nat, rate: nat)
    requires rate > 0
    ensures 0 <= n % rate < rate && n % rate <= n
  {
  }

  // The last block of a padded message.
  function LastPadded(input: seq<Byte>, rate: nat): (block: seq<Byte>)
    requires rate > 0
    ensures |block| == rate && block[rate - 1] != 0
  {
    hide PadBytes;
    Remainder(|input|, rate);
    PadEnds(rate - |input| % rate);
    var p := PaddedMessage(input, rate);
    p[|p| - rate..]
  }

  lemma WholeWordRate(mdlen: nat)
    requires 29 <= mdlen <= 99
    ensures 2 <= Rate(mdlen) < 144
    ensures Rate(mdlen) % 8 == 0 <==> mdlen % 4 == 0
  {
  }

  // The last block of every padded message is taken in entirely exactly when mdlen is a multiple of 4.
  lemma LastBlockAbsorbed(s: State, input: seq<Byte>, mdlen: nat)
    requires 29 <= mdlen <= 99
    ensures Rate(mdlen) > 0
    ensures AbsorbWords(s, LastPadded(input, Rate(mdlen)), Rate(mdlen) / 8) == Absorb(s, LastPadded(input, Rate(mdlen)))
       <==> mdlen % 4 == 0
  {
    hide *;
    WholeWordRate(mdlen);
    AbsorbsWholeBlock(s, LastPadded(input, Rate(mdlen)));
  }

  // The bytes of a block that lie in its whole words.
  predicate Taken(i: nat, rate: nat)
    requires rate > 0
  {
    i % rate < rate / 8 * 8
  }

  lemma SameWords(s: State, b: seq<Byte>, c: seq<Byte>, n: nat)
    requires |b| == |c| && 8 * n <= |b|
    requires forall i :: 0 <= i < 8 * n ==> b[i] == c[i]
    ensures AbsorbWords(s, b, n) == AbsorbWords(s, c, n)
  {
    hide Xor64, Word64;
    forall i | 0 <= i < n
      ensures BlockWord(b, i) == BlockWord(c, i)
    {
      assert EightBytes(b, i) == EightBytes(c, i);
    }
  }

  // The sponge of the code does not see the other bytes.
  lemma {:induction false} OtherBytesUnseen(s: State, p: seq<Byte>, q: seq<Byte>, rate: nat)
    requires rate > 0 && |p| == |q|
    requires forall i :: 0 <= i < |p| && Taken(i, rate) ==> p[i] == q[i]
    ensures WordSponge(s, p, rate) == WordSponge(s, q, rate)
    decreases |p|
  {
    hide KeccakF, AbsorbWords;
    if |p| >= rate {
      forall i | 0 <= i < rate / 8 * 8
        ensures p[i] == q[i]
      {
        SmallMod(i, rate);
        assert Taken(i, rate);
      }
      SameWords(s, p[..rate], q[..rate], rate / 8);
      forall i | 0 <= i < |p| - rate && Taken(i, rate)
        ensures p[rate..][i] == q[rate..][i]
      {
        AddModulus(i, rate);
        assert Taken(i + rate, rate);
      }
      OtherBytesUnseen(KeccakF(AbsorbWords(s, p[..rate], rate / 8)), p[rate..], q[rate..], rate);
    }
  }

  // Messages that differ only in bytes outside the whole words of their blocks have the same digest.
  lemma LostBytes(m: seq<Byte>, other: seq<Byte>, mdlen: nat)
    requires 29 <= mdlen <= 99 && |m| == |other|
    requires forall i :: 0 <= i < |m| && Taken(i, Rate(mdlen)) ==> m[i] == other[i]
    ensures Digest(m, mdlen) == Digest(other, mdlen)
  {
    hide WordSponge, StateBytes, PadBytes, Taken;
    var rate := Rate(mdlen);
    forall i | 0 <= i < |PaddedMessage(m, rate)| && Taken(i, rate)
      ensures PaddedMessage(m, rate)[i] == PaddedMessage(other, rate)[i]
    {
    }
    OtherBytesUnseen(ZeroState(), PaddedMessage(m, rate), PaddedMessage(other, rate), rate);
  }

  // With 97 to 99 output bytes a block is shorter than a word: only the number of blocks counts.
  lemma NothingTaken(m: seq<Byte>, other: seq<Byte>, mdlen: nat)
    requires 97 <= mdlen <= 99 && |m| / Rate(mdlen) == |other| / Rate(mdlen)
    ensures Digest(m, mdlen) == Digest(other, mdlen)
  {
    hide WordSponge, StateBytes, PadBytes;
    var rate := Rate(mdlen);
    OtherBytesUnseen(ZeroState(), PaddedMessage(m, rate), PaddedMessage(other, rate), rate);
  }

  // For instance, the empty message and every message of one byte.
  lemma EmptyAndByteCollide(b: Byte)
    ensures Digest([], 99) == Digest([b], 99) && Digest([b], 99).Some?
  {
    hide WordSponge, StateBytes, PaddedMessage;
    NothingTaken([], [b], 99);
  }

  method XorWords(st: array<bv64>, block: seq<Byte>, n: nat)
    requires st.Length == 25 && 8 * n <= |block| && n <= 25
    modifies st
    ensures st[..] == AbsorbWords(old(st[..]), block, n)
  {
    hide Xor64, Word64;
    for i := 0 to n
      invariant forall k :: 0 <= k < 25 ==>
        st[k] == if k < i then Xor64(old(st[..])[k], BlockWord(block, k)) else old(st[..])[k]
    {
      assert block[8 * i..8 * i + 8] == EightBytes(block, i);
      st[i] := Xor64(st[i], Word64(block[8 * i..8 * i + 8]));
    }
  }

  // The last block: what is left of the input, a one, zeros, and the top bit of the last byte.
  method LastBlock(rest: seq<Byte>, rsiz: nat) returns (block: seq<Byte>)
    requires |rest| < rsiz < 144
    ensures block == rest + PadBytes(rsiz - |rest|)
  {
    var temp := new Byte[144];
    for i := 0 to |rest|
      invariant forall k :: 0 <= k < i ==> temp[k] == rest[k]
    {
      temp[i] := rest[i];
    }
    temp[|rest|] := 1;
    for i := |rest| + 1 to rsiz
      invariant forall k :: 0 <= k < |rest| ==> temp[k] == rest[k]
      invariant temp[|rest|] == 1
      invariant forall k :: |rest| < k < i ==> temp[k] == 0
    {
      temp[i] := 0;
    }
    temp[rsiz - 1] := temp[rsiz - 1] | 0x80;
    block := temp[..rsiz];
  }

  method Keccak(input: seq<Byte>, mdlen: int) returns (md: Option<seq<Byte>>)
    requires mdlen != 100
    ensures md == Digest(input, mdlen)
  {
    hide KeccakF, AbsorbWords, PadBytes, StateBytes;
    if mdlen <= 0 || (mdlen > 100 && 200 != mdlen) {
      return None;
    }
    var rsiz := if 200 == mdlen then 136 else 200 - 2 * mdlen;
    var rsizw := rsiz / 8;
    var st := new bv64[25](i => 0);
    assert st[..] == ZeroState();
    var off, inlen := 0, |input|;
    ghost var padded := PaddedMessage(input, rsiz);
    while inlen >= rsiz
      invariant off + inlen == |input| && 0 <= inlen
      invariant inlen % rsiz == |input| % rsiz
      invariant WordSponge(st[..], padded[off..], rsiz) == WordSponge(ZeroState(), padded, rsiz)
      decreases inlen
    {
      DropBlock(inlen, rsiz);
      BlockOfInput(input, padded, off, rsiz);
      XorWords(st, input[off..off + rsiz], rsizw);
      KeccakFInPlace(st);
      inlen := inlen - rsiz;
      off := off + rsiz;
    }
    if inlen + 1 >= 144 || inlen > rsiz || rsiz - inlen + inlen + 1 >= 144 || rsiz == 0 || rsiz - 1 >= 144 ||
        rsizw * 8 > 144 {
      return None;
    }
    var block := LastBlock(input[off..], rsiz);
    SmallMod(inlen, rsiz);
    assert padded[off..] == block;
    XorWords(st, block, rsizw);
    KeccakFInPlace(st);
    FinalBlock(block, rsiz);
    md := Some(StateBytes(st[..])[..mdlen]);
  }

  lemma SmallMod(n: nat, d: nat)
    requires n < d
    ensures n % d == n
  {
  }

  lemma BlockOfInput(input: seq<Byte>, padded: seq<Byte>, off: nat, rate: nat)
    requires |padded| >= |input| && padded[..|input|] == input && off + rate <= |input|
    ensures padded[off..][..rate] == input[off..off + rate] && padded[off..][rate..] == padded[off + rate..]
  {
    assert padded[off..][..rate] == padded[..|input|][off..off + rate];
  }

  lemma FinalBlock(block: seq<Byte>, rate: nat)
    requires |block| == rate > 0
    ensures forall s: State {:trigger AbsorbWords(s, block, rate / 8)} ::
      WordSponge(s, block, rate) == KeccakF(AbsorbWords(s, block, rate / 8))
  {
    hide KeccakF, AbsorbWords;
    assert block[..rate] == block && block[rate..] == [];
  }
}
