/**
 The bit-sliced permutation of JH (jh.c). Each bit position of four words holds one 4-bit cell;
 the S-box layer is compared with the two S-box tables of the JH specification, cell by cell,
 and the whole of E8, hence F8 with a fixed message block, is shown to be invertible.
 */
module Jh {
  import opened Words
  import opened JhTable

  // ----- single bits of words -----

  function And64(x: bv64, y: bv64): bv64 {
    x & y
  }

  function Or64(x: bv64, y: bv64): bv64 {
    x | y
  }

  function Not64(x: bv64): bv64 {
    !x
  }

  // Rotation by one bit position, towards the least significant end.
  function Next(x: bv64): bv64 {
    (x >> 1) | (x << 63)
  }

  // The bit at position `p`.
  predicate At(x: bv64, p: nat)
    decreases p
  {
    if p == 0 then Odd(x) else At(Next(x), p - 1)
  }

  lemma XorNext(x: bv64, y: bv64)
    ensures Next(Xor64(x, y)) == Xor64(Next(x), Next(y))
    ensures Odd(Xor64(x, y)) == (Odd(x) != Odd(y))
  {
  }

  lemma {:induction false} XorAt(x: bv64, y: bv64, p: nat)
    ensures At(Xor64(x, y), p) == (At(x, p) != At(y, p))
    decreases p
  {
    hide Xor64, Next, Odd;
    XorNext(x, y);
    if p > 0 {
      XorAt(Next(x), Next(y), p - 1);
    }
  }

  lemma AndNext(x: bv64, y: bv64)
    ensures Next(And64(x, y)) == And64(Next(x), Next(y))
    ensures Odd(And64(x, y)) == (Odd(x) && Odd(y))
  {
  }

  lemma {:induction false} AndAt(x: bv64, y: bv64, p: nat)
    ensures At(And64(x, y), p) == (At(x, p) && At(y, p))
    decreases p
  {
    hide And64, Next, Odd;
    AndNext(x, y);
    if p > 0 {
      AndAt(Next(x), Next(y), p - 1);
    }
  }

  lemma OrNext(x: bv64, y: bv64)
    ensures Next(Or64(x, y)) == Or64(Next(x), Next(y))
    ensures Odd(Or64(x, y)) == (Odd(x) || Odd(y))
  {
  }

  lemma {:induction false} OrAt(x: bv64, y: bv64, p: nat)
    ensures At(Or64(x, y), p) == (At(x, p) || At(y, p))
    decreases p
  {
    hide Or64, Next, Odd;
    OrNext(x, y);
    if p > 0 {
      OrAt(Next(x), Next(y), p - 1);
    }
  }

  lemma NotNext(x: bv64)
    ensures Next(Not64(x)) == Not64(Next(x))
    ensures Odd(Not64(x)) == !Odd(x)
  {
  }

  lemma {:induction false} NotAt(x: bv64, p: nat)
    ensures At(Not64(x), p) == !At(x, p)
    decreases p
  {
    hide Not64, Next, Odd;
    NotNext(x);
    if p > 0 {
      NotAt(Next(x), p - 1);
    }
  }

  lemma {:induction false} ZeroAt(p: nat)
    ensures !At(0, p)
  {
    assert Next(0) == 0;
    if p > 0 {
      ZeroAt(p - 1);
    }
  }

  function PowerOf2(n: nat): (r: nat)
    ensures r > 0
  {
    if n == 0 then 1 else 2 * PowerOf2(n - 1)
  }

  lemma EvenNext(d: bv64)
    ensures !Odd(d) ==> Next(d) == Half(d) && LowBit(d) == 0
  {
  }

  lemma HalfOfEven(d: bv64)
    requires !Odd(d)
    ensures Nat(d) == 2 * Nat(Next(d))
  {
    hide Nat, Odd, LowBit, Next, Half;
    EvenNext(d);
    NatStep(d);
  }

  // A word whose lowest `n` bits are clear is a multiple of 2^n.
  lemma {:induction false} ClearBits(d: bv64, n: nat)
    requires forall p :: 0 <= p < n ==> !At(d, p)
    ensures Nat(d) == 0 || Nat(d) >= PowerOf2(n)
    decreases n
  {
    hide Nat, Odd, Next;
    if n > 0 {
      assert !At(d, 0);
      HalfOfEven(d);
      forall p | 0 <= p < n - 1
        ensures !At(Next(d), p)
      {
        assert !At(d, p + 1);
      }
      ClearBits(Next(d), n - 1);
    } else {
      NatPositive(d);
    }
  }

  lemma EightDoublings(n: nat)
    ensures PowerOf2(n + 8) == 256 * PowerOf2(n)
  {
    assert PowerOf2(n + 4) == 16 * PowerOf2(n) by {
      assert PowerOf2(n + 2) == 4 * PowerOf2(n);
    }
    assert PowerOf2(n + 6) == 4 * PowerOf2(n + 4);
  }

  lemma TwoTo64()
    ensures PowerOf2(64) == TWO64
  {
    EightDoublings(0);
    EightDoublings(8);
    EightDoublings(16);
    EightDoublings(24);
    EightDoublings(32);
    EightDoublings(40);
    EightDoublings(48);
    EightDoublings(56);
  }

  lemma DifferWhereXor(x: bv64, y: bv64)
    ensures Xor64(x, y) == 0 ==> x == y
  {
  }

  // Words are equal when they agree at all 64 positions.
  lemma SameBits(x: bv64, y: bv64)
    requires forall p :: 0 <= p < 64 ==> At(x, p) == At(y, p)
    ensures x == y
  {
    hide *;
    var d := Xor64(x, y);
    forall p | 0 <= p < 64
      ensures !At(d, p)
    {
      XorAt(x, y, p);
    }
    ClearBits(d, 64);
    TwoTo64();
    NatBound(d);
    NatPositive(d);
    DifferWhereXor(x, y);
  }

  // ----- the S-boxes -----

  // Four words; a cell is one bit of each, the first word giving the most significant bit.
  datatype Quad = Quad(a: bv64, b: bv64, c: bv64, d: bv64)

  function Nibble(a: bool, b: bool, c: bool, d: bool): (n: nat)
    ensures n < 16
  {
    (if a then 8 else 0) + (if b then 4 else 0) + (if c then 2 else 0) + (if d then 1 else 0)
  }

  function Cell(q: Quad, p: nat): (n: nat)
    ensures n < 16
  {
    Nibble(At(q.a, p), At(q.b, p), At(q.c, p), At(q.d, p))
  }

  function Pick4(n: nat, a: nat, b: nat, c: nat, d: nat): nat {
    if n == 0 then a else if n == 1 then b else if n == 2 then c else d
  }

  // S0 and S1 of the JH specification.
  function S0(n: nat): nat {
    if n < 4 then Pick4(n, 9, 0, 4, 11)
    else if n < 8 then Pick4(n - 4, 13, 12, 3, 15)
    else if n < 12 then Pick4(n - 8, 1, 10, 2, 6)
    else Pick4(n - 12, 7, 5, 8, 14)
  }

  function S1(n: nat): nat {
    if n < 4 then Pick4(n, 3, 12, 6, 13)
    else if n < 8 then Pick4(n - 4, 5, 7, 1, 9)
    else if n < 12 then Pick4(n - 8, 15, 2, 0, 4)
    else Pick4(n - 12, 11, 10, 14, 8)
  }

  function Sbox(c: bool, n: nat): nat {
    if c then S1(n) else S0(n)
  }

  function InvS0(n: nat): nat {
    if n < 4 then Pick4(n, 1, 8, 10, 6)
    else if n < 8 then Pick4(n - 4, 2, 13, 11, 12)
    else if n < 12 then Pick4(n - 8, 14, 0, 9, 3)
    else Pick4(n - 12, 5, 4, 15, 7)
  }

  function InvS1(n: nat): nat {
    if n < 4 then Pick4(n, 10, 6, 9, 0)
    else if n < 8 then Pick4(n - 4, 11, 4, 2, 5)
    else if n < 12 then Pick4(n - 8, 15, 7, 13, 12)
    else Pick4(n - 12, 1, 3, 14, 8)
  }

  function InvSbox(c: bool, n: nat): nat {
    if c then InvS1(n) else InvS0(n)
  }

  lemma SboxUndone(c: bool, n: nat)
    requires n < 16
    ensures Sbox(c, n) < 16 && InvSbox(c, n) < 16
    ensures InvSbox(c, Sbox(c, n)) == n && Sbox(c, InvSbox(c, n)) == n
  {
  }

  // ----- the macro SS, one of its two S-boxes -----

  // The words of the macro with its temporary.
  datatype Mid = Mid(a: bv64, b: bv64, c: bv64, d: bv64, t: bv64)

  // y ^= (u & v)
  function Fold(y: bv64, u: bv64, v: bv64): bv64 {
    Xor64(y, And64(u, v))
  }

  // Its first six lines,
  function SsFirst(q: Quad, k: bv64): Mid {
    Mid(Fold(Fold(q.a, Not64(q.c), k), q.c, Not64(q.d)), q.b, q.c, Fold(Not64(q.d), Not64(q.b), q.c),
        Fold(k, Fold(q.a, Not64(q.c), k), q.b))
  }

  // the next two,
  function SsSecond(m: Mid): Mid {
    m.(b := Fold(m.b, m.a, m.c), c := Fold(m.c, m.a, Not64(m.d)))
  }

  // and the last four.
  function SsThird(m: Mid): Quad {
    var a2 := Xor64(m.a, Or64(m.b, m.d));
    Quad(a2, Fold(m.b, m.t, a2), Xor64(m.c, m.t), Fold(m.d, m.b, m.c))
  }

  function Ss(q: Quad, k: bv64): Quad {
    SsThird(SsSecond(SsFirst(q, k)))
  }

  // One cell: a bit of each word.
  datatype Bits = Bits(a: bool, b: bool, c: bool, d: bool)

  function BitsAt(q: Quad, p: nat): Bits {
    Bits(At(q.a, p), At(q.b, p), At(q.c, p), At(q.d, p))
  }

  datatype MidBits = MidBits(a: bool, b: bool, c: bool, d: bool, t: bool)

  function MidAt(m: Mid, p: nat): MidBits {
    MidBits(At(m.a, p), At(m.b, p), At(m.c, p), At(m.d, p), At(m.t, p))
  }

  // The same steps on bits.
  function FirstBits(q: Bits, k: bool): MidBits {
    var a0 := q.a != (!q.c && k);
    MidBits(a0 != (q.c && !q.d), q.b, q.c, !q.d != (!q.b && q.c), k != (a0 && q.b))
  }

  function SecondBits(m: MidBits): MidBits {
    m.(b := m.b != (m.a && m.c), c := m.c != (m.a && !m.d))
  }

  function ThirdBits(m: MidBits): Bits {
    var a2 := m.a != (m.b || m.d);
    Bits(a2, m.b != (m.t && a2), m.c != m.t, m.d != (m.b && m.c))
  }

  function SsBits(q: Bits, k: bool): Bits {
    ThirdBits(SecondBits(FirstBits(q, k)))
  }

  lemma SsBitsIsSbox(q: Bits, k: bool)
    ensures var r := SsBits(q, k);
            Nibble(r.a, r.b, r.c, r.d) == Sbox(k, Nibble(q.a, q.b, q.c, q.d))
  {
  }

  lemma FoldAt(y: bv64, u: bv64, v: bv64, p: nat)
    ensures At(Fold(y, u, v), p) == (At(y, p) != (At(u, p) && At(v, p)))
  {
    hide At, And64, Xor64;
    AndAt(u, v, p);
    XorAt(y, And64(u, v), p);
  }

  lemma FirstAAt(a: bv64, c: bv64, d: bv64, k: bv64, p: nat)
    ensures At(Fold(Fold(a, Not64(c), k), c, Not64(d)), p)
         == ((At(a, p) != (!At(c, p) && At(k, p))) != (At(c, p) && !At(d, p)))
  {
    hide *;
    NotAt(d, p);
    NotAt(c, p);
    FoldAt(a, Not64(c), k, p);
    FoldAt(Fold(a, Not64(c), k), c, Not64(d), p);
  }

  lemma FirstDAt(b: bv64, c: bv64, d: bv64, p: nat)
    ensures At(Fold(Not64(d), Not64(b), c), p) == (!At(d, p) != (!At(b, p) && At(c, p)))
  {
    hide *;
    NotAt(d, p);
    NotAt(b, p);
    FoldAt(Not64(d), Not64(b), c, p);
  }

  lemma FirstTAt(a: bv64, b: bv64, c: bv64, k: bv64, p: nat)
    ensures At(Fold(k, Fold(a, Not64(c), k), b), p)
         == (At(k, p) != ((At(a, p) != (!At(c, p) && At(k, p))) && At(b, p)))
  {
    hide *;
    NotAt(c, p);
    FoldAt(a, Not64(c), k, p);
    FoldAt(k, Fold(a, Not64(c), k), b, p);
  }

  lemma SsFirstAt(q: Quad, k: bv64, p: nat)
    ensures MidAt(SsFirst(q, k), p) == FirstBits(BitsAt(q, p), At(k, p))
  {
    hide At, Fold, Not64;
    FirstAAt(q.a, q.c, q.d, k, p);
    FirstDAt(q.b, q.c, q.d, p);
    FirstTAt(q.a, q.b, q.c, k, p);
  }

  lemma SsSecondAt(m: Mid, p: nat)
    ensures MidAt(SsSecond(m), p) == SecondBits(MidAt(m, p))
  {
    hide At, Fold, Not64;
    NotAt(m.d, p);
    FoldAt(m.b, m.a, m.c, p);
    FoldAt(m.c, m.a, Not64(m.d), p);
  }

  lemma ThirdAAt(a: bv64, b: bv64, d: bv64, p: nat)
    ensures At(Xor64(a, Or64(b, d)), p) == (At(a, p) != (At(b, p) || At(d, p)))
  {
    hide *;
    OrAt(b, d, p);
    XorAt(a, Or64(b, d), p);
  }

  lemma SsThirdAt(m: Mid, p: nat)
    ensures BitsAt(SsThird(m), p) == ThirdBits(MidAt(m, p))
  {
    hide At, Xor64, Or64, Fold;
    ThirdAAt(m.a, m.b, m.d, p);
    FoldAt(m.b, m.t, Xor64(m.a, Or64(m.b, m.d)), p);
    XorAt(m.c, m.t, p);
    FoldAt(m.d, m.b, m.c, p);
  }

  lemma SsAt(q: Quad, k: bv64, p: nat)
    ensures BitsAt(Ss(q, k), p) == SsBits(BitsAt(q, p), At(k, p))
  {
    hide BitsAt, MidAt, SsFirst, SsSecond, SsThird, FirstBits, SecondBits, ThirdBits;
    SsFirstAt(q, k, p);
    SsSecondAt(SsFirst(q, k), p);
    SsThirdAt(SsSecond(SsFirst(q, k)), p);
  }

  // Bit slicing: at every position SS applies the S-box that the constant's bit selects.
  lemma SsIsSbox(q: Quad, k: bv64, p: nat)
    ensures Cell(Ss(q, k), p) == Sbox(At(k, p), Cell(q, p))
  {
    hide At, Ss, SsBits, Nibble, Sbox;
    SsAt(q, k, p);
    SsBitsIsSbox(BitsAt(q, p), At(k, p));
  }

  // ----- the inverse of SS, written as a sum of its sixteen cases -----

  function BitsOf(n: nat): Bits {
    Bits(n >= 8, n % 8 >= 4, n % 4 >= 2, n % 2 == 1)
  }

  lemma BitsOfNibble(n: nat, q: Bits)
    requires n < 16
    ensures q == BitsOf(n) <==> Nibble(q.a, q.b, q.c, q.d) == n
  {
  }

  function Literal(w: bv64, b: bool): bv64 {
    if b then w else Not64(w)
  }

  // The positions whose cell is `n`.
  function Minterm(y: Quad, n: nat): bv64 {
    And64(And64(Literal(y.a, BitsOf(n).a), Literal(y.b, BitsOf(n).b)),
          And64(Literal(y.c, BitsOf(n).c), Literal(y.d, BitsOf(n).d)))
  }

  // `s1` where the constant has a one, `s0` elsewhere.
  function Choose(k: bv64, s1: bool, s0: bool): bv64 {
    if s1 then if s0 then Not64(0) else k
    else if s0 then Not64(k) else 0
  }

  function BitNumber(q: Bits, i: nat): bool {
    if i == 0 then q.a else if i == 1 then q.b else if i == 2 then q.c else q.d
  }

  // Bit `i` of the inverse S-boxes, over the cells below `n`.
  function InverseBit(y: Quad, k: bv64, i: nat, n: nat): bv64
    decreases n, i
  {
    if n == 0 then 0
    else Or64(InverseBit(y, k, i, n - 1),
              And64(Minterm(y, n - 1),
                  Choose(k, BitNumber(BitsOf(InvS1(n - 1)), i), BitNumber(BitsOf(InvS0(n - 1)), i))))
  }

  function InvSs(y: Quad, k: bv64): Quad {
    Quad(InverseBit(y, k, 0, 16), InverseBit(y, k, 1, 16), InverseBit(y, k, 2, 16), InverseBit(y, k, 3, 16))
  }

  lemma LiteralAt(w: bv64, b: bool, p: nat)
    ensures At(Literal(w, b), p) == (At(w, p) == b)
  {
    hide At, Not64;
    NotAt(w, p);
  }

  lemma BothAt(u: bv64, v: bv64, b: bool, c: bool, p: nat)
    ensures At(And64(Literal(u, b), Literal(v, c)), p) == (At(u, p) == b && At(v, p) == c)
  {
    hide *;
    LiteralAt(u, b, p);
    LiteralAt(v, c, p);
    AndAt(Literal(u, b), Literal(v, c), p);
  }

  lemma MintermAt(y: Quad, n: nat, p: nat)
    ensures At(Minterm(y, n), p) == (BitsAt(y, p) == BitsOf(n))
  {
    hide At, And64, Literal;
    var b := BitsOf(n);
    BothAt(y.a, y.b, b.a, b.b, p);
    BothAt(y.c, y.d, b.c, b.d, p);
    AndAt(And64(Literal(y.a, b.a), Literal(y.b, b.b)), And64(Literal(y.c, b.c), Literal(y.d, b.d)), p);
  }

  lemma ChooseAt(k: bv64, s1: bool, s0: bool, p: nat)
    ensures At(Choose(k, s1, s0), p) == if At(k, p) then s1 else s0
  {
    hide At, Not64;
    NotAt(k, p);
    NotAt(0, p);
    ZeroAt(p);
  }

  lemma {:induction false} InverseBitAt(y: Quad, k: bv64, i: nat, n: nat, p: nat)
    requires n <= 16
    ensures At(InverseBit(y, k, i, n), p)
         == (Cell(y, p) < n && BitNumber(BitsOf(InvSbox(At(k, p), Cell(y, p))), i))
    decreases n
  {
    hide At, Or64, And64, Minterm, Choose, Nibble, BitsOf, InvS0, InvS1, BitNumber;
    if n == 0 {
      ZeroAt(p);
    } else {
      var s1, s0 := BitNumber(BitsOf(InvS1(n - 1)), i), BitNumber(BitsOf(InvS0(n - 1)), i);
      var term, sel := Minterm(y, n - 1), Choose(k, s1, s0);
      InverseBitAt(y, k, i, n - 1, p);
      MintermAt(y, n - 1, p);
      BitsOfNibble(n - 1, BitsAt(y, p));
      ChooseAt(k, s1, s0, p);
      AndAt(term, sel, p);
      OrAt(InverseBit(y, k, i, n - 1), And64(term, sel), p);
    }
  }

  lemma InvSsIsInvSbox(y: Quad, k: bv64, p: nat)
    ensures BitsAt(InvSs(y, k), p) == BitsOf(InvSbox(At(k, p), Cell(y, p)))
    ensures Cell(InvSs(y, k), p) == InvSbox(At(k, p), Cell(y, p))
  {
    hide At, InverseBit, Nibble, BitsOf, InvSbox;
    InverseBitAt(y, k, 0, 16, p);
    InverseBitAt(y, k, 1, 16, p);
    InverseBitAt(y, k, 2, 16, p);
    InverseBitAt(y, k, 3, 16, p);
    SboxUndone(At(k, p), Cell(y, p));
    BitsOfNibble(InvSbox(At(k, p), Cell(y, p)), BitsAt(InvSs(y, k), p));
  }

  // Quads are equal when they agree in every cell.
  lemma SameCells(q: Quad, r: Quad)
    requires forall p :: 0 <= p < 64 ==> Cell(q, p) == Cell(r, p)
    ensures q == r
  {
    hide At;
    forall p | 0 <= p < 64
      ensures At(q.a, p) == At(r.a, p) && At(q.b, p) == At(r.b, p) && At(q.c, p) == At(r.c, p) &&
          At(q.d, p) == At(r.d, p)
    {
      assert Cell(q, p) == Cell(r, p);
    }
    SameBits(q.a, r.a);
    SameBits(q.b, r.b);
    SameBits(q.c, r.c);
    SameBits(q.d, r.d);
  }

  // For any constant the S-box layer is invertible.
  lemma SsUndone(q: Quad, k: bv64)
    ensures InvSs(Ss(q, k), k) == q
    ensures Ss(InvSs(q, k), k) == q
  {
    hide *;
    forall p | 0 <= p < 64
      ensures Cell(InvSs(Ss(q, k), k), p) == Cell(q, p) && Cell(Ss(InvSs(q, k), k), p) == Cell(q, p)
    {
      SsIsSbox(q, k, p);
      InvSsIsInvSbox(Ss(q, k), k, p);
      InvSsIsInvSbox(q, k, p);
      SsIsSbox(InvSs(q, k), k, p);
      SboxUndone(At(k, p), Cell(q, p));
    }
    SameCells(InvSs(Ss(q, k), k), q);
    SameCells(Ss(InvSs(q, k), k), q);
  }

  // ----- the linear layer L and the swaps -----

  // A column of the state: its even rows 0, 2, 4, 6 and its odd rows 1, 3, 5, 7.
  datatype Col = Col(e: Quad, o: Quad)

  function Mds(c: Col): Col {
    var m4 := Xor64(c.o.a, c.e.b);
    var m5 := Xor64(c.o.b, c.e.c);
    var m6 := Xor64(c.o.c, Xor64(c.e.a, c.e.d));
    var m7 := Xor64(c.o.d, c.e.a);
    Col(Quad(Xor64(c.e.a, m5), Xor64(c.e.b, m6), Xor64(c.e.c, Xor64(m4, m7)), Xor64(c.e.d, m4)), Quad(m4, m5, m6, m7))
  }

  function InvMds(c: Col): Col {
    var m0 := Xor64(c.e.a, c.o.b);
    var m1 := Xor64(c.e.b, c.o.c);
    var m2 := Xor64(c.e.c, Xor64(c.o.a, c.o.d));
    var m3 := Xor64(c.e.d, c.o.a);
    Col(Quad(m0, m1, m2, m3),
        Quad(Xor64(c.o.a, m1), Xor64(c.o.b, m2), Xor64(c.o.c, Xor64(m0, m3)), Xor64(c.o.d, m0)))
  }

  lemma XorTwice(x: bv64, y: bv64)
    ensures Xor64(Xor64(x, y), y) == x
  {
  }

  lemma MdsUndone(c: Col)
    ensures InvMds(Mds(c)) == c
  {
    hide Xor64;
    var m := Mds(c).o;
    XorTwice(c.e.a, m.b);
    XorTwice(c.e.b, m.c);
    XorTwice(c.e.c, Xor64(m.a, m.d));
    XorTwice(c.e.d, m.a);
    XorTwice(c.o.a, c.e.b);
    XorTwice(c.o.b, c.e.c);
    XorTwice(c.o.c, Xor64(c.e.a, c.e.d));
    XorTwice(c.o.d, c.e.a);
  }

  lemma MdsRedone(c: Col)
    ensures Mds(InvMds(c)) == c
  {
    hide Xor64;
    var m := InvMds(c).e;
    XorTwice(c.o.a, m.b);
    XorTwice(c.o.b, m.c);
    XorTwice(c.o.c, Xor64(m.a, m.d));
    XorTwice(c.o.d, m.a);
    XorTwice(c.e.a, c.o.b);
    XorTwice(c.e.b, c.o.c);
    XorTwice(c.e.c, Xor64(c.o.a, c.o.d));
    XorTwice(c.e.d, c.o.a);
  }

  // The macros SWAP1 to SWAP32; each is its own inverse.

  function Swap1(x: bv64): bv64 {
    ((x & 0x5555_5555_5555_5555) << 1) | ((x & 0xAAAA_AAAA_AAAA_AAAA) >> 1)
  }

  lemma Swap1Twice(x: bv64)
    ensures Swap1(Swap1(x)) == x
  {
  }

  function Swap2(x: bv64): bv64 {
    ((x & 0x3333_3333_3333_3333) << 2) | ((x & 0xCCCC_CCCC_CCCC_CCCC) >> 2)
  }

  lemma Swap2Twice(x: bv64)
    ensures Swap2(Swap2(x)) == x
  {
  }

  function Swap4(x: bv64): bv64 {
    ((x & 0x0F0F_0F0F_0F0F_0F0F) << 4) | ((x & 0xF0F0_F0F0_F0F0_F0F0) >> 4)
  }

  lemma Swap4Twice(x: bv64)
    ensures Swap4(Swap4(x)) == x
  {
  }

  function Swap8(x: bv64): bv64 {
    ((x & 0x00FF_00FF_00FF_00FF) << 8) | ((x & 0xFF00_FF00_FF00_FF00) >> 8)
  }

  lemma Swap8Twice(x: bv64)
    ensures Swap8(Swap8(x)) == x
  {
  }

  function Swap16(x: bv64): bv64 {
    ((x & 0x0000_FFFF_0000_FFFF) << 16) | ((x & 0xFFFF_0000_FFFF_0000) >> 16)
  }

  lemma Swap16Twice(x: bv64)
    ensures Swap16(Swap16(x)) == x
  {
  }

  function Swap32(x: bv64): bv64 {
    (x << 32) | (x >> 32)
  }

  lemma Swap32Twice(x: bv64)
    ensures Swap32(Swap32(x)) == x
  {
  }

  // The swap of round 7k + d.
  function Swap(x: bv64, d: nat): bv64
    requires d < 6
  {
    if d == 0 then Swap1(x)
    else if d == 1 then Swap2(x)
    else if d == 2 then Swap4(x)
    else if d == 3 then Swap8(x)
    else if d == 4 then Swap16(x)
    else Swap32(x)
  }

  lemma SwapTwice(x: bv64, d: nat)
    requires d < 6
    ensures Swap(Swap(x, d), d) == x
  {
    hide Swap1, Swap2, Swap4, Swap8, Swap16, Swap32;
    Swap1Twice(x);
    Swap2Twice(x);
    Swap4Twice(x);
    Swap8Twice(x);
    Swap16Twice(x);
    Swap32Twice(x);
  }

  function SwapQuad(q: Quad, d: nat): Quad
    requires d < 6
  {
    Quad(Swap(q.a, d), Swap(q.b, d), Swap(q.c, d), Swap(q.d, d))
  }

  lemma SwapQuadTwice(q: Quad, d: nat)
    requires d < 6
    ensures SwapQuad(SwapQuad(q, d), d) == q
  {
    hide Swap;
    SwapTwice(q.a, d);
    SwapTwice(q.b, d);
    SwapTwice(q.c, d);
    SwapTwice(q.d, d);
  }

  // ----- E8 -----

  datatype State = State(c0: Col, c1: Col)

  // The S-box and MDS layers of a column.
  function SboxMds(c: Col, k0: bv64, k1: bv64): Col {
    Mds(Col(Ss(c.e, k0), Ss(c.o, k1)))
  }

  function InvSboxMds(c: Col, k0: bv64, k1: bv64): Col {
    var m := InvMds(c);
    Col(InvSs(m.e, k0), InvSs(m.o, k1))
  }

  lemma SboxMdsUndone(c: Col, k0: bv64, k1: bv64)
    ensures InvSboxMds(SboxMds(c, k0, k1), k0, k1) == c
    ensures SboxMds(InvSboxMds(c, k0, k1), k0, k1) == c
  {
    hide Ss, InvSs, Mds, InvMds;
    SsUndone(c.e, k0);
    SsUndone(c.o, k1);
    MdsUndone(Col(Ss(c.e, k0), Ss(c.o, k1)));
    MdsRedone(c);
    SsUndone(InvMds(c).e, k0);
    SsUndone(InvMds(c).o, k1);
  }

  // The swapping layer: bits inside the odd rows, or in the last round of seven the two columns
  // of the odd rows.
  function SwapLayer(s: State, d: nat): State
    requires d < 7
  {
    if d < 6 then State(s.c0.(o := SwapQuad(s.c0.o, d)), s.c1.(o := SwapQuad(s.c1.o, d)))
    else State(s.c0.(o := s.c1.o), s.c1.(o := s.c0.o))
  }

  lemma SwapLayerTwice(s: State, d: nat)
    requires d < 7
    ensures SwapLayer(SwapLayer(s, d), d) == s
  {
    hide SwapQuad;
    if d < 6 {
      SwapQuadTwice(s.c0.o, d);
      SwapQuadTwice(s.c1.o, d);
    }
  }

  // Round `r`, which is round d = r mod 7 of a turn of the loop.
  function Layers(s: State, r: nat): State
    requires r < 42
  {
    State(SboxMds(s.c0, RoundConstant(r, 0), RoundConstant(r, 2)),
        SboxMds(s.c1, RoundConstant(r, 1), RoundConstant(r, 3)))
  }

  function Round(s: State, r: nat): State
    requires r < 42
  {
    SwapLayer(Layers(s, r), r % 7)
  }

  function InvRound(s: State, r: nat): State
    requires r < 42
  {
    var t := SwapLayer(s, r % 7);
    State(InvSboxMds(t.c0, RoundConstant(r, 0), RoundConstant(r, 2)),
        InvSboxMds(t.c1, RoundConstant(r, 1), RoundConstant(r, 3)))
  }

  lemma RoundUndone(s: State, r: nat)
    requires r < 42
    ensures InvRound(Round(s, r), r) == s
    ensures Round(InvRound(s, r), r) == s
  {
    hide SboxMds, InvSboxMds, SwapLayer, RoundConstant;
    SwapLayerTwice(Layers(s, r), r % 7);
    SboxMdsUndone(s.c0, RoundConstant(r, 0), RoundConstant(r, 2));
    SboxMdsUndone(s.c1, RoundConstant(r, 1), RoundConstant(r, 3));
    var t := SwapLayer(s, r % 7);
    SboxMdsUndone(t.c0, RoundConstant(r, 0), RoundConstant(r, 2));
    SboxMdsUndone(t.c1, RoundConstant(r, 1), RoundConstant(r, 3));
    SwapLayerTwice(s, r % 7);
  }

  // The first `n` rounds of E8.
  function Rounds(s: State, n: nat): State
    requires n <= 42
    decreases n, s
  {
    if n == 0 then s else Round(Rounds(s, n - 1), n - 1)
  }

  function InvRounds(s: State, n: nat): State
    requires n <= 42
    decreases n, 0
  {
    if n == 0 then s else InvRounds(InvRound(s, n - 1), n - 1)
  }

  // E8 is a bijection on the 1024-bit state.
  lemma {:induction false} RoundsUndone(s: State, n: nat)
    requires n <= 42
    ensures InvRounds(Rounds(s, n), n) == s
    ensures Rounds(InvRounds(s, n), n) == s
    decreases n
  {
    hide Round, InvRound;
    if n > 0 {
      RoundUndone(Rounds(s, n - 1), n - 1);
      RoundsUndone(s, n - 1);
      RoundUndone(s, n - 1);
      RoundsUndone(InvRound(s, n - 1), n - 1);
    }
  }

  // ----- E8 and F8 in place -----

  // The state as the code keeps it: word 2 * row + column of x[8][2].
  function ColOf(x: seq<bv64>, j: nat): Col
    requires |x| == 16 && j < 2
  {
    Col(Quad(x[j], x[4 + j], x[8 + j], x[12 + j]), Quad(x[2 + j], x[6 + j], x[10 + j], x[14 + j]))
  }

  function Value(x: seq<bv64>): State
    requires |x| == 16
  {
    State(ColOf(x, 0), ColOf(x, 1))
  }

  // The macro SS on eight words.
  method SsMacro(a0: bv64, a1: bv64, a2: bv64, a3: bv64, a4: bv64, a5: bv64, a6: bv64, a7: bv64, cc0: bv64, cc1: bv64)
    returns (m0: bv64, m1: bv64, m2: bv64, m3: bv64, m4: bv64, m5: bv64, m6: bv64, m7: bv64)
    ensures Quad(m0, m1, m2, m3) == Ss(Quad(a0, a1, a2, a3), cc0)
    ensures Quad(m4, m5, m6, m7) == Ss(Quad(a4, a5, a6, a7), cc1)
  {
    hide Not64, And64, Or64, Xor64;
    m0, m1, m2, m3, m4, m5, m6, m7 := a0, a1, a2, a3, a4, a5, a6, a7;
    m3 := Not64(m3);
    m7 := Not64(m7);
    m0 := Xor64(m0, And64(Not64(m2), cc0));
    m4 := Xor64(m4, And64(Not64(m6), cc1));
    var temp0 := Xor64(cc0, And64(m0, m1));
    var temp1 := Xor64(cc1, And64(m4, m5));
    m0 := Xor64(m0, And64(m2, m3));
    m4 := Xor64(m4, And64(m6, m7));
    m3 := Xor64(m3, And64(Not64(m1), m2));
    m7 := Xor64(m7, And64(Not64(m5), m6));
    m1 := Xor64(m1, And64(m0, m2));
    m5 := Xor64(m5, And64(m4, m6));
    m2 := Xor64(m2, And64(m0, Not64(m3)));
    m6 := Xor64(m6, And64(m4, Not64(m7)));
    m0 := Xor64(m0, Or64(m1, m3));
    m4 := Xor64(m4, Or64(m5, m7));
    m3 := Xor64(m3, And64(m1, m2));
    m7 := Xor64(m7, And64(m5, m6));
    m1 := Xor64(m1, And64(temp0, m0));
    m5 := Xor64(m5, And64(temp1, m4));
    m2 := Xor64(m2, temp0);
    m6 := Xor64(m6, temp1);
  }

  // SS on column `i`.
  method SsColumn(x: array<bv64>, i: nat, cc0: bv64, cc1: bv64)
    requires x.Length == 16 && i < 2
    modifies x
    ensures ColOf(x[..], i) == Col(Ss(old(ColOf(x[..], i).e), cc0), Ss(old(ColOf(x[..], i).o), cc1))
    ensures ColOf(x[..], 1 - i) == old(ColOf(x[..], 1 - i))
  {
    hide Ss;
    var m0, m1, m2, m3, m4, m5, m6, m7 :=
      SsMacro(x[i], x[4 + i], x[8 + i], x[12 + i], x[2 + i], x[6 + i], x[10 + i], x[14 + i], cc0, cc1);
    x[i], x[4 + i], x[8 + i], x[12 + i] := m0, m1, m2, m3;
    x[2 + i], x[6 + i], x[10 + i], x[14 + i] := m4, m5, m6, m7;
  }

  // The macro L on column `i`.
  method LColumn(x: array<bv64>, i: nat)
    requires x.Length == 16 && i < 2
    modifies x
    ensures ColOf(x[..], i) == Mds(old(ColOf(x[..], i)))
    ensures ColOf(x[..], 1 - i) == old(ColOf(x[..], 1 - i))
  {
    hide Xor64;
    x[2 + i] := Xor64(x[2 + i], x[4 + i]);
    x[6 + i] := Xor64(x[6 + i], x[8 + i]);
    x[10 + i] := Xor64(x[10 + i], Xor64(x[i], x[12 + i]));
    x[14 + i] := Xor64(x[14 + i], x[i]);
    x[i] := Xor64(x[i], x[6 + i]);
    x[4 + i] := Xor64(x[4 + i], x[10 + i]);
    x[8 + i] := Xor64(x[8 + i], Xor64(x[2 + i], x[14 + i]));
    x[12 + i] := Xor64(x[12 + i], x[2 + i]);
  }

  method SwapColumn(x: array<bv64>, i: nat, d: nat)
    requires x.Length == 16 && i < 2 && d < 6
    modifies x
    ensures ColOf(x[..], i) == old(ColOf(x[..], i)).(o := SwapQuad(old(ColOf(x[..], i)).o, d))
    ensures ColOf(x[..], 1 - i) == old(ColOf(x[..], 1 - i))
  {
    hide Swap;
    x[2 + i] := Swap(x[2 + i], d);
    x[6 + i] := Swap(x[6 + i], d);
    x[10 + i] := Swap(x[10 + i], d);
    x[14 + i] := Swap(x[14 + i], d);
  }

  // Rounds 7 * k + d with d below 6: one of the six loops over the columns.
  method SwapRound(x: array<bv64>, r: nat, d: nat)
    requires x.Length == 16 && r < 42 && d < 6 && d == r % 7
    modifies x
    ensures Value(x[..]) == Round(old(Value(x[..])), r)
  {
    hide Ss, Mds, SwapQuad, RoundConstant;
    ghost var s := Value(x[..]);
    ghost var t := Round(s, r);
    var i := 0;
    while i < 2
      invariant 0 <= i <= 2
      invariant ColOf(x[..], 0) == if i > 0 then t.c0 else s.c0
      invariant ColOf(x[..], 1) == if i > 1 then t.c1 else s.c1
    {
      SsColumn(x, i, RoundConstant(r, i), RoundConstant(r, i + 2));
      LColumn(x, i);
      SwapColumn(x, i, d);
      i := i + 1;
    }
  }

  // Round 7 * k + 6: the swapping layer exchanges words of the odd rows.
  method LastRound(x: array<bv64>, r: nat)
    requires x.Length == 16 && r < 42 && r % 7 == 6
    modifies x
    ensures Value(x[..]) == Round(old(Value(x[..])), r)
  {
    hide Ss, Mds, RoundConstant;
    ghost var s := Value(x[..]);
    ghost var t := Layers(s, r);
    var i := 0;
    while i < 2
      invariant 0 <= i <= 2
      invariant ColOf(x[..], 0) == if i > 0 then t.c0 else s.c0
      invariant ColOf(x[..], 1) == if i > 1 then t.c1 else s.c1
    {
      SsColumn(x, i, RoundConstant(r, i), RoundConstant(r, i + 2));
      LColumn(x, i);
      i := i + 1;
    }
    ExchangeOddRows(x);
  }

  function ExchangeRow(x: seq<bv64>, i: nat): (r: seq<bv64>)
    requires |x| == 16 && i < 8
    ensures |r| == 16
  {
    x[2 * i := x[2 * i + 1]][2 * i + 1 := x[2 * i]]
  }

  // The first `n` odd rows with their two words exchanged.
  function Exchanged(x: seq<bv64>, n: nat): (r: seq<bv64>)
    requires |x| == 16 && n <= 4
    ensures |r| == 16
    decreases n, x
  {
    if n == 0 then x else ExchangeRow(Exchanged(x, n - 1), 2 * n - 1)
  }

  lemma ExchangeRow1(x: seq<bv64>)
    requires |x| == 16
    ensures var s := Value(x);
            Value(ExchangeRow(x, 1)) ==
            State(s.c0.(o := s.c0.o.(a := s.c1.o.a)), s.c1.(o := s.c1.o.(a := s.c0.o.a)))
  {
  }

  lemma ExchangeRow3(x: seq<bv64>)
    requires |x| == 16
    ensures var s := Value(x);
            Value(ExchangeRow(x, 3)) ==
            State(s.c0.(o := s.c0.o.(b := s.c1.o.b)), s.c1.(o := s.c1.o.(b := s.c0.o.b)))
  {
  }

  lemma ExchangeRow5(x: seq<bv64>)
    requires |x| == 16
    ensures var s := Value(x);
            Value(ExchangeRow(x, 5)) ==
            State(s.c0.(o := s.c0.o.(c := s.c1.o.c)), s.c1.(o := s.c1.o.(c := s.c0.o.c)))
  {
  }

  lemma ExchangeRow7(x: seq<bv64>)
    requires |x| == 16
    ensures var s := Value(x);
            Value(ExchangeRow(x, 7)) ==
            State(s.c0.(o := s.c0.o.(d := s.c1.o.d)), s.c1.(o := s.c1.o.(d := s.c0.o.d)))
  {
  }

  lemma ExchangedNext(x: seq<bv64>, n: nat)
    requires |x| == 16 && n < 4
    ensures Exchanged(x, 0) == x
    ensures Exchanged(x, n + 1) == ExchangeRow(Exchanged(x, n), 2 * n + 1)
  {
  }

  lemma ExchangedAll(x: seq<bv64>)
    requires |x| == 16
    ensures Value(Exchanged(x, 4)) == SwapLayer(Value(x), 6)
  {
    hide Value, ExchangeRow, Exchanged;
    ExchangedNext(x, 0);
    ExchangeRow1(x);
    ExchangedNext(x, 1);
    ExchangeRow3(Exchanged(x, 1));
    ExchangedNext(x, 2);
    ExchangeRow5(Exchanged(x, 2));
    ExchangedNext(x, 3);
    ExchangeRow7(Exchanged(x, 3));
  }

  method ExchangeOddRows(x: array<bv64>)
    requires x.Length == 16
    modifies x
    ensures Value(x[..]) == SwapLayer(old(Value(x[..])), 6)
  {
    hide Value, SwapLayer;
    ghost var was, n := x[..], 0;
    var i := 1;
    while i < 8
      invariant n <= 4 && i == 2 * n + 1
      invariant x[..] == Exchanged(was, n)
    {
      var temp0 := x[2 * i];
      x[2 * i] := x[2 * i + 1];
      x[2 * i + 1] := temp0;
      n := n + 1;
      i := i + 2;
    }
    ExchangedAll(was);
  }

  lemma NextRound(s: State, n: nat)
    requires n < 42
    ensures Rounds(s, n + 1) == Round(Rounds(s, n), n)
  {
  }

  // The seven rounds of one turn of the loop.
  method Turn(x: array<bv64>, n: nat, ghost s: State)
    requires x.Length == 16 && n + 7 <= 42 && n % 7 == 0 && Value(x[..]) == Rounds(s, n)
    modifies x
    ensures Value(x[..]) == Rounds(s, n + 7)
  {
    hide Round, Rounds, Value;
    NextRound(s, n);
    SwapRound(x, n, 0);
    NextRound(s, n + 1);
    SwapRound(x, n + 1, 1);
    NextRound(s, n + 2);
    SwapRound(x, n + 2, 2);
    NextRound(s, n + 3);
    SwapRound(x, n + 3, 3);
    NextRound(s, n + 4);
    SwapRound(x, n + 4, 4);
    NextRound(s, n + 5);
    SwapRound(x, n + 5, 5);
    NextRound(s, n + 6);
    LastRound(x, n + 6);
  }

  method E8(x: array<bv64>)
    requires x.Length == 16
    modifies x
    ensures Value(x[..]) == Rounds(old(Value(x[..])), 42)
  {
    hide Round, Value;
    ghost var s := Value(x[..]);
    var roundnumber := 0;
    while roundnumber < 42
      invariant 0 <= roundnumber <= 42 && roundnumber % 7 == 0
      invariant Value(x[..]) == Rounds(s, roundnumber)
    {
      Turn(x, roundnumber, s);
      roundnumber := roundnumber + 7;
    }
  }

  // Rows 0 to 3 take in the eight words of the message block, ...
  function XorTop(s: State, w: seq<bv64>): State
    requires |w| == 8
  {
    State(Col(s.c0.e.(a := Xor64(s.c0.e.a, w[0]), b := Xor64(s.c0.e.b, w[4])),
              s.c0.o.(a := Xor64(s.c0.o.a, w[2]), b := Xor64(s.c0.o.b, w[6]))),
          Col(s.c1.e.(a := Xor64(s.c1.e.a, w[1]), b := Xor64(s.c1.e.b, w[5])),
              s.c1.o.(a := Xor64(s.c1.o.a, w[3]), b := Xor64(s.c1.o.b, w[7]))))
  }

  // ... and rows 4 to 7 do after E8.
  function XorBottom(s: State, w: seq<bv64>): State
    requires |w| == 8
  {
    State(Col(s.c0.e.(c := Xor64(s.c0.e.c, w[0]), d := Xor64(s.c0.e.d, w[4])),
              s.c0.o.(c := Xor64(s.c0.o.c, w[2]), d := Xor64(s.c0.o.d, w[6]))),
          Col(s.c1.e.(c := Xor64(s.c1.e.c, w[1]), d := Xor64(s.c1.e.d, w[5])),
              s.c1.o.(c := Xor64(s.c1.o.c, w[3]), d := Xor64(s.c1.o.d, w[7]))))
  }

  function F8Of(s: State, w: seq<bv64>): State
    requires |w| == 8
  {
    XorBottom(Rounds(XorTop(s, w), 42), w)
  }

  function InvF8(s: State, w: seq<bv64>): State
    requires |w| == 8
  {
    XorTop(InvRounds(XorBottom(s, w), 42), w)
  }

  lemma XorTopTwice(s: State, w: seq<bv64>)
    requires |w| == 8
    ensures XorTop(XorTop(s, w), w) == s
  {
    hide Xor64;
    XorTwice(s.c0.e.a, w[0]);
    XorTwice(s.c1.e.a, w[1]);
    XorTwice(s.c0.o.a, w[2]);
    XorTwice(s.c1.o.a, w[3]);
    XorTwice(s.c0.e.b, w[4]);
    XorTwice(s.c1.e.b, w[5]);
    XorTwice(s.c0.o.b, w[6]);
    XorTwice(s.c1.o.b, w[7]);
  }

  lemma XorBottomTwice(s: State, w: seq<bv64>)
    requires |w| == 8
    ensures XorBottom(XorBottom(s, w), w) == s
  {
    hide Xor64;
    XorTwice(s.c0.e.c, w[0]);
    XorTwice(s.c1.e.c, w[1]);
    XorTwice(s.c0.o.c, w[2]);
    XorTwice(s.c1.o.c, w[3]);
    XorTwice(s.c0.e.d, w[4]);
    XorTwice(s.c1.e.d, w[5]);
    XorTwice(s.c0.o.d, w[6]);
    XorTwice(s.c1.o.d, w[7]);
  }

  // For a fixed message block the compression function is a bijection too.
  lemma F8Undone(s: State, w: seq<bv64>)
    requires |w| == 8
    ensures InvF8(F8Of(s, w), w) == s
    ensures F8Of(InvF8(s, w), w) == s
  {
    hide XorTop, XorBottom, Rounds, InvRounds;
    XorTopTwice(s, w);
    XorBottomTwice(Rounds(XorTop(s, w), 42), w);
    RoundsUndone(XorTop(s, w), 42);
    XorBottomTwice(s, w);
    RoundsUndone(XorBottom(s, w), 42);
    XorTopTwice(InvRounds(XorBottom(s, w), 42), w);
  }

  // The eight little-endian words of the buffer.
  function BufferWords(buffer: seq<Byte>): (w: seq<bv64>)
    requires |buffer| == 64
    ensures |w| == 8
  {
    seq(8, i requires 0 <= i < 8 => Word64(buffer[8 * i..8 * i + 8]))
  }

  // One of F8's two loops: words at, ..., at + 7 of the state.
  method XorWords(x: array<bv64>, at: nat, w: seq<bv64>)
    requires x.Length == 16 && at <= 8 && |w| == 8
    modifies x
    ensures forall k :: 0 <= k < 16 ==> x[k] == if at <= k < at + 8 then Xor64(old(x[k]), w[k - at]) else old(x[k])
  {
    hide Xor64;
    var i := 0;
    while i < 8
      invariant 0 <= i <= 8
      invariant forall k :: 0 <= k < 16 ==> x[k] == if at <= k < at + i then Xor64(old(x[k]), w[k - at]) else old(x[k])
    {
      x[at + i] := Xor64(x[at + i], w[i]);
      i := i + 1;
    }
  }

  method F8(x: array<bv64>, buffer: array<Byte>)
    requires x.Length == 16 && buffer.Length == 64
    modifies x
    ensures Value(x[..]) == F8Of(old(Value(x[..])), BufferWords(buffer[..]))
  {
    hide Xor64, BufferWords, Rounds;
    var w := BufferWords(buffer[..]);
    XorWords(x, 0, w);
    assert Value(x[..]) == XorTop(old(Value(x[..])), w);
    E8(x);
    ghost var s := Value(x[..]);
    XorWords(x, 8, w);
    assert Value(x[..]) == XorBottom(s, w);
    assert w == BufferWords(buffer[..]);
  }
}
