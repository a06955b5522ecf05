/**
 The multiway SHA-256 of multiway_sha256.hpp: one block of every lane at a time, with the eight
 registers changing roles instead of being moved, and a message schedule of sixteen words that is
 rolled forward in place. Each lane is proved to compute the SHA-256 of FIPS 180-4 of its own blocks.
 */
module MultiwaySha256 {
  import opened Words
  import opened Words32
  import opened Sha256
  import opened Lanes

  // ----- the functions of the code, as what they do to the lanes -----

  function VCh(x: Vec, y: Vec, z: Vec): (r: Vec)
    requires |x| == |y| == |z|
    ensures |r| == |x|
  {
    VXor(z, VAnd(x, VXor(y, z)))
  }

  function VMaj(x: Vec, y: Vec, z: Vec): (r: Vec)
    requires |x| == |y| == |z|
    ensures |r| == |x|
  {
    VOr(VAnd(x, y), VAnd(z, VOr(x, y)))
  }

  function VSigma0(x: Vec): (r: Vec)
    ensures |r| == |x|
  {
    VXor(VXor(VRol(x, 30), VRol(x, 19)), VRol(x, 10))
  }

  function VSigma1(x: Vec): (r: Vec)
    ensures |r| == |x|
  {
    VXor(VXor(VRol(x, 26), VRol(x, 21)), VRol(x, 7))
  }

  function VSmall0(x: Vec): (r: Vec)
    ensures |r| == |x|
  {
    VXor(VXor(VRol(x, 25), VRol(x, 14)), VShr(x, 3))
  }

  function VSmall1(x: Vec): (r: Vec)
    ensures |r| == |x|
  {
    VXor(VXor(VRol(x, 15), VRol(x, 13)), VShr(x, 10))
  }

  // The sum that _inc stores: x + (y + (z + u)).
  function VInc(x: Vec, y: Vec, z: Vec, u: Vec): (r: Vec)
    requires |x| == |y| == |z| == |u|
    ensures |r| == |x|
  {
    VAdd(x, VAdd(y, VAdd(z, u)))
  }

  function T1(e: Vec, f: Vec, g: Vec, h: Vec, k: Vec): (r: Vec)
    requires |e| == |f| == |g| == |h| == |k|
    ensures |r| == |e|
  {
    VAdd(h, VAdd(VSigma1(e), VAdd(VCh(e, f, g), k)))
  }

  function T2(a: Vec, b: Vec, c: Vec): (r: Vec)
    requires |a| == |b| == |c|
    ensures |r| == |a|
  {
    VAdd(VSigma0(a), VMaj(a, b, c))
  }

  // ----- lane by lane -----

  lemma RolIsRotR(x: bv32, n: bv32)
    requires 0 < n < 32
    ensures Rol32(x, n) == RotR(x, 32 - n)
  {
  }

  lemma ShrIsShR(x: bv32, n: bv32)
    requires n < 32
    ensures Shr32(x, n) == ShR(x, n)
  {
  }

  lemma ChIs(x: bv32, y: bv32, z: bv32)
    ensures Xor32(z, And32(x, Xor32(y, z))) == ChOf(x, y, z)
  {
  }

  lemma MajIs(x: bv32, y: bv32, z: bv32)
    ensures Or32(And32(x, y), And32(z, Or32(x, y))) == MajOf(x, y, z)
  {
  }

  lemma BigSigmasAt(x: Vec, i: nat)
    requires i < |x|
    ensures VSigma0(x)[i] == BigSigma0(x[i]) && VSigma1(x)[i] == BigSigma1(x[i])
  {
    hide Rol32, RotR, Xor32;
    RolIsRotR(x[i], 30);
    RolIsRotR(x[i], 19);
    RolIsRotR(x[i], 10);
    RolIsRotR(x[i], 26);
    RolIsRotR(x[i], 21);
    RolIsRotR(x[i], 7);
  }

  lemma SmallSigmasAt(x: Vec, i: nat)
    requires i < |x|
    ensures VSmall0(x)[i] == SmallSigma0(x[i]) && VSmall1(x)[i] == SmallSigma1(x[i])
  {
    hide Rol32, RotR, Xor32, Shr32, ShR;
    RolIsRotR(x[i], 25);
    RolIsRotR(x[i], 14);
    RolIsRotR(x[i], 15);
    RolIsRotR(x[i], 13);
    ShrIsShR(x[i], 3);
    ShrIsShR(x[i], 10);
  }

  // ----- rounds and schedule on all lanes, registers in their textbook order -----

  predicate Wide(r: Regs<Vec>, n: nat) {
    && |r.a| == n && |r.b| == n && |r.c| == n && |r.d| == n
    && |r.e| == n && |r.f| == n && |r.g| == n && |r.h| == n
  }

  function VRound(r: Regs<Vec>, n: nat, k: bv32, w: Vec): (s: Regs<Vec>)
    requires Wide(r, n) && |w| == n
    ensures Wide(s, n)
  {
    var t1 := T1(r.e, r.f, r.g, r.h, VAdd(Broadcast(k, n), w));
    Regs(VAdd(t1, T2(r.a, r.b, r.c)), r.a, r.b, r.c, VAdd(r.d, t1), r.e, r.f, r.g)
  }

  predicate Sixteen(m: seq<Vec>, n: nat) {
    |m| == 16 && forall j :: 0 <= j < 16 ==> |m[j]| == n
  }

  // Schedule word `t` of every lane.
  function VW(m: seq<Vec>, n: nat, t: nat): (w: Vec)
    requires Sixteen(m, n)
    ensures |w| == n
    decreases t, m
  {
    if t < 16 then m[t]
    else VInc(VW(m, n, t - 16), VSmall1(VW(m, n, t - 2)), VW(m, n, t - 7), VSmall0(VW(m, n, t - 15)))
  }

  function VRounds(r: Regs<Vec>, n: nat, m: seq<Vec>, t: nat): (s: Regs<Vec>)
    requires Wide(r, n) && Sixteen(m, n) && t <= 64
    ensures Wide(s, n)
    decreases t, m
  {
    if t == 0 then r else VRound(VRounds(r, n, m, t - 1), n, K(t - 1), VW(m, n, t - 1))
  }

  function VAddRegs(r: Regs<Vec>, s: Regs<Vec>, n: nat): (u: Regs<Vec>)
    requires Wide(r, n) && Wide(s, n)
    ensures Wide(u, n)
  {
    Regs(VAdd(r.a, s.a), VAdd(r.b, s.b), VAdd(r.c, s.c), VAdd(r.d, s.d),
         VAdd(r.e, s.e), VAdd(r.f, s.f), VAdd(r.g, s.g), VAdd(r.h, s.h))
  }

  // ----- one lane of it is the textbook -----

  function Lane(r: Regs<Vec>, n: nat, i: nat): Regs<bv32>
    requires Wide(r, n) && i < n
  {
    Regs(r.a[i], r.b[i], r.c[i], r.d[i], r.e[i], r.f[i], r.g[i], r.h[i])
  }

  function LaneWords(m: seq<Vec>, n: nat, i: nat): (w: seq<bv32>)
    requires Sixteen(m, n) && i < n
    ensures |w| == 16
  {
    seq(16, j requires 0 <= j < 16 => m[j][i])
  }

  lemma ChAt(x: Vec, y: Vec, z: Vec, i: nat)
    requires |x| == |y| == |z| && i < |x|
    ensures VCh(x, y, z)[i] == ChOf(x[i], y[i], z[i])
  {
    hide Xor32, And32, ChOf;
    ChIs(x[i], y[i], z[i]);
  }

  lemma MajAt(x: Vec, y: Vec, z: Vec, i: nat)
    requires |x| == |y| == |z| && i < |x|
    ensures VMaj(x, y, z)[i] == MajOf(x[i], y[i], z[i])
  {
    hide Or32, And32, MajOf;
    MajIs(x[i], y[i], z[i]);
  }

  lemma VAddAt(x: Vec, y: Vec, i: nat)
    requires |x| == |y| && i < |x|
    ensures VAdd(x, y)[i] == Add32(x[i], y[i])
  {
    hide Add32;
  }

  lemma T1At(e: Vec, f: Vec, g: Vec, h: Vec, k: bv32, w: Vec, i: nat)
    requires |e| == |f| == |g| == |h| == |w| && i < |e|
    ensures T1(e, f, g, h, VAdd(Broadcast(k, |e|), w))[i]
         == Add32(Add32(Add32(Add32(h[i], BigSigma1(e[i])), ChOf(e[i], f[i], g[i])), k), w[i])
  {
    hide VAdd, Add32, VSigma1, VCh, BigSigma1, ChOf;
    var kw := VAdd(Broadcast(k, |e|), w);
    VAddAt(Broadcast(k, |e|), w, i);
    VAddAt(VCh(e, f, g), kw, i);
    VAddAt(VSigma1(e), VAdd(VCh(e, f, g), kw), i);
    VAddAt(h, VAdd(VSigma1(e), VAdd(VCh(e, f, g), kw)), i);
    BigSigmasAt(e, i);
    ChAt(e, f, g, i);
    AddFive(h[i], BigSigma1(e[i]), ChOf(e[i], f[i], g[i]), k, w[i]);
  }

  lemma T2At(a: Vec, b: Vec, c: Vec, i: nat)
    requires |a| == |b| == |c| && i < |a|
    ensures T2(a, b, c)[i] == Add32(BigSigma0(a[i]), MajOf(a[i], b[i], c[i]))
  {
    hide VAdd, Add32, VSigma0, VMaj, BigSigma0, MajOf;
    VAddAt(VSigma0(a), VMaj(a, b, c), i);
    BigSigmasAt(a, i);
    MajAt(a, b, c, i);
  }

  lemma LaneOfRound(r: Regs<Vec>, n: nat, k: bv32, w: Vec, i: nat)
    requires Wide(r, n) && |w| == n && i < n
    ensures Lane(VRound(r, n, k, w), n, i) == RoundOf(Lane(r, n, i), k, w[i])
  {
    hide VAdd, Add32, T1, T2, BigSigma0, BigSigma1, ChOf, MajOf;
    var t1, t2 := T1(r.e, r.f, r.g, r.h, VAdd(Broadcast(k, n), w)), T2(r.a, r.b, r.c);
    T1At(r.e, r.f, r.g, r.h, k, w, i);
    T2At(r.a, r.b, r.c, i);
    VAddAt(t1, t2, i);
    VAddAt(r.d, t1, i);
  }

  lemma IncAt(x: Vec, y: Vec, z: Vec, u: Vec, i: nat)
    requires |x| == |y| == |z| == |u| && i < |x|
    ensures VInc(x, y, z, u)[i] == Add32(Add32(Add32(y[i], z[i]), u[i]), x[i])
  {
    hide VAdd, Add32;
    VAddAt(z, u, i);
    VAddAt(y, VAdd(z, u), i);
    VAddAt(x, VAdd(y, VAdd(z, u)), i);
    AddFour(x[i], y[i], z[i], u[i]);
  }

  lemma {:induction false} LaneOfSchedule(m: seq<Vec>, n: nat, t: nat, i: nat)
    requires Sixteen(m, n) && i < n
    ensures VW(m, n, t)[i] == W(LaneWords(m, n, i), t)
    decreases t
  {
    hide VInc, VSmall0, VSmall1, SmallSigma0, SmallSigma1, Add32;
    if t >= 16 {
      LaneOfSchedule(m, n, t - 16, i);
      LaneOfSchedule(m, n, t - 2, i);
      LaneOfSchedule(m, n, t - 7, i);
      LaneOfSchedule(m, n, t - 15, i);
      SmallSigmasAt(VW(m, n, t - 2), i);
      SmallSigmasAt(VW(m, n, t - 15), i);
      IncAt(VW(m, n, t - 16), VSmall1(VW(m, n, t - 2)), VW(m, n, t - 7), VSmall0(VW(m, n, t - 15)), i);
    }
  }

  // No lane sees another: lane `i` of the vector rounds is the textbook on its own words.
  lemma {:induction false} LaneOfRounds(r: Regs<Vec>, n: nat, m: seq<Vec>, t: nat, i: nat)
    requires Wide(r, n) && Sixteen(m, n) && t <= 64 && i < n
    ensures Lane(VRounds(r, n, m, t), n, i) == RoundsOf(Lane(r, n, i), LaneWords(m, n, i), t)
    decreases t
  {
    hide VRound, RoundOf, K, VW, W, LaneWords, Sixteen;
    if t > 0 {
      LaneOfRounds(r, n, m, t - 1, i);
      LaneOfSchedule(m, n, t - 1, i);
      LaneOfRound(VRounds(r, n, m, t - 1), n, K(t - 1), VW(m, n, t - 1), i);
    }
  }

  // ----- the functions of the code, over either lane type -----

  method Ch(instr: Instr, x: Value, y: Value, z: Value) returns (r: Value)
    requires Is(instr, x) && Is(instr, y) && Is(instr, z)
    ensures Is(instr, r) && View(instr, r) == VCh(View(instr, x), View(instr, y), View(instr, z))
  {
    hide Is, View, VXor, VAnd;
    r := OpXor(instr, y, z);
    r := OpAnd(instr, x, r);
    r := OpXor(instr, z, r);
  }

  method Maj(instr: Instr, x: Value, y: Value, z: Value) returns (r: Value)
    requires Is(instr, x) && Is(instr, y) && Is(instr, z)
    ensures Is(instr, r) && View(instr, r) == VMaj(View(instr, x), View(instr, y), View(instr, z))
  {
    hide Is, View, VOr, VAnd;
    var both := OpAnd(instr, x, y);
    r := OpOr(instr, x, y);
    r := OpAnd(instr, z, r);
    r := OpOr(instr, both, r);
  }

  method Sigma0(instr: Instr, x: Value) returns (r: Value)
    requires Is(instr, x)
    ensures Is(instr, r) && View(instr, r) == VSigma0(View(instr, x))
  {
    hide Is, View, VXor, VRol, VShr;
    var first := OpRol(instr, x, 30);
    var second := OpRol(instr, x, 19);
    var third := OpRol(instr, x, 10);
    r := OpXor(instr, first, second);
    r := OpXor(instr, r, third);
  }

  method Sigma1(instr: Instr, x: Value) returns (r: Value)
    requires Is(instr, x)
    ensures Is(instr, r) && View(instr, r) == VSigma1(View(instr, x))
  {
    hide Is, View, VXor, VRol, VShr;
    var first := OpRol(instr, x, 26);
    var second := OpRol(instr, x, 21);
    var third := OpRol(instr, x, 7);
    r := OpXor(instr, first, second);
    r := OpXor(instr, r, third);
  }

  method LowerSigma0(instr: Instr, x: Value) returns (r: Value)
    requires Is(instr, x)
    ensures Is(instr, r) && View(instr, r) == VSmall0(View(instr, x))
  {
    hide Is, View, VXor, VRol, VShr;
    var first := OpRol(instr, x, 25);
    var second := OpRol(instr, x, 14);
    var third := OpShr(instr, x, 3);
    r := OpXor(instr, first, second);
    r := OpXor(instr, r, third);
  }

  method LowerSigma1(instr: Instr, x: Value) returns (r: Value)
    requires Is(instr, x)
    ensures Is(instr, r) && View(instr, r) == VSmall1(View(instr, x))
  {
    hide Is, View, VXor, VRol, VShr;
    var first := OpRol(instr, x, 15);
    var second := OpRol(instr, x, 13);
    var third := OpShr(instr, x, 10);
    r := OpXor(instr, first, second);
    r := OpXor(instr, r, third);
  }

  // _add of a round constant and a word.
  method AddConstant(instr: Instr, k: bv32, w: Value) returns (r: Value)
    requires Is(instr, w)
    ensures Is(instr, r) && View(instr, r) == VAdd(Broadcast(k, instr.way), View(instr, w))
  {
    hide Is, View, VAdd, Broadcast;
    r := OpBroadcast(instr, k);
    r := OpAdd(instr, r, w);
  }

  // _inc(x, sigma1(y), z, sigma0(u))
  method RollWord(instr: Instr, x: Value, y: Value, z: Value, u: Value) returns (r: Value)
    requires Is(instr, x) && Is(instr, y) && Is(instr, z) && Is(instr, u)
    ensures Is(instr, r)
    ensures View(instr, r) == VInc(View(instr, x), VSmall1(View(instr, y)), View(instr, z), VSmall0(View(instr, u)))
  {
    hide Is, View, VAdd, VSmall0, VSmall1;
    var s0 := LowerSigma0(instr, u);
    var s1 := LowerSigma1(instr, y);
    r := OpAdd(instr, z, s0);
    r := OpAdd(instr, s1, r);
    r := OpAdd(instr, x, r);
  }

  predicate Are(instr: Instr, r: Regs<Value>) {
    && Is(instr, r.a) && Is(instr, r.b) && Is(instr, r.c) && Is(instr, r.d)
    && Is(instr, r.e) && Is(instr, r.f) && Is(instr, r.g) && Is(instr, r.h)
  }

  // The lanes of the eight registers.
  function Views(instr: Instr, r: Regs<Value>): (v: Regs<Vec>)
    requires Are(instr, r)
    ensures Wide(v, instr.way)
  {
    Regs(View(instr, r.a), View(instr, r.b), View(instr, r.c), View(instr, r.d),
         View(instr, r.e), View(instr, r.f), View(instr, r.g), View(instr, r.h))
  }

  method Round(instr: Instr, a: Value, b: Value, c: Value, d: Value, e: Value, f: Value, g: Value, h: Value, k: Value)
    returns (d2: Value, h2: Value)
    requires Are(instr, Regs(a, b, c, d, e, f, g, h)) && Is(instr, k)
    ensures Is(instr, d2) && Is(instr, h2)
    ensures View(instr, d2)
         == VAdd(View(instr, d), T1(View(instr, e), View(instr, f), View(instr, g), View(instr, h), View(instr, k)))
    ensures View(instr, h2)
         == VAdd(T1(View(instr, e), View(instr, f), View(instr, g), View(instr, h), View(instr, k)),
                 T2(View(instr, a), View(instr, b), View(instr, c)))
  {
    hide Is, View, VAdd, VSigma0, VSigma1, VCh, VMaj;
    var s1 := Sigma1(instr, e);
    var ch := Ch(instr, e, f, g);
    var t1 := OpAdd(instr, ch, k);
    t1 := OpAdd(instr, s1, t1);
    t1 := OpAdd(instr, h, t1);
    var s0 := Sigma0(instr, a);
    var maj := Maj(instr, a, b, c);
    var t2 := OpAdd(instr, s0, maj);
    d2 := OpAdd(instr, d, t1);
    h2 := OpAdd(instr, t1, t2);
  }

  // ----- registers that change roles, schedule words that roll -----

  lemma NextRound(r: Regs<Vec>, n: nat, m: seq<Vec>, t: nat)
    requires Wide(r, n) && Sixteen(m, n) && t < 64
    ensures VRounds(r, n, m, t + 1) == VRound(VRounds(r, n, m, t), n, K(t), VW(m, n, t))
  {
  }

  lemma NextWord(m: seq<Vec>, n: nat, t: nat)
    requires Sixteen(m, n) && t >= 16
    ensures VW(m, n, t)
         == VInc(VW(m, n, t - 16), VSmall1(VW(m, n, t - 2)), VW(m, n, t - 7), VSmall0(VW(m, n, t - 15)))
  {
  }

  // Every lane's words lie inside its 64 bytes.
  lemma WordsInBlock(size: nat, n: nat, j: nat)
    requires size >= 64 * n && j < 16
    ensures InMemory(size, 64, 4 * j, n)
  {
  }

  // The sixteen words of every lane's block.
  function BlockOf(block: seq<Byte>, n: nat): (m: seq<Vec>)
    requires |block| >= 64 * n
    ensures Sixteen(m, n)
  {
    seq(16, j requires 0 <= j < 16 => WordsInBlock(|block|, n, j); VLoad(block, 64, 4 * j, n))
  }

  lemma LoadIs(block: seq<Byte>, n: nat, j: nat)
    requires |block| >= 64 * n && j < 16
    ensures Sixteen(BlockOf(block, n), n) && InMemory(|block|, 64, 4 * j, n)
    ensures VLoad(block, 64, 4 * j, n) == VW(BlockOf(block, n), n, j)
  {
    hide VLoad;
    WordsInBlock(|block|, n, j);
  }

  // Eight round constants, from constant `t` on.
  predicate Keys(t: nat, k0: bv32, k1: bv32, k2: bv32, k3: bv32, k4: bv32, k5: bv32, k6: bv32, k7: bv32)
    requires t + 8 <= 64
  {
    && k0 == K(t) && k1 == K(t + 1) && k2 == K(t + 2) && k3 == K(t + 3)
    && k4 == K(t + 4) && k5 == K(t + 5) && k6 == K(t + 6) && k7 == K(t + 7)
  }

  // Eight variables that hold the schedule words from word `t` on.
  ghost predicate Hold(instr: Instr, w0: Value, w1: Value, w2: Value, w3: Value, w4: Value, w5: Value, w6: Value,
                       w7: Value, m: seq<Vec>, t: nat)
    requires Sixteen(m, instr.way)
  {
    && Is(instr, w0) && Is(instr, w1) && Is(instr, w2) && Is(instr, w3)
    && Is(instr, w4) && Is(instr, w5) && Is(instr, w6) && Is(instr, w7)
    && View(instr, w0) == VW(m, instr.way, t) && View(instr, w1) == VW(m, instr.way, t + 1)
    && View(instr, w2) == VW(m, instr.way, t + 2) && View(instr, w3) == VW(m, instr.way, t + 3)
    && View(instr, w4) == VW(m, instr.way, t + 4) && View(instr, w5) == VW(m, instr.way, t + 5)
    && View(instr, w6) == VW(m, instr.way, t + 6) && View(instr, w7) == VW(m, instr.way, t + 7)
  }

  // The registers after `t` rounds from `r`.
  ghost predicate After(instr: Instr, x: Regs<Value>, r: Regs<Vec>, m: seq<Vec>, t: nat)
    requires Wide(r, instr.way) && Sixteen(m, instr.way) && t <= 64
  {
    Are(instr, x) && Views(instr, x) == VRounds(r, instr.way, m, t)
  }

  // Round `t`, of a constant and a schedule word: in textbook order the registers move on by one.
  method KeyedRound(instr: Instr, a: Value, b: Value, c: Value, d: Value, e: Value, f: Value, g: Value, h: Value,
                    k: bv32, w: Value,
                    ghost t: nat, ghost m: seq<Vec>, ghost r: Regs<Vec>)
    returns (d2: Value, h2: Value)
    requires t < 64 && Sixteen(m, instr.way) && Wide(r, instr.way)
    requires After(instr, Regs(a, b, c, d, e, f, g, h), r, m, t)
    requires Is(instr, w) && View(instr, w) == VW(m, instr.way, t) && k == K(t)
    ensures Is(instr, d2) && Is(instr, h2)
    ensures After(instr, Regs(h2, a, b, c, d2, e, f, g), r, m, t + 1)
  {
    hide VRounds, K, VAdd, T1, T2, VW, Sixteen, Is, View, Broadcast;
    NextRound(r, instr.way, m, t);
    var kw := AddConstant(instr, k, w);
    d2, h2 := Round(instr, a, b, c, d, e, f, g, h, kw);
  }

  // Eight rounds that load their schedule words: rounds 0 to 7 and 8 to 15.
  method LoadEight(instr: Instr, a0: Value, b0: Value, c0: Value, d0: Value, e0: Value, f0: Value, g0: Value, h0: Value,
                   k0: bv32, k1: bv32, k2: bv32, k3: bv32, k4: bv32, k5: bv32, k6: bv32, k7: bv32,
                   block: seq<Byte>, t: nat, ghost m: seq<Vec>, ghost r: Regs<Vec>)
    returns (a: Value, b: Value, c: Value, d: Value, e: Value, f: Value, g: Value, h: Value,
             w0: Value, w1: Value, w2: Value, w3: Value, w4: Value, w5: Value, w6: Value, w7: Value)
    requires t == 0 || t == 8
    requires |block| >= 64 * instr.way && m == BlockOf(block, instr.way) && Wide(r, instr.way)
    requires After(instr, Regs(a0, b0, c0, d0, e0, f0, g0, h0), r, m, t)
    requires Keys(t, k0, k1, k2, k3, k4, k5, k6, k7)
    ensures After(instr, Regs(a, b, c, d, e, f, g, h), r, m, t + 8)
    ensures Hold(instr, w0, w1, w2, w3, w4, w5, w6, w7, m, t)
  {
    hide VRounds, K, VLoad, BlockOf, VW, Sixteen, Is, View, After, InMemory, Wide;
    ghost var n := instr.way;
    a, b, c, d, e, f, g, h := a0, b0, c0, d0, e0, f0, g0, h0;
    LoadIs(block, n, t);
    w0 := Load(instr, block, 64, 4 * t);
    d, h := KeyedRound(instr, a, b, c, d, e, f, g, h, k0, w0, t, m, r);
    LoadIs(block, n, t + 1);
    w1 := Load(instr, block, 64, 4 * (t + 1));
    c, g := KeyedRound(instr, h, a, b, c, d, e, f, g, k1, w1, t + 1, m, r);
    LoadIs(block, n, t + 2);
    w2 := Load(instr, block, 64, 4 * (t + 2));
    b, f := KeyedRound(instr, g, h, a, b, c, d, e, f, k2, w2, t + 2, m, r);
    LoadIs(block, n, t + 3);
    w3 := Load(instr, block, 64, 4 * (t + 3));
    a, e := KeyedRound(instr, f, g, h, a, b, c, d, e, k3, w3, t + 3, m, r);
    LoadIs(block, n, t + 4);
    w4 := Load(instr, block, 64, 4 * (t + 4));
    h, d := KeyedRound(instr, e, f, g, h, a, b, c, d, k4, w4, t + 4, m, r);
    LoadIs(block, n, t + 5);
    w5 := Load(instr, block, 64, 4 * (t + 5));
    g, c := KeyedRound(instr, d, e, f, g, h, a, b, c, k5, w5, t + 5, m, r);
    LoadIs(block, n, t + 6);
    w6 := Load(instr, block, 64, 4 * (t + 6));
    f, b := KeyedRound(instr, c, d, e, f, g, h, a, b, k6, w6, t + 6, m, r);
    LoadIs(block, n, t + 7);
    w7 := Load(instr, block, 64, 4 * (t + 7));
    e, a := KeyedRound(instr, b, c, d, e, f, g, h, a, k7, w7, t + 7, m, r);
  }

  // Eight rounds that roll eight of the sixteen words, u0 to u7, forward; v0 to v7 are the other eight.
  // With w0 to w7 rolled they become the others while w8 to w15 are rolled.
  method RollEight(instr: Instr, a0: Value, b0: Value, c0: Value, d0: Value, e0: Value, f0: Value, g0: Value, h0: Value,
                   u0: Value, u1: Value, u2: Value, u3: Value, u4: Value, u5: Value, u6: Value, u7: Value,
                   v0: Value, v1: Value, v2: Value, v3: Value, v4: Value, v5: Value, v6: Value, v7: Value,
                   k0: bv32, k1: bv32, k2: bv32, k3: bv32, k4: bv32, k5: bv32, k6: bv32, k7: bv32,
                   ghost t: nat, ghost m: seq<Vec>, ghost r: Regs<Vec>)
    returns (a: Value, b: Value, c: Value, d: Value, e: Value, f: Value, g: Value, h: Value,
             w0: Value, w1: Value, w2: Value, w3: Value, w4: Value, w5: Value, w6: Value, w7: Value)
    requires 16 <= t && t + 8 <= 64 && Sixteen(m, instr.way) && Wide(r, instr.way)
    requires After(instr, Regs(a0, b0, c0, d0, e0, f0, g0, h0), r, m, t)
    requires Hold(instr, u0, u1, u2, u3, u4, u5, u6, u7, m, t - 16)
    requires Hold(instr, v0, v1, v2, v3, v4, v5, v6, v7, m, t - 8)
    requires Keys(t, k0, k1, k2, k3, k4, k5, k6, k7)
    ensures After(instr, Regs(a, b, c, d, e, f, g, h), r, m, t + 8)
    ensures Hold(instr, w0, w1, w2, w3, w4, w5, w6, w7, m, t)
  {
    hide VRounds, VW, K, VInc, VSmall0, VSmall1, Sixteen, Is, View, After, Wide;
    ghost var n := instr.way;
    a, b, c, d, e, f, g, h := a0, b0, c0, d0, e0, f0, g0, h0;
    NextWord(m, n, t);
    w0 := RollWord(instr, u0, v6, v1, u1);
    d, h := KeyedRound(instr, a, b, c, d, e, f, g, h, k0, w0, t, m, r);
    NextWord(m, n, t + 1);
    w1 := RollWord(instr, u1, v7, v2, u2);
    c, g := KeyedRound(instr, h, a, b, c, d, e, f, g, k1, w1, t + 1, m, r);
    NextWord(m, n, t + 2);
    w2 := RollWord(instr, u2, w0, v3, u3);
    b, f := KeyedRound(instr, g, h, a, b, c, d, e, f, k2, w2, t + 2, m, r);
    NextWord(m, n, t + 3);
    w3 := RollWord(instr, u3, w1, v4, u4);
    a, e := KeyedRound(instr, f, g, h, a, b, c, d, e, k3, w3, t + 3, m, r);
    NextWord(m, n, t + 4);
    w4 := RollWord(instr, u4, w2, v5, u5);
    h, d := KeyedRound(instr, e, f, g, h, a, b, c, d, k4, w4, t + 4, m, r);
    NextWord(m, n, t + 5);
    w5 := RollWord(instr, u5, w3, v6, u6);
    g, c := KeyedRound(instr, d, e, f, g, h, a, b, c, k5, w5, t + 5, m, r);
    NextWord(m, n, t + 6);
    w6 := RollWord(instr, u6, w4, v7, u7);
    f, b := KeyedRound(instr, c, d, e, f, g, h, a, b, k6, w6, t + 6, m, r);
    NextWord(m, n, t + 7);
    w7 := RollWord(instr, u7, w5, w0, v0);
    e, a := KeyedRound(instr, b, c, d, e, f, g, h, a, k7, w7, t + 7, m, r);
  }

  function VBlock(r: Regs<Vec>, n: nat, block: seq<Byte>): (s: Regs<Vec>)
    requires Wide(r, n) && |block| >= 64 * n
    ensures Wide(s, n)
  {
    VAddRegs(VRounds(r, n, BlockOf(block, n), 64), r, n)
  }

  lemma BlockStarts(instr: Instr, x: Regs<Value>, block: seq<Byte>)
    requires Are(instr, x) && |block| >= 64 * instr.way
    ensures Sixteen(BlockOf(block, instr.way), instr.way) && Wide(Views(instr, x), instr.way)
    ensures After(instr, x, Views(instr, x), BlockOf(block, instr.way), 0)
  {
    hide VLoad, View, Is;
  }

  // The final additions.
  method AddBack(instr: Instr, a0: Value, b0: Value, c0: Value, d0: Value, e0: Value, f0: Value, g0: Value, h0: Value,
                 oa: Value, ob: Value, oc: Value, od: Value, oe: Value, of: Value, og: Value, oh: Value,
                 ghost block: seq<Byte>)
    returns (a: Value, b: Value, c: Value, d: Value, e: Value, f: Value, g: Value, h: Value)
    requires Are(instr, Regs(oa, ob, oc, od, oe, of, og, oh)) && |block| >= 64 * instr.way
    requires After(instr, Regs(a0, b0, c0, d0, e0, f0, g0, h0), Views(instr, Regs(oa, ob, oc, od, oe, of, og, oh)),
                   BlockOf(block, instr.way), 64)
    ensures Are(instr, Regs(a, b, c, d, e, f, g, h))
    ensures Views(instr, Regs(a, b, c, d, e, f, g, h))
         == VBlock(Views(instr, Regs(oa, ob, oc, od, oe, of, og, oh)), instr.way, block)
  {
    hide VRounds, BlockOf, VAdd, Is, View, Sixteen;
    a := OpAdd(instr, a0, oa);
    b := OpAdd(instr, b0, ob);
    c := OpAdd(instr, c0, oc);
    d := OpAdd(instr, d0, od);
    e := OpAdd(instr, e0, oe);
    f := OpAdd(instr, f0, of);
    g := OpAdd(instr, g0, og);
    h := OpAdd(instr, h0, oh);
  }

  method ProcessBlock(instr: Instr, a0: Value, b0: Value, c0: Value, d0: Value, e0: Value, f0: Value, g0: Value,
                      h0: Value,
                      block: seq<Byte>)
    returns (a: Value, b: Value, c: Value, d: Value, e: Value, f: Value, g: Value, h: Value)
    requires Are(instr, Regs(a0, b0, c0, d0, e0, f0, g0, h0)) && |block| >= 64 * instr.way
    ensures Are(instr, Regs(a, b, c, d, e, f, g, h))
    ensures Views(instr, Regs(a, b, c, d, e, f, g, h)) ==
        VBlock(Views(instr, Regs(a0, b0, c0, d0, e0, f0, g0, h0)), instr.way, block)
  {
    hide *;
    ghost var m := BlockOf(block, instr.way);
    ghost var r := Views(instr, Regs(a0, b0, c0, d0, e0, f0, g0, h0));
    BlockStarts(instr, Regs(a0, b0, c0, d0, e0, f0, g0, h0), block);
    Constants0();
    Constants8();
    var w0, w1, w2, w3, w4, w5, w6, w7;
    var w8, w9, w10, w11, w12, w13, w14, w15;
    a, b, c, d, e, f, g, h, w0, w1, w2, w3, w4, w5, w6, w7 :=
      LoadEight(instr, a0, b0, c0, d0, e0, f0, g0, h0,
                0x428a2f98, 0x71374491, 0xb5c0fbcf, 0xe9b5dba5, 0x3956c25b, 0x59f111f1, 0x923f82a4, 0xab1c5ed5,
                block, 0, m, r);
    a, b, c, d, e, f, g, h, w8, w9, w10, w11, w12, w13, w14, w15 :=
      LoadEight(instr, a, b, c, d, e, f, g, h,
                0xd807aa98, 0x12835b01, 0x243185be, 0x550c7dc3, 0x72be5d74, 0x80deb1fe, 0x9bdc06a7, 0xc19bf174,
                block, 8, m, r);
    Constants16();
    a, b, c, d, e, f, g, h, w0, w1, w2, w3, w4, w5, w6, w7 :=
      RollEight(instr, a, b, c, d, e, f, g, h, w0, w1, w2, w3, w4, w5, w6, w7, w8, w9, w10, w11, w12, w13, w14, w15,
                0xe49b69c1, 0xefbe4786, 0x0fc19dc6, 0x240ca1cc, 0x2de92c6f, 0x4a7484aa, 0x5cb0a9dc, 0x76f988da,
                16, m, r);
    Constants24();
    a, b, c, d, e, f, g, h, w8, w9, w10, w11, w12, w13, w14, w15 :=
      RollEight(instr, a, b, c, d, e, f, g, h, w8, w9, w10, w11, w12, w13, w14, w15, w0, w1, w2, w3, w4, w5, w6, w7,
                0x983e5152, 0xa831c66d, 0xb00327c8, 0xbf597fc7, 0xc6e00bf3, 0xd5a79147, 0x06ca6351, 0x14292967,
                24, m, r);
    Constants32();
    a, b, c, d, e, f, g, h, w0, w1, w2, w3, w4, w5, w6, w7 :=
      RollEight(instr, a, b, c, d, e, f, g, h, w0, w1, w2, w3, w4, w5, w6, w7, w8, w9, w10, w11, w12, w13, w14, w15,
                0x27b70a85, 0x2e1b2138, 0x4d2c6dfc, 0x53380d13, 0x650a7354, 0x766a0abb, 0x81c2c92e, 0x92722c85,
                32, m, r);
    Constants40();
    a, b, c, d, e, f, g, h, w8, w9, w10, w11, w12, w13, w14, w15 :=
      RollEight(instr, a, b, c, d, e, f, g, h, w8, w9, w10, w11, w12, w13, w14, w15, w0, w1, w2, w3, w4, w5, w6, w7,
                0xa2bfe8a1, 0xa81a664b, 0xc24b8b70, 0xc76c51a3, 0xd192e819, 0xd6990624, 0xf40e3585, 0x106aa070,
                40, m, r);
    Constants48();
    a, b, c, d, e, f, g, h, w0, w1, w2, w3, w4, w5, w6, w7 :=
      RollEight(instr, a, b, c, d, e, f, g, h, w0, w1, w2, w3, w4, w5, w6, w7, w8, w9, w10, w11, w12, w13, w14, w15,
                0x19a4c116, 0x1e376c08, 0x2748774c, 0x34b0bcb5, 0x391c0cb3, 0x4ed8aa4a, 0x5b9cca4f, 0x682e6ff3,
                48, m, r);
    Constants56();
    a, b, c, d, e, f, g, h, w8, w9, w10, w11, w12, w13, w14, w15 :=
      RollEight(instr, a, b, c, d, e, f, g, h, w8, w9, w10, w11, w12, w13, w14, w15, w0, w1, w2, w3, w4, w5, w6, w7,
                0x748f82ee, 0x78a5636f, 0x84c87814, 0x8cc70208, 0x90befffa, 0xa4506ceb, 0xbef9a3f7, 0xc67178f2,
                56, m, r);
    a, b, c, d, e, f, g, h := AddBack(instr, a, b, c, d, e, f, g, h, a0, b0, c0, d0, e0, f0, g0, h0, block);
  }

  lemma Constants0()
    ensures Keys(0, 0x428a2f98, 0x71374491, 0xb5c0fbcf, 0xe9b5dba5, 0x3956c25b, 0x59f111f1, 0x923f82a4, 0xab1c5ed5)
  {
  }

  lemma Constants8()
    ensures Keys(8, 0xd807aa98, 0x12835b01, 0x243185be, 0x550c7dc3, 0x72be5d74, 0x80deb1fe, 0x9bdc06a7, 0xc19bf174)
  {
  }

  lemma Constants16()
    ensures Keys(16, 0xe49b69c1, 0xefbe4786, 0x0fc19dc6, 0x240ca1cc, 0x2de92c6f, 0x4a7484aa, 0x5cb0a9dc, 0x76f988da)
  {
  }

  lemma Constants24()
    ensures Keys(24, 0x983e5152, 0xa831c66d, 0xb00327c8, 0xbf597fc7, 0xc6e00bf3, 0xd5a79147, 0x06ca6351, 0x14292967)
  {
  }

  lemma Constants32()
    ensures Keys(32, 0x27b70a85, 0x2e1b2138, 0x4d2c6dfc, 0x53380d13, 0x650a7354, 0x766a0abb, 0x81c2c92e, 0x92722c85)
  {
  }

  lemma Constants40()
    ensures Keys(40, 0xa2bfe8a1, 0xa81a664b, 0xc24b8b70, 0xc76c51a3, 0xd192e819, 0xd6990624, 0xf40e3585, 0x106aa070)
  {
  }

  lemma Constants48()
    ensures Keys(48, 0x19a4c116, 0x1e376c08, 0x2748774c, 0x34b0bcb5, 0x391c0cb3, 0x4ed8aa4a, 0x5b9cca4f, 0x682e6ff3)
  {
  }

  lemma Constants56()
    ensures Keys(56, 0x748f82ee, 0x78a5636f, 0x84c87814, 0x8cc70208, 0x90befffa, 0xa4506ceb, 0xbef9a3f7, 0xc67178f2)
  {
  }

  // A lane's words are the words of its own 64 bytes.
  lemma LaneBlock(block: seq<Byte>, n: nat, i: nat)
    requires i < n && |block| >= 64 * n
    ensures LaneWords(BlockOf(block, n), n, i) == BlockWords(block[64 * i..64 * i + 64])
  {
    hide BigWord;
    var own := block[64 * i..64 * i + 64];
    forall t | 0 <= t < 16
      ensures LaneWords(BlockOf(block, n), n, i)[t] == BlockWords(own)[t]
    {
      assert own[4 * t] == block[4 * t + 64 * i] && own[4 * t + 1] == block[4 * t + 64 * i + 1];
      assert own[4 * t + 2] == block[4 * t + 64 * i + 2] && own[4 * t + 3] == block[4 * t + 64 * i + 3];
    }
  }

  lemma LaneOfSum(r: Regs<Vec>, s: Regs<Vec>, n: nat, i: nat)
    requires Wide(r, n) && Wide(s, n) && i < n
    ensures Lane(VAddRegs(r, s, n), n, i) == AddRegs(Lane(r, n, i), Lane(s, n, i))
  {
    hide Add32;
  }

  // One block: every lane compresses its own block.
  lemma LaneOfBlock(r: Regs<Vec>, n: nat, block: seq<Byte>, i: nat)
    requires Wide(r, n) && |block| >= 64 * n && i < n
    ensures Lane(VBlock(r, n, block), n, i) == Compress(Lane(r, n, i), block[64 * i..64 * i + 64])
  {
    hide VRounds, RoundsOf, BlockOf, BlockWords, VAddRegs, AddRegs;
    LaneBlock(block, n, i);
    LaneOfRounds(r, n, BlockOf(block, n), 64, i);
    LaneOfSum(VRounds(r, n, BlockOf(block, n), 64), r, n, i);
  }

  // ----- all blocks -----

  // `count` blocks for each of `way` lanes.
  predicate Trunk(blocks: seq<Byte>, way: nat, count: nat) {
    count > 0 ==> |blocks| >= 64 * way && Trunk(blocks[64 * way..], way, count - 1)
  }

  lemma {:induction false} TrunkIs(blocks: seq<Byte>, way: nat, count: nat)
    requires |blocks| >= 64 * way * count
    ensures Trunk(blocks, way, count)
    decreases count
  {
    if count > 0 {
      assert 64 * way * count == 64 * way + 64 * way * (count - 1);
      TrunkIs(blocks[64 * way..], way, count - 1);
    }
  }

  // Lane `i` chained over its own blocks, which lie 64 * way bytes apart.
  function Chained(r: Regs<bv32>, blocks: seq<Byte>, way: nat, i: nat, count: nat): Regs<bv32>
    requires Trunk(blocks, way, count) && i < way
    decreases count
  {
    if count == 0 then r
    else Chained(Compress(r, blocks[64 * i..64 * i + 64]), blocks[64 * way..], way, i, count - 1)
  }

  // Lane `i`'s own message.
  function LaneMessage(blocks: seq<Byte>, way: nat, i: nat, count: nat): (m: seq<Byte>)
    requires Trunk(blocks, way, count) && i < way
    ensures |m| == 64 * count
    decreases count
  {
    if count == 0 then [] else blocks[64 * i..64 * i + 64] + LaneMessage(blocks[64 * way..], way, i, count - 1)
  }

  lemma {:induction false} ChainedIsChain(r: Regs<bv32>, blocks: seq<Byte>, way: nat, i: nat, count: nat)
    requires Trunk(blocks, way, count) && i < way
    ensures Chained(r, blocks, way, i, count) == ChainOf(r, LaneMessage(blocks, way, i, count))
    decreases count
  {
    hide Compress;
    if count > 0 {
      var own, rest := blocks[64 * i..64 * i + 64], LaneMessage(blocks[64 * way..], way, i, count - 1);
      ChainedIsChain(Compress(r, own), blocks[64 * way..], way, i, count - 1);
      assert (own + rest)[..64] == own && (own + rest)[64..] == rest;
    }
  }

  // The distance from a lane's first block to its block `b`.
  function Stride(way: nat, b: nat): nat {
    if b == 0 then 0 else 64 * way + Stride(way, b - 1)
  }

  lemma {:induction false} StrideIs(way: nat, b: nat)
    ensures Stride(way, b) == 64 * way * b
  {
    if b > 0 {
      StrideIs(way, b - 1);
      assert 64 * way * b == 64 * way + 64 * way * (b - 1);
    }
  }

  lemma MessageStep(blocks: seq<Byte>, way: nat, i: nat, count: nat)
    requires Trunk(blocks, way, count) && i < way && count > 0
    ensures |blocks| >= 64 * way && Trunk(blocks[64 * way..], way, count - 1)
    ensures 64 * i + 64 <= 64 * way
    ensures LaneMessage(blocks, way, i, count)
         == blocks[64 * i..64 * i + 64] + LaneMessage(blocks[64 * way..], way, i, count - 1)
  {
  }

  lemma LaterBlock(own: seq<Byte>, rest: seq<Byte>, b: nat)
    requires |own| == 64 && 64 * b <= |rest|
    ensures b > 0 ==> (own + rest)[64 * b..64 * b + 64] == rest[64 * (b - 1)..64 * (b - 1) + 64]
    ensures (own + rest)[0..64] == own
  {
  }

  // Block `b` of the message lies at 64 * way * b + 64 * i of the blocks.
  lemma {:induction false} MessageAt(blocks: seq<Byte>, way: nat, i: nat, count: nat, b: nat)
    requires Trunk(blocks, way, count) && i < way && b < count
    ensures Stride(way, b) + 64 * i + 64 <= |blocks|
    ensures LaneMessage(blocks, way, i, count)[64 * b..64 * b + 64]
         == blocks[Stride(way, b) + 64 * i..Stride(way, b) + 64 * i + 64]
    decreases count
  {
    hide Trunk, LaneMessage;
    MessageStep(blocks, way, i, count);
    LaterBlock(blocks[64 * i..64 * i + 64], LaneMessage(blocks[64 * way..], way, i, count - 1), b);
    if b > 0 {
      MessageAt(blocks[64 * way..], way, i, count - 1, b - 1);
      LaterSlice(blocks, 64 * way, Stride(way, b) + 64 * i);
    }
  }

  lemma LaterSlice(s: seq<Byte>, k: nat, p: nat)
    requires k <= p && p + 64 <= |s|
    ensures s[k..][p - k..p - k + 64] == s[p..p + 64]
  {
  }

  function StartRegs(way: nat): (r: Regs<Vec>)
    ensures Wide(r, way)
  {
    Regs(Broadcast(0x6a09e667, way), Broadcast(0xbb67ae85, way), Broadcast(0x3c6ef372, way), Broadcast(0xa54ff53a, way),
         Broadcast(0x510e527f, way), Broadcast(0x9b05688c, way), Broadcast(0x1f83d9ab, way), Broadcast(0x5be0cd19, way))
  }

  lemma StartLane(way: nat, i: nat)
    requires i < way
    ensures Lane(StartRegs(way), way, i) == Iv()
  {
  }

  // What is still to do from position `pos`, for every lane.
  ghost predicate LanesToDo(r: Regs<Vec>, way: nat, rest: seq<Byte>, left: nat, blocks: seq<Byte>, count: nat) {
    && Wide(r, way) && Trunk(rest, way, left) && Trunk(blocks, way, count)
    && forall i :: 0 <= i < way ==>
         Chained(Lane(r, way, i), rest, way, i, left) == Chained(Iv(), blocks, way, i, count)
  }

  lemma LanesStart(way: nat, blocks: seq<Byte>, count: nat)
    requires Trunk(blocks, way, count)
    ensures LanesToDo(StartRegs(way), way, blocks, count, blocks, count)
  {
    hide Chained, StartRegs, Iv, Lane, Trunk;
    forall i | 0 <= i < way
      ensures Chained(Lane(StartRegs(way), way, i), blocks, way, i, count) == Chained(Iv(), blocks, way, i, count)
    {
      StartLane(way, i);
    }
  }

  lemma LanesStep(r: Regs<Vec>, way: nat, rest: seq<Byte>, left: nat, blocks: seq<Byte>, count: nat)
    requires LanesToDo(r, way, rest, left, blocks, count) && left > 0
    ensures |rest| >= 64 * way && Wide(r, way)
    ensures LanesToDo(VBlock(r, way, rest), way, rest[64 * way..], left - 1, blocks, count)
  {
    hide VBlock, Compress, Iv;
    forall i | 0 <= i < way
      ensures Chained(Lane(VBlock(r, way, rest), way, i), rest[64 * way..], way, i, left - 1) ==
          Chained(Iv(), blocks, way, i, count)
    {
      LaneOfBlock(r, way, rest, i);
    }
  }

  // Every lane holds the chain over all of its blocks.
  ghost predicate LanesDone(r: Regs<Vec>, way: nat, blocks: seq<Byte>, count: nat) {
    && Wide(r, way) && Trunk(blocks, way, count)
    && forall i :: 0 <= i < way ==> Lane(r, way, i) == Chained(Iv(), blocks, way, i, count)
  }

  lemma LanesEnd(r: Regs<Vec>, way: nat, rest: seq<Byte>, blocks: seq<Byte>, count: nat)
    requires LanesToDo(r, way, rest, 0, blocks, count)
    ensures LanesDone(r, way, blocks, count)
  {
    hide Iv, Lane;
    forall i | 0 <= i < way
      ensures Lane(r, way, i) == Chained(Iv(), blocks, way, i, count)
    {
      assert Chained(Lane(r, way, i), rest, way, i, 0) == Lane(r, way, i);
    }
  }

  function Place(i: nat, j: nat, b: nat): nat {
    32 * i + 4 * j + b
  }

  // The first `k` registers are saved, each in its four bytes of every lane's digest.
  ghost predicate Saved(out: seq<Byte>, r: Regs<Vec>, way: nat, k: nat) {
    && Wide(r, way) && |out| >= 32 * way && k <= 8
    && forall i, j, b :: 0 <= i < way && 0 <= j < k && 0 <= b < 4 ==>
         out[Place(i, j, b)] == BigByte(Reg(Lane(r, way, i), j), b)
  }

  function VReg(r: Regs<Vec>, j: nat): Vec
    requires j < 8
  {
    if j == 0 then r.a else if j == 1 then r.b else if j == 2 then r.c else if j == 3 then r.d
    else if j == 4 then r.e else if j == 5 then r.f else if j == 6 then r.g else r.h
  }

  lemma RegOfLane(r: Regs<Vec>, way: nat, i: nat, j: nat)
    requires Wide(r, way) && i < way && j < 8
    ensures |VReg(r, j)| == way && Reg(Lane(r, way, i), j) == VReg(r, j)[i]
  {
  }

  lemma DigestsInMemory(size: nat, way: nat, k: nat)
    requires size >= 32 * way && k < 8
    ensures InMemory(size, 32, 4 * k, way)
  {
  }

  // The words of different registers do not overlap.
  lemma Apart(i: nat, j: nat, b: nat, i2: nat, k: nat)
    requires j < k < 8 && b < 4
    ensures !(At(32, 4 * k, i2) <= Place(i, j, b) < At(32, 4 * k, i2) + 4)
  {
    if i2 >= i {
      assert 32 * i2 + 4 * k >= 32 * i + 4 * j + 4;
    } else {
      assert 32 * i2 + 4 * k + 4 <= 32 * i;
    }
  }

  lemma SaveNext(before: seq<Byte>, after: seq<Byte>, r: Regs<Vec>, way: nat, k: nat)
    requires k < 8 && Saved(before, r, way, k) && |VReg(r, k)| == way && InMemory(|before|, 32, 4 * k, way)
    requires after == AfterSave(before, VReg(r, k), 32, 4 * k, way)
    ensures Saved(after, r, way, k + 1)
    ensures after[32 * way..] == before[32 * way..]
  {
    hide BigByte, Reg, VReg, Lane, AfterSave;
    var v := VReg(r, k);
    forall i, j, b | 0 <= i < way && 0 <= j < k + 1 && 0 <= b < 4
      ensures after[Place(i, j, b)] == BigByte(Reg(Lane(r, way, i), j), b)
    {
      if j == k {
        RegOfLane(r, way, i, k);
        SavedWord(before, v, 32, 4 * k, way, i, b);
      } else {
        forall i2 | 0 <= i2 < way
          ensures !(At(32, 4 * k, i2) <= Place(i, j, b) < At(32, 4 * k, i2) + 4)
        {
          Apart(i, j, b, i2, k);
        }
        SavedElsewhere(before, v, 32, 4 * k, way, Place(i, j, b));
      }
    }
    forall q | 32 * way <= q < |before|
      ensures after[q] == before[q]
    {
      SavedElsewhere(before, v, 32, 4 * k, way, q);
    }
  }

  lemma DigestAt(r: Regs<bv32>, k: nat)
    requires k < 32
    ensures DigestOf(r)[k] == BigByte(Reg(r, k / 4), k % 4)
  {
    hide BigByte, Reg;
  }

  lemma SavedAt(out: seq<Byte>, r: Regs<Vec>, way: nat, i: nat, j: nat, b: nat)
    requires Saved(out, r, way, 8) && i < way && j < 8 && b < 4
    ensures Wide(r, way) && |out| >= 32 * way && Place(i, j, b) < |out|
    ensures out[Place(i, j, b)] == BigByte(Reg(Lane(r, way, i), j), b)
  {
    hide BigByte, Reg, Lane;
  }

  lemma PlaceOf(i: nat, k: nat)
    ensures Place(i, k / 4, k % 4) == 32 * i + k
  {
  }

  lemma SavedIsWide(out: seq<Byte>, r: Regs<Vec>, way: nat)
    requires Saved(out, r, way, 8)
    ensures Wide(r, way) && |out| >= 32 * way
  {
    hide BigByte, Reg, Lane;
  }

  lemma SavedAll(out: seq<Byte>, r: Regs<Vec>, way: nat, i: nat)
    requires Saved(out, r, way, 8) && i < way
    ensures Wide(r, way) && |out| >= 32 * way
    ensures out[32 * i..32 * i + 32] == DigestOf(Lane(r, way, i))
  {
    hide *;
    SavedIsWide(out, r, way);
    forall k | 0 <= k < 32
      ensures out[32 * i + k] == DigestOf(Lane(r, way, i))[k]
    {
      PlaceOf(i, k);
      SavedAt(out, r, way, i, k / 4, k % 4);
      DigestAt(Lane(r, way, i), k);
    }
  }

  method SaveRegister(instr: Instr, value: Value, out: array<Byte>, k: nat, ghost r: Regs<Vec>)
    requires k < 8 && Saved(out[..], r, instr.way, k) && Is(instr, value) && View(instr, value) == VReg(r, k)
    modifies out
    ensures Saved(out[..], r, instr.way, k + 1)
    ensures out[32 * instr.way..] == old(out[32 * instr.way..])
  {
    ghost var before := out[..];
    assert |before| >= 32 * instr.way;
    hide Saved, VReg, AfterSave, Is, View, InMemory;
    DigestsInMemory(|before|, instr.way, k);
    Save(instr, value, out, 32, 4 * k);
    SaveNext(before, out[..], r, instr.way, k);
    assert out[..][32 * instr.way..] == out[32 * instr.way..];
    assert before[32 * instr.way..] == old(out[32 * instr.way..]);
  }

  method SaveAll(instr: Instr, a: Value, b: Value, c: Value, d: Value, e: Value, f: Value, g: Value, h: Value,
                 out: array<Byte>)
    requires Are(instr, Regs(a, b, c, d, e, f, g, h)) && out.Length >= 32 * instr.way
    modifies out
    ensures Saved(out[..], Views(instr, Regs(a, b, c, d, e, f, g, h)), instr.way, 8)
    ensures out[32 * instr.way..] == old(out[32 * instr.way..])
  {
    ghost var r := Views(instr, Regs(a, b, c, d, e, f, g, h));
    assert Saved(out[..], r, instr.way, 0);
    assert View(instr, a) == VReg(r, 0) && View(instr, b) == VReg(r, 1);
    assert View(instr, c) == VReg(r, 2) && View(instr, d) == VReg(r, 3);
    assert View(instr, e) == VReg(r, 4) && View(instr, f) == VReg(r, 5);
    assert View(instr, g) == VReg(r, 6) && View(instr, h) == VReg(r, 7);
    hide Saved, VReg, Is, View;
    SaveRegister(instr, a, out, 0, r);
    SaveRegister(instr, b, out, 1, r);
    SaveRegister(instr, c, out, 2, r);
    SaveRegister(instr, d, out, 3, r);
    SaveRegister(instr, e, out, 4, r);
    SaveRegister(instr, f, out, 5, r);
    SaveRegister(instr, g, out, 6, r);
    SaveRegister(instr, h, out, 7, r);
  }

  // The loop over the blocks.
  method AllBlocks(instr: Instr, a0: Value, b0: Value, c0: Value, d0: Value, e0: Value, f0: Value, g0: Value, h0: Value,
                   blocks: seq<Byte>, count: nat)
    returns (a: Value, b: Value, c: Value, d: Value, e: Value, f: Value, g: Value, h: Value)
    requires Are(instr, Regs(a0, b0, c0, d0, e0, f0, g0, h0))
    requires LanesToDo(Views(instr, Regs(a0, b0, c0, d0, e0, f0, g0, h0)), instr.way, blocks, count, blocks, count)
    ensures Are(instr, Regs(a, b, c, d, e, f, g, h))
    ensures LanesDone(Views(instr, Regs(a, b, c, d, e, f, g, h)), instr.way, blocks, count)
  {
    hide *;
    a, b, c, d, e, f, g, h := a0, b0, c0, d0, e0, f0, g0, h0;
    var curBlock, left := blocks, count;
    while left > 0
      invariant Are(instr, Regs(a, b, c, d, e, f, g, h))
      invariant LanesToDo(Views(instr, Regs(a, b, c, d, e, f, g, h)), instr.way, curBlock, left, blocks, count)
    {
      LanesStep(Views(instr, Regs(a, b, c, d, e, f, g, h)), instr.way, curBlock, left, blocks, count);
      a, b, c, d, e, f, g, h := ProcessBlock(instr, a, b, c, d, e, f, g, h, curBlock);
      curBlock := curBlock[64 * instr.way..];
      left := left - 1;
    }
    LanesEnd(Views(instr, Regs(a, b, c, d, e, f, g, h)), instr.way, curBlock, blocks, count);
  }

  // The eight broadcasts at the start.
  method Start(instr: Instr)
    returns (a: Value, b: Value, c: Value, d: Value, e: Value, f: Value, g: Value, h: Value)
    ensures Are(instr, Regs(a, b, c, d, e, f, g, h))
    ensures Views(instr, Regs(a, b, c, d, e, f, g, h)) == StartRegs(instr.way)
  {
    hide Is, View, Broadcast;
    a := OpBroadcast(instr, 0x6a09e667);
    b := OpBroadcast(instr, 0xbb67ae85);
    c := OpBroadcast(instr, 0x3c6ef372);
    d := OpBroadcast(instr, 0xa54ff53a);
    e := OpBroadcast(instr, 0x510e527f);
    f := OpBroadcast(instr, 0x9b05688c);
    g := OpBroadcast(instr, 0x1f83d9ab);
    h := OpBroadcast(instr, 0x5be0cd19);
  }

  lemma LaneDigest(out: seq<Byte>, r: Regs<Vec>, way: nat, blocks: seq<Byte>, count: nat, i: nat)
    requires Saved(out, r, way, 8) && LanesDone(r, way, blocks, count) && i < way
    ensures Trunk(blocks, way, count) && |out| >= 32 * way
    ensures out[32 * i..32 * i + 32] == DigestOf(ChainOf(Iv(), LaneMessage(blocks, way, i, count)))
  {
    hide DigestOf, Iv, Chained, Trunk, LaneMessage, ChainOf;
    ChainedIsChain(Iv(), blocks, way, i, count);
    SavedAll(out, r, way, i);
  }

  // process_trunk, over either lane type: the 32 bytes of the output at 32 * i are the chained
  // SHA-256 compression of lane i's own blocks.
  method ProcessTrunk(instr: Instr, out: array<Byte>, blocks: seq<Byte>, count: nat)
    requires out.Length >= 32 * instr.way && |blocks| >= 64 * instr.way * count
    modifies out
    ensures Trunk(blocks, instr.way, count)
    ensures forall i :: 0 <= i < instr.way ==>
              out[32 * i..32 * i + 32] == DigestOf(ChainOf(Iv(), LaneMessage(blocks, instr.way, i, count)))
    ensures out[32 * instr.way..] == old(out[32 * instr.way..])
  {
    hide *;
    TrunkIs(blocks, instr.way, count);
    LanesStart(instr.way, blocks, count);
    var a, b, c, d, e, f, g, h := Start(instr);
    a, b, c, d, e, f, g, h := AllBlocks(instr, a, b, c, d, e, f, g, h, blocks, count);
    SaveAll(instr, a, b, c, d, e, f, g, h, out);
    forall i | 0 <= i < instr.way
      ensures out[32 * i..32 * i + 32] == DigestOf(ChainOf(Iv(), LaneMessage(blocks, instr.way, i, count)))
    {
      LaneDigest(out[..], Views(instr, Regs(a, b, c, d, e, f, g, h)), instr.way, blocks, count, i);
      assert out[..][32 * i..32 * i + 32] == out[32 * i..32 * i + 32];
    }
  }
}
