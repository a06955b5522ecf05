/**
 The two lane types of multiway_integer.hpp at 32-bit lanes. `multiway_integer` keeps all lanes in
 one packed machine word and reaches single lanes through a union; `multiway_integer_slow` keeps an
 array. Both are proved against the same lane-wise functions. A value of the code that is generic in
 the lane type is a `Value` of either type, and its lanes are its `View`. The packed word is modelled
 as its bytes in memory, little-endian.
 */
module Lanes {
  import opened Words
  import opened Words32
  import opened Sha256

  // One word per lane.
  type Vec = seq<bv32>

  function Or32(x: bv32, y: bv32): bv32 {
    x | y
  }

  function And32(x: bv32, y: bv32): bv32 {
    x & y
  }

  function Not32(x: bv32): bv32 {
    !x
  }

  function Shl32(x: bv32, n: bv32): bv32
    requires n < 32
  {
    x << n
  }

  function Shr32(x: bv32, n: bv32): bv32
    requires n < 32
  {
    x >> n
  }

  function Rol32(x: bv32, n: bv32): bv32
    requires 0 < n < 32
  {
    (x << n) | (x >> (32 - n))
  }

  lemma RolOfShifts(x: bv32, n: bv32)
    requires 0 < n < 32
    ensures Rol32(x, n) == Or32(Shl32(x, n), Shr32(x, 32 - n))
  {
  }

  // ----- the lane-wise operations -----

  function Broadcast(x: bv32, way: nat): (r: Vec)
    ensures |r| == way
  {
    seq(way, i => x)
  }

  function VAdd(x: Vec, y: Vec): (r: Vec)
    requires |x| == |y|
    ensures |r| == |x|
  {
    seq(|x|, i requires 0 <= i < |x| => Add32(x[i], y[i]))
  }

  function VXor(x: Vec, y: Vec): (r: Vec)
    requires |x| == |y|
    ensures |r| == |x|
  {
    seq(|x|, i requires 0 <= i < |x| => Xor32(x[i], y[i]))
  }

  function VOr(x: Vec, y: Vec): (r: Vec)
    requires |x| == |y|
    ensures |r| == |x|
  {
    seq(|x|, i requires 0 <= i < |x| => Or32(x[i], y[i]))
  }

  function VAnd(x: Vec, y: Vec): (r: Vec)
    requires |x| == |y|
    ensures |r| == |x|
  {
    seq(|x|, i requires 0 <= i < |x| => And32(x[i], y[i]))
  }

  function VNot(x: Vec): (r: Vec)
    ensures |r| == |x|
  {
    seq(|x|, i requires 0 <= i < |x| => Not32(x[i]))
  }

  function VShl(x: Vec, n: bv32): (r: Vec)
    requires n < 32
    ensures |r| == |x|
  {
    seq(|x|, i requires 0 <= i < |x| => Shl32(x[i], n))
  }

  function VShr(x: Vec, n: bv32): (r: Vec)
    requires n < 32
    ensures |r| == |x|
  {
    seq(|x|, i requires 0 <= i < |x| => Shr32(x[i], n))
  }

  function VRol(x: Vec, n: bv32): (r: Vec)
    requires 0 < n < 32
    ensures |r| == |x|
  {
    seq(|x|, i requires 0 <= i < |x| => Rol32(x[i], n))
  }

  // ----- memory: lane `i` has its word at `offset` in its own block of blkSize bytes -----

  function At(blkSize: nat, offset: nat, i: nat): nat {
    offset + blkSize * i
  }

  // Every lane's word lies inside `size` bytes.
  predicate InMemory(size: nat, blkSize: nat, offset: nat, way: nat) {
    forall i :: 0 <= i < way ==> At(blkSize, offset, i) + 4 <= size
  }

  // read_big
  function ReadBig(mem: seq<Byte>, p: nat): bv32
    requires p + 4 <= |mem|
  {
    BigWord(mem[p], mem[p + 1], mem[p + 2], mem[p + 3])
  }

  function VLoad(mem: seq<Byte>, blkSize: nat, offset: nat, way: nat): (r: Vec)
    requires InMemory(|mem|, blkSize, offset, way)
    ensures |r| == way
  {
    seq(way, i requires 0 <= i < way => ReadBig(mem, At(blkSize, offset, i)))
  }

  // The memory after a big-endian word was written at `p`.
  function PutBig(mem: seq<Byte>, p: nat, w: bv32): (r: seq<Byte>)
    requires p + 4 <= |mem|
    ensures |r| == |mem|
  {
    mem[p := BigByte(w, 0)][p + 1 := BigByte(w, 1)][p + 2 := BigByte(w, 2)][p + 3 := BigByte(w, 3)]
  }

  // write_big
  method WriteBig(out: array<Byte>, p: nat, w: bv32)
    requires p + 4 <= out.Length
    modifies out
    ensures out[..] == PutBig(old(out[..]), p, w)
  {
    hide BigByte;
    out[p] := BigByte(w, 0);
    out[p + 1] := BigByte(w, 1);
    out[p + 2] := BigByte(w, 2);
    out[p + 3] := BigByte(w, 3);
  }

  // The memory after the first `n` lanes were written, one after the other.
  function AfterSave(mem: seq<Byte>, value: Vec, blkSize: nat, offset: nat, n: nat): (r: seq<Byte>)
    requires n <= |value| && InMemory(|mem|, blkSize, offset, |value|)
    ensures |r| == |mem|
    decreases n, mem
  {
    if n == 0 then mem
    else PutBig(AfterSave(mem, value, blkSize, offset, n - 1), At(blkSize, offset, n - 1), value[n - 1])
  }

  lemma AtStep(blkSize: nat, offset: nat, i: nat)
    ensures At(blkSize, offset, i + 1) == At(blkSize, offset, i) + blkSize
  {
  }

  lemma {:induction false} AtNext(blkSize: nat, offset: nat, i: nat, j: nat)
    requires i < j
    ensures At(blkSize, offset, i) + blkSize <= At(blkSize, offset, j)
    decreases j
  {
    hide At;
    AtStep(blkSize, offset, j - 1);
    if i < j - 1 {
      AtNext(blkSize, offset, i, j - 1);
    }
  }

  // Lanes that do not overlap: each word is found at its place, as it was before in lanes not written.
  lemma {:induction false} SavedWord(mem: seq<Byte>, value: Vec, blkSize: nat, offset: nat, n: nat, i: nat, b: nat)
    requires n <= |value| && InMemory(|mem|, blkSize, offset, |value|) && 4 <= blkSize && i < |value| && b < 4
    ensures At(blkSize, offset, i) + 4 <= |mem|
    ensures AfterSave(mem, value, blkSize, offset, n)[At(blkSize, offset, i) + b]
         == if i < n then BigByte(value[i], b) else mem[At(blkSize, offset, i) + b]
    decreases n
  {
    hide BigByte, At;
    if n > 0 {
      SavedWord(mem, value, blkSize, offset, n - 1, i, b);
      if i < n - 1 {
        AtNext(blkSize, offset, i, n - 1);
      } else if n - 1 < i {
        AtNext(blkSize, offset, n - 1, i);
      }
    }
  }

  // Every other byte is unchanged.
  lemma {:induction false} SavedElsewhere(mem: seq<Byte>, value: Vec, blkSize: nat, offset: nat, n: nat, q: nat)
    requires n <= |value| && InMemory(|mem|, blkSize, offset, |value|) && q < |mem|
    requires forall i :: 0 <= i < n ==> !(At(blkSize, offset, i) <= q < At(blkSize, offset, i) + 4)
    ensures AfterSave(mem, value, blkSize, offset, n)[q] == mem[q]
    decreases n
  {
    hide BigByte, At;
    if n > 0 {
      SavedElsewhere(mem, value, blkSize, offset, n - 1, q);
    }
  }

  // ----- the packed type -----

  // stub[i] of the union.
  function Stub(p: seq<Byte>, i: nat): bv32
    requires 4 * i + 4 <= |p|
  {
    LittleWord(p[4 * i], p[4 * i + 1], p[4 * i + 2], p[4 * i + 3])
  }

  function SetStub(p: seq<Byte>, i: nat, w: bv32): (r: seq<Byte>)
    requires 4 * i + 4 <= |p|
    ensures |r| == |p|
  {
    p[4 * i := LittleByte(w, 0)][4 * i + 1 := LittleByte(w, 1)][4 * i + 2 := LittleByte(w,
        2)][4 * i + 3 := LittleByte(w, 3)]
  }

  function Unpacked(p: seq<Byte>, way: nat): (r: Vec)
    requires |p| == 4 * way
    ensures |r| == way
  {
    seq(way, i requires 0 <= i < way => Stub(p, i))
  }

  // Writing one stub leaves the others alone.
  lemma StubAfterSet(p: seq<Byte>, i: nat, w: bv32, j: nat)
    requires 4 * i + 4 <= |p| && 4 * j + 4 <= |p|
    ensures Stub(SetStub(p, i, w), j) == if i == j then w else Stub(p, j)
  {
    hide LittleWord, LittleByte;
    LittleOfBytes(w);
  }

  method PackedAdd(x: seq<Byte>, y: seq<Byte>, way: nat) returns (r: seq<Byte>)
    requires |x| == 4 * way && |y| == 4 * way
    ensures |r| == 4 * way && Unpacked(r, way) == VAdd(Unpacked(x, way), Unpacked(y, way))
  {
    hide Stub, SetStub, Add32, Shl32, Shr32, Rol32, Or32;
    r := x;
    var i := 0;
    while i < way
      invariant 0 <= i <= way && |r| == 4 * way
      invariant forall j :: 0 <= j < way ==> Stub(r, j) == if j < i then Add32(Stub(x, j), Stub(y, j)) else Stub(x, j)
    {
      var w := Add32(Stub(r, i), Stub(y, i));
      forall j | 0 <= j < way
        ensures Stub(SetStub(r, i, w), j) == if i == j then w else Stub(r, j)
      {
        StubAfterSet(r, i, w, j);
      }
      r := SetStub(r, i, w);
      i := i + 1;
    }
  }

  method PackedShr(x: seq<Byte>, n: bv32, way: nat) returns (r: seq<Byte>)
    requires |x| == 4 * way && n < 32
    ensures |r| == 4 * way && Unpacked(r, way) == VShr(Unpacked(x, way), n)
  {
    hide Stub, SetStub, Add32, Shl32, Shr32, Rol32, Or32;
    r := x;
    var i := 0;
    while i < way
      invariant 0 <= i <= way && |r| == 4 * way
      invariant forall j :: 0 <= j < way ==> Stub(r, j) == if j < i then Shr32(Stub(x, j), n) else Stub(x, j)
    {
      var w := Shr32(Stub(r, i), n);
      forall j | 0 <= j < way
        ensures Stub(SetStub(r, i, w), j) == if i == j then w else Stub(r, j)
      {
        StubAfterSet(r, i, w, j);
      }
      r := SetStub(r, i, w);
      i := i + 1;
    }
  }

  method PackedShl(x: seq<Byte>, n: bv32, way: nat) returns (r: seq<Byte>)
    requires |x| == 4 * way && n < 32
    ensures |r| == 4 * way && Unpacked(r, way) == VShl(Unpacked(x, way), n)
  {
    hide Stub, SetStub, Add32, Shl32, Shr32, Rol32, Or32;
    r := x;
    var i := 0;
    while i < way
      invariant 0 <= i <= way && |r| == 4 * way
      invariant forall j :: 0 <= j < way ==> Stub(r, j) == if j < i then Shl32(Stub(x, j), n) else Stub(x, j)
    {
      var w := Shl32(Stub(r, i), n);
      forall j | 0 <= j < way
        ensures Stub(SetStub(r, i, w), j) == if i == j then w else Stub(r, j)
      {
        StubAfterSet(r, i, w, j);
      }
      r := SetStub(r, i, w);
      i := i + 1;
    }
  }

  method PackedRol(x: seq<Byte>, n: bv32, way: nat) returns (r: seq<Byte>)
    requires |x| == 4 * way && 0 < n < 32
    ensures |r| == 4 * way && Unpacked(r, way) == VRol(Unpacked(x, way), n)
  {
    hide Stub, SetStub, Add32, Shl32, Shr32, Rol32, Or32;
    r := x;
    var i := 0;
    while i < way
      invariant 0 <= i <= way && |r| == 4 * way
      invariant forall j :: 0 <= j < way ==> Stub(r, j) == if j < i then Rol32(Stub(x, j), n) else Stub(x, j)
    {
      var w := Rol32(Stub(r, i), n);
      forall j | 0 <= j < way
        ensures Stub(SetStub(r, i, w), j) == if i == j then w else Stub(r, j)
      {
        StubAfterSet(r, i, w, j);
      }
      r := SetStub(r, i, w);
      i := i + 1;
    }
  }

  lemma XorStub(a0: Byte, a1: Byte, a2: Byte, a3: Byte, b0: Byte, b1: Byte, b2: Byte, b3: Byte)
    ensures LittleWord(a0 ^ b0, a1 ^ b1, a2 ^ b2, a3 ^ b3)
         == Xor32(LittleWord(a0, a1, a2, a3), LittleWord(b0, b1, b2, b3))
  {
  }

  // One operation on the whole machine word acts lane by lane.
  method PackedXor(x: seq<Byte>, y: seq<Byte>, way: nat) returns (r: seq<Byte>)
    requires |x| == 4 * way && |y| == 4 * way
    ensures |r| == 4 * way && Unpacked(r, way) == VXor(Unpacked(x, way), Unpacked(y, way))
  {
    hide LittleWord, Xor32;
    r := seq(4 * way, k requires 0 <= k < 4 * way => x[k] ^ y[k]);
    forall i | 0 <= i < way
      ensures Stub(r, i) == Xor32(Stub(x, i), Stub(y, i))
    {
      XorStub(x[4 * i], x[4 * i + 1], x[4 * i + 2], x[4 * i + 3], y[4 * i], y[4 * i + 1], y[4 * i + 2], y[4 * i + 3]);
    }
  }

  lemma OrStub(a0: Byte, a1: Byte, a2: Byte, a3: Byte, b0: Byte, b1: Byte, b2: Byte, b3: Byte)
    ensures LittleWord(a0 | b0, a1 | b1, a2 | b2, a3 | b3)
         == Or32(LittleWord(a0, a1, a2, a3), LittleWord(b0, b1, b2, b3))
  {
  }

  // One operation on the whole machine word acts lane by lane.
  method PackedOr(x: seq<Byte>, y: seq<Byte>, way: nat) returns (r: seq<Byte>)
    requires |x| == 4 * way && |y| == 4 * way
    ensures |r| == 4 * way && Unpacked(r, way) == VOr(Unpacked(x, way), Unpacked(y, way))
  {
    hide LittleWord, Or32;
    r := seq(4 * way, k requires 0 <= k < 4 * way => x[k] | y[k]);
    forall i | 0 <= i < way
      ensures Stub(r, i) == Or32(Stub(x, i), Stub(y, i))
    {
      OrStub(x[4 * i], x[4 * i + 1], x[4 * i + 2], x[4 * i + 3], y[4 * i], y[4 * i + 1], y[4 * i + 2], y[4 * i + 3]);
    }
  }

  lemma AndStub(a0: Byte, a1: Byte, a2: Byte, a3: Byte, b0: Byte, b1: Byte, b2: Byte, b3: Byte)
    ensures LittleWord(a0 & b0, a1 & b1, a2 & b2, a3 & b3)
         == And32(LittleWord(a0, a1, a2, a3), LittleWord(b0, b1, b2, b3))
  {
  }

  // One operation on the whole machine word acts lane by lane.
  method PackedAnd(x: seq<Byte>, y: seq<Byte>, way: nat) returns (r: seq<Byte>)
    requires |x| == 4 * way && |y| == 4 * way
    ensures |r| == 4 * way && Unpacked(r, way) == VAnd(Unpacked(x, way), Unpacked(y, way))
  {
    hide LittleWord, And32;
    r := seq(4 * way, k requires 0 <= k < 4 * way => x[k] & y[k]);
    forall i | 0 <= i < way
      ensures Stub(r, i) == And32(Stub(x, i), Stub(y, i))
    {
      AndStub(x[4 * i], x[4 * i + 1], x[4 * i + 2], x[4 * i + 3], y[4 * i], y[4 * i + 1], y[4 * i + 2], y[4 * i + 3]);
    }
  }

  // op_andnot: ~x & y on the whole word.
  lemma AndNotStub(a0: Byte, a1: Byte, a2: Byte, a3: Byte, b0: Byte, b1: Byte, b2: Byte, b3: Byte)
    ensures LittleWord(!a0 & b0, !a1 & b1, !a2 & b2, !a3 & b3)
         == And32(Not32(LittleWord(a0, a1, a2, a3)), LittleWord(b0, b1, b2, b3))
  {
  }

  method PackedAndNot(x: seq<Byte>, y: seq<Byte>, way: nat) returns (r: seq<Byte>)
    requires |x| == 4 * way && |y| == 4 * way
    ensures |r| == 4 * way && Unpacked(r, way) == VAnd(VNot(Unpacked(x, way)), Unpacked(y, way))
  {
    hide LittleWord, And32, Not32;
    r := seq(4 * way, k requires 0 <= k < 4 * way => !x[k] & y[k]);
    forall i | 0 <= i < way
      ensures Stub(r, i) == And32(Not32(Stub(x, i)), Stub(y, i))
    {
      AndNotStub(x[4 * i], x[4 * i + 1], x[4 * i + 2], x[4 * i + 3], y[4 * i], y[4 * i + 1], y[4 * i + 2],
          y[4 * i + 3]);
    }
  }

  method PackedBroadcast(value: bv32, way: nat) returns (r: seq<Byte>)
    ensures |r| == 4 * way && Unpacked(r, way) == Broadcast(value, way)
  {
    hide Stub, SetStub;
    r := seq(4 * way, k => 0);
    var i := 0;
    while i < way
      invariant 0 <= i <= way && |r| == 4 * way
      invariant forall j :: 0 <= j < i ==> Stub(r, j) == value
    {
      forall j | 0 <= j < way
        ensures Stub(SetStub(r, i, value), j) == if i == j then value else Stub(r, j)
      {
        StubAfterSet(r, i, value, j);
      }
      r := SetStub(r, i, value);
      i := i + 1;
    }
  }

  method PackedLoad(mem: seq<Byte>, blkSize: nat, offset: nat, way: nat) returns (r: seq<Byte>)
    requires InMemory(|mem|, blkSize, offset, way)
    ensures |r| == 4 * way && Unpacked(r, way) == VLoad(mem, blkSize, offset, way)
  {
    hide Stub, SetStub, ReadBig, At;
    r := seq(4 * way, k => 0);
    var i := 0;
    while i < way
      invariant 0 <= i <= way && |r| == 4 * way
      invariant forall j :: 0 <= j < i ==> Stub(r, j) == ReadBig(mem, At(blkSize, offset, j))
    {
      var w := ReadBig(mem, At(blkSize, offset, i));
      forall j | 0 <= j < way
        ensures Stub(SetStub(r, i, w), j) == if i == j then w else Stub(r, j)
      {
        StubAfterSet(r, i, w, j);
      }
      r := SetStub(r, i, w);
      i := i + 1;
    }
  }

  method PackedSave(value: seq<Byte>, way: nat, out: array<Byte>, blkSize: nat, offset: nat)
    requires |value| == 4 * way && InMemory(out.Length, blkSize, offset, way)
    modifies out
    ensures out[..] == AfterSave(old(out[..]), Unpacked(value, way), blkSize, offset, way)
  {
    hide Stub, PutBig, At;
    ghost var was := out[..];
    var i := 0;
    while i < way
      invariant 0 <= i <= way
      invariant out[..] == AfterSave(was, Unpacked(value, way), blkSize, offset, i)
    {
      WriteBig(out, At(blkSize, offset, i), Stub(value, i));
      i := i + 1;
    }
  }

  // ----- the array type -----

  class DataWrap {
    const stub: array<bv32>

    constructor (value: bv32, way: nat)
      ensures fresh(stub) && stub[..] == Broadcast(value, way)
    {
      stub := new bv32[way](_ => value);
    }

    // Memory without values.
    constructor Unset(way: nat)
      ensures fresh(stub) && stub.Length == way
    {
      stub := new bv32[way];
    }

    // An argument passed by value.
    constructor Of(value: Vec)
      ensures fresh(stub) && stub[..] == value
    {
      stub := new bv32[|value|](i requires 0 <= i < |value| => value[i]);
    }

    // The copy constructor.
    constructor Copy(other: DataWrap)
      ensures fresh(stub) && stub[..] == other.stub[..]
    {
      stub := new bv32[other.stub.Length](i requires 0 <= i < other.stub.Length reads other.stub => other.stub[i]);
    }

    method OpAdd(other: DataWrap)
      requires other.stub.Length == stub.Length && other.stub != stub
      modifies stub
      ensures stub[..] == VAdd(old(stub[..]), other.stub[..])
    {
      hide Add32;
      for i := 0 to stub.Length
        invariant forall j :: 0 <= j < stub.Length ==>
            stub[j] == if j < i then Add32(old(stub[j]), other.stub[j]) else old(stub[j])
      {
        stub[i] := Add32(stub[i], other.stub[i]);
      }
    }

    method OpXor(other: DataWrap)
      requires other.stub.Length == stub.Length && other.stub != stub
      modifies stub
      ensures stub[..] == VXor(old(stub[..]), other.stub[..])
    {
      hide Xor32;
      for i := 0 to stub.Length
        invariant forall j :: 0 <= j < stub.Length ==>
            stub[j] == if j < i then Xor32(old(stub[j]), other.stub[j]) else old(stub[j])
      {
        stub[i] := Xor32(stub[i], other.stub[i]);
      }
    }

    method OpOr(other: DataWrap)
      requires other.stub.Length == stub.Length && other.stub != stub
      modifies stub
      ensures stub[..] == VOr(old(stub[..]), other.stub[..])
    {
      hide Or32;
      for i := 0 to stub.Length
        invariant forall j :: 0 <= j < stub.Length ==>
            stub[j] == if j < i then Or32(old(stub[j]), other.stub[j]) else old(stub[j])
      {
        stub[i] := Or32(stub[i], other.stub[i]);
      }
    }

    method OpAnd(other: DataWrap)
      requires other.stub.Length == stub.Length && other.stub != stub
      modifies stub
      ensures stub[..] == VAnd(old(stub[..]), other.stub[..])
    {
      hide And32;
      for i := 0 to stub.Length
        invariant forall j :: 0 <= j < stub.Length ==>
            stub[j] == if j < i then And32(old(stub[j]), other.stub[j]) else old(stub[j])
      {
        stub[i] := And32(stub[i], other.stub[i]);
      }
    }

    method OpNot()
      modifies stub
      ensures stub[..] == VNot(old(stub[..]))
    {
      hide Not32;
      for i := 0 to stub.Length
        invariant forall j :: 0 <= j < stub.Length ==> stub[j] == if j < i then Not32(old(stub[j])) else old(stub[j])
      {
        stub[i] := Not32(stub[i]);
      }
    }

    method OpShr(cnt: bv32)
      requires cnt < 32
      modifies stub
      ensures stub[..] == VShr(old(stub[..]), cnt)
    {
      hide Shr32;
      for i := 0 to stub.Length
        invariant forall j :: 0 <= j < stub.Length ==>
            stub[j] == if j < i then Shr32(old(stub[j]), cnt) else old(stub[j])
      {
        stub[i] := Shr32(stub[i], cnt);
      }
    }

    method OpShl(cnt: bv32)
      requires cnt < 32
      modifies stub
      ensures stub[..] == VShl(old(stub[..]), cnt)
    {
      hide Shl32;
      for i := 0 to stub.Length
        invariant forall j :: 0 <= j < stub.Length ==>
            stub[j] == if j < i then Shl32(old(stub[j]), cnt) else old(stub[j])
      {
        stub[i] := Shl32(stub[i], cnt);
      }
    }
  }

  // op_andnot on arguments passed by value.
  method SlowAndNot(x: DataWrap, y: DataWrap) returns (r: DataWrap)
    requires x.stub.Length == y.stub.Length
    ensures fresh(r) && fresh(r.stub) && r.stub[..] == VAnd(VNot(x.stub[..]), y.stub[..])
  {
    r := new DataWrap.Copy(x);
    r.OpNot();
    r.OpAnd(y);
  }

  // op_rol: a left and a right shift of two copies, joined.
  method SlowRol(x: DataWrap, n: bv32) returns (r: DataWrap)
    requires 0 < n < 32
    ensures fresh(r) && fresh(r.stub) && r.stub[..] == VRol(x.stub[..], n)
  {
    hide Or32, Shl32, Shr32, Rol32;
    forall i | 0 <= i < x.stub.Length
      ensures Rol32(x.stub[i], n) == Or32(Shl32(x.stub[i], n), Shr32(x.stub[i], 32 - n))
    {
      RolOfShifts(x.stub[i], n);
    }
    var right := new DataWrap.Copy(x);
    right.OpShr(32 - n);
    r := new DataWrap.Copy(x);
    r.OpShl(n);
    r.OpOr(right);
  }

  // load: the words are written into an array without values.
  method SlowLoad(mem: seq<Byte>, blkSize: nat, offset: nat, way: nat) returns (r: DataWrap)
    requires InMemory(|mem|, blkSize, offset, way)
    ensures fresh(r) && fresh(r.stub) && r.stub[..] == VLoad(mem, blkSize, offset, way)
  {
    hide ReadBig, At;
    r := new DataWrap.Unset(way);
    for i := 0 to way
      invariant fresh(r) && fresh(r.stub) && r.stub.Length == way
      invariant forall j :: 0 <= j < i ==> r.stub[j] == ReadBig(mem, At(blkSize, offset, j))
    {
      r.stub[i] := ReadBig(mem, At(blkSize, offset, i));
    }
  }

  method SlowSave(value: DataWrap, out: array<Byte>, blkSize: nat, offset: nat)
    requires InMemory(out.Length, blkSize, offset, value.stub.Length)
    modifies out
    ensures out[..] == AfterSave(old(out[..]), old(value.stub[..]), blkSize, offset, value.stub.Length)
  {
    hide PutBig, At;
    ghost var was, v := out[..], value.stub[..];
    for i := 0 to value.stub.Length
      invariant value.stub[..] == v
      invariant out[..] == AfterSave(was, v, blkSize, offset, i)
    {
      WriteBig(out, At(blkSize, offset, i), value.stub[i]);
    }
  }

  // ----- the template parameter -----

  // Which of the two lane types the code is instantiated with, and its number of lanes.
  datatype Instr = Packed(way: nat) | Slow(way: nat)

  // A value of that type: a packed word, or an array that is passed by value.
  datatype Value = Word(bytes: seq<Byte>) | Stubs(stub: seq<bv32>)

  predicate Is(instr: Instr, x: Value) {
    match instr
    case Packed(way) => x.Word? && |x.bytes| == 4 * way
    case Slow(way) => x.Stubs? && |x.stub| == way
  }

  function View(instr: Instr, x: Value): (v: Vec)
    requires Is(instr, x)
    ensures |v| == instr.way
  {
    if instr.Packed? then Unpacked(x.bytes, instr.way) else x.stub
  }

  method OpBroadcast(instr: Instr, value: bv32) returns (r: Value)
    ensures Is(instr, r) && View(instr, r) == Broadcast(value, instr.way)
  {
    hide Unpacked;
    var way := instr.way;
    if instr.Packed? {
      var word := PackedBroadcast(value, way);
      r := Word(word);
    } else {
      var wrap := new DataWrap(value, way);
      r := Stubs(wrap.stub[..]);
    }
  }

  method OpAdd(instr: Instr, x: Value, y: Value) returns (r: Value)
    requires Is(instr, x) && Is(instr, y)
    ensures Is(instr, r) && View(instr, r) == VAdd(View(instr, x), View(instr, y))
  {
    hide Unpacked;
    var way := instr.way;
    if instr.Packed? {
      var word := PackedAdd(x.bytes, y.bytes, way);
      r := Word(word);
    } else {
      var wrap := new DataWrap.Of(x.stub);
      var other := new DataWrap.Of(y.stub);
      wrap.OpAdd(other);
      r := Stubs(wrap.stub[..]);
    }
  }

  method OpXor(instr: Instr, x: Value, y: Value) returns (r: Value)
    requires Is(instr, x) && Is(instr, y)
    ensures Is(instr, r) && View(instr, r) == VXor(View(instr, x), View(instr, y))
  {
    hide Unpacked;
    var way := instr.way;
    if instr.Packed? {
      var word := PackedXor(x.bytes, y.bytes, way);
      r := Word(word);
    } else {
      var wrap := new DataWrap.Of(x.stub);
      var other := new DataWrap.Of(y.stub);
      wrap.OpXor(other);
      r := Stubs(wrap.stub[..]);
    }
  }

  method OpOr(instr: Instr, x: Value, y: Value) returns (r: Value)
    requires Is(instr, x) && Is(instr, y)
    ensures Is(instr, r) && View(instr, r) == VOr(View(instr, x), View(instr, y))
  {
    hide Unpacked;
    var way := instr.way;
    if instr.Packed? {
      var word := PackedOr(x.bytes, y.bytes, way);
      r := Word(word);
    } else {
      var wrap := new DataWrap.Of(x.stub);
      var other := new DataWrap.Of(y.stub);
      wrap.OpOr(other);
      r := Stubs(wrap.stub[..]);
    }
  }

  method OpAnd(instr: Instr, x: Value, y: Value) returns (r: Value)
    requires Is(instr, x) && Is(instr, y)
    ensures Is(instr, r) && View(instr, r) == VAnd(View(instr, x), View(instr, y))
  {
    hide Unpacked;
    var way := instr.way;
    if instr.Packed? {
      var word := PackedAnd(x.bytes, y.bytes, way);
      r := Word(word);
    } else {
      var wrap := new DataWrap.Of(x.stub);
      var other := new DataWrap.Of(y.stub);
      wrap.OpAnd(other);
      r := Stubs(wrap.stub[..]);
    }
  }

  method OpAndNot(instr: Instr, x: Value, y: Value) returns (r: Value)
    requires Is(instr, x) && Is(instr, y)
    ensures Is(instr, r) && View(instr, r) == VAnd(VNot(View(instr, x)), View(instr, y))
  {
    hide Unpacked;
    var way := instr.way;
    if instr.Packed? {
      var word := PackedAndNot(x.bytes, y.bytes, way);
      r := Word(word);
    } else {
      var wrap := new DataWrap.Of(x.stub);
      var other := new DataWrap.Of(y.stub);
      wrap := SlowAndNot(wrap, other);
      r := Stubs(wrap.stub[..]);
    }
  }

  method OpShr(instr: Instr, x: Value, n: bv32) returns (r: Value)
    requires Is(instr, x) && n < 32
    ensures Is(instr, r) && View(instr, r) == VShr(View(instr, x), n)
  {
    hide Unpacked;
    var way := instr.way;
    if instr.Packed? {
      var word := PackedShr(x.bytes, n, way);
      r := Word(word);
    } else {
      var wrap := new DataWrap.Of(x.stub);
      wrap.OpShr(n);
      r := Stubs(wrap.stub[..]);
    }
  }

  method OpShl(instr: Instr, x: Value, n: bv32) returns (r: Value)
    requires Is(instr, x) && n < 32
    ensures Is(instr, r) && View(instr, r) == VShl(View(instr, x), n)
  {
    hide Unpacked;
    var way := instr.way;
    if instr.Packed? {
      var word := PackedShl(x.bytes, n, way);
      r := Word(word);
    } else {
      var wrap := new DataWrap.Of(x.stub);
      wrap.OpShl(n);
      r := Stubs(wrap.stub[..]);
    }
  }

  method OpRol(instr: Instr, x: Value, n: bv32) returns (r: Value)
    requires Is(instr, x) && 0 < n < 32
    ensures Is(instr, r) && View(instr, r) == VRol(View(instr, x), n)
  {
    hide Unpacked;
    var way := instr.way;
    if instr.Packed? {
      var word := PackedRol(x.bytes, n, way);
      r := Word(word);
    } else {
      var wrap := new DataWrap.Of(x.stub);
      wrap := SlowRol(wrap, n);
      r := Stubs(wrap.stub[..]);
    }
  }

  method Load(instr: Instr, mem: seq<Byte>, blkSize: nat, offset: nat) returns (r: Value)
    requires InMemory(|mem|, blkSize, offset, instr.way)
    ensures Is(instr, r) && View(instr, r) == VLoad(mem, blkSize, offset, instr.way)
  {
    hide Unpacked;
    var way := instr.way;
    if instr.Packed? {
      var word := PackedLoad(mem, blkSize, offset, way);
      r := Word(word);
    } else {
      var wrap := SlowLoad(mem, blkSize, offset, way);
      r := Stubs(wrap.stub[..]);
    }
  }

  method Save(instr: Instr, value: Value, out: array<Byte>, blkSize: nat, offset: nat)
    requires Is(instr, value) && InMemory(out.Length, blkSize, offset, instr.way)
    modifies out
    ensures out[..] == AfterSave(old(out[..]), View(instr, value), blkSize, offset, instr.way)
  {
    hide Unpacked, AfterSave;
    var way := instr.way;
    if instr.Packed? {
      PackedSave(value.bytes, way, out, blkSize, offset);
    } else {
      var wrap := new DataWrap.Of(value.stub);
      SlowSave(wrap, out, blkSize, offset);
    }
  }
}
