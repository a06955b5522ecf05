/**
 32-bit words: wrapping addition, exclusive or, rotation and the two ways to
 read four bytes.
 */
module Words32 {
  import opened Words

  function Add32(x: bv32, y: bv32): bv32 {
    x + y
  }

  function Xor32(x: bv32, y: bv32): bv32 {
    x ^ y
  }

  // Rotation to the right.
  function RotR(x: bv32, n: bv32): bv32
    requires 0 < n < 32
  {
    (x >> n) | (x << (32 - n))
  }

  // A big-endian word.
  function BigWord(b0: Byte, b1: Byte, b2: Byte, b3: Byte): bv32 {
    ((b0 as bv32) << 24) | ((b1 as bv32) << 16) | ((b2 as bv32) << 8) | (b3 as bv32)
  }

  function BigByte(w: bv32, k: nat): Byte
    requires k < 4
  {
    if k == 0 then ((w >> 24) & 0xFF) as Byte
    else if k == 1 then ((w >> 16) & 0xFF) as Byte
    else if k == 2 then ((w >> 8) & 0xFF) as Byte
    else (w & 0xFF) as Byte
  }

  // A little-endian word.
  function LittleWord(b0: Byte, b1: Byte, b2: Byte, b3: Byte): bv32 {
    (b0 as bv32) | ((b1 as bv32) << 8) | ((b2 as bv32) << 16) | ((b3 as bv32) << 24)
  }

  function LittleByte(w: bv32, k: nat): Byte
    requires k < 4
  {
    if k == 0 then (w & 0xFF) as Byte
    else if k == 1 then ((w >> 8) & 0xFF) as Byte
    else if k == 2 then ((w >> 16) & 0xFF) as Byte
    else ((w >> 24) & 0xFF) as Byte
  }

  lemma BytesOfLittle(b0: Byte, b1: Byte, b2: Byte, b3: Byte)
    ensures LittleByte(LittleWord(b0, b1, b2, b3), 0) == b0 && LittleByte(LittleWord(b0, b1, b2, b3), 1) == b1
    ensures LittleByte(LittleWord(b0, b1, b2, b3), 2) == b2 && LittleByte(LittleWord(b0, b1, b2, b3), 3) == b3
  {
  }

  lemma LittleOfBytes(w: bv32)
    ensures LittleWord(LittleByte(w, 0), LittleByte(w, 1), LittleByte(w, 2), LittleByte(w, 3)) == w
  {
  }

  lemma AddIsSum(x: bv32, y: bv32)
    ensures Add32(x, y) == x + y
  {
  }

  lemma AddThree(x: bv32, y: bv32, z: bv32)
    ensures Add32(x + y, z) == Add32(x, y + z)
  {
  }

  lemma AddAssociates(x: bv32, y: bv32, z: bv32)
    ensures Add32(Add32(x, y), z) == Add32(x, Add32(y, z))
  {
    hide Add32;
    AddIsSum(x, y);
    AddIsSum(y, z);
    AddThree(x, y, z);
  }

  lemma AddCommutes(x: bv32, y: bv32)
    ensures Add32(x, y) == Add32(y, x)
  {
  }
}
