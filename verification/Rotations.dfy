/**
 The 64-bit rotation RotL_64 (skein_port.h) and its inverse, the rotation by 64 minus the distance.
 */
module Rotations {
  function RotL(x: bv64, r: bv64): bv64
    requires 0 < r < 64
  {
    (x << r) | (x >> (64 - r))
  }

  // The distances in the rotation tables of skein.c are among these.
  predicate Proper(r: bv64) {
    0 < r < 64
  }

  // One lemma for each pair of distances: a literal distance is what keeps the bit-level proof small.

  lemma Back1(x: bv64) ensures RotL(RotL(x, 1), 63) == x && RotL(RotL(x, 63), 1) == x {}
  lemma Back2(x: bv64) ensures RotL(RotL(x, 2), 62) == x && RotL(RotL(x, 62), 2) == x {}
  lemma Back3(x: bv64) ensures RotL(RotL(x, 3), 61) == x && RotL(RotL(x, 61), 3) == x {}
  lemma Back4(x: bv64) ensures RotL(RotL(x, 4), 60) == x && RotL(RotL(x, 60), 4) == x {}
  lemma Back5(x: bv64) ensures RotL(RotL(x, 5), 59) == x && RotL(RotL(x, 59), 5) == x {}
  lemma Back6(x: bv64) ensures RotL(RotL(x, 6), 58) == x && RotL(RotL(x, 58), 6) == x {}
  lemma Back7(x: bv64) ensures RotL(RotL(x, 7), 57) == x && RotL(RotL(x, 57), 7) == x {}
  lemma Back8(x: bv64) ensures RotL(RotL(x, 8), 56) == x && RotL(RotL(x, 56), 8) == x {}
  lemma Back9(x: bv64) ensures RotL(RotL(x, 9), 55) == x && RotL(RotL(x, 55), 9) == x {}
  lemma Back10(x: bv64) ensures RotL(RotL(x, 10), 54) == x && RotL(RotL(x, 54), 10) == x {}
  lemma Back11(x: bv64) ensures RotL(RotL(x, 11), 53) == x && RotL(RotL(x, 53), 11) == x {}
  lemma Back12(x: bv64) ensures RotL(RotL(x, 12), 52) == x && RotL(RotL(x, 52), 12) == x {}
  lemma Back13(x: bv64) ensures RotL(RotL(x, 13), 51) == x && RotL(RotL(x, 51), 13) == x {}
  lemma Back14(x: bv64) ensures RotL(RotL(x, 14), 50) == x && RotL(RotL(x, 50), 14) == x {}
  lemma Back15(x: bv64) ensures RotL(RotL(x, 15), 49) == x && RotL(RotL(x, 49), 15) == x {}
  lemma Back16(x: bv64) ensures RotL(RotL(x, 16), 48) == x && RotL(RotL(x, 48), 16) == x {}
  lemma Back17(x: bv64) ensures RotL(RotL(x, 17), 47) == x && RotL(RotL(x, 47), 17) == x {}
  lemma Back18(x: bv64) ensures RotL(RotL(x, 18), 46) == x && RotL(RotL(x, 46), 18) == x {}
  lemma Back19(x: bv64) ensures RotL(RotL(x, 19), 45) == x && RotL(RotL(x, 45), 19) == x {}
  lemma Back20(x: bv64) ensures RotL(RotL(x, 20), 44) == x && RotL(RotL(x, 44), 20) == x {}
  lemma Back21(x: bv64) ensures RotL(RotL(x, 21), 43) == x && RotL(RotL(x, 43), 21) == x {}
  lemma Back22(x: bv64) ensures RotL(RotL(x, 22), 42) == x && RotL(RotL(x, 42), 22) == x {}
  lemma Back23(x: bv64) ensures RotL(RotL(x, 23), 41) == x && RotL(RotL(x, 41), 23) == x {}
  lemma Back24(x: bv64) ensures RotL(RotL(x, 24), 40) == x && RotL(RotL(x, 40), 24) == x {}
  lemma Back25(x: bv64) ensures RotL(RotL(x, 25), 39) == x && RotL(RotL(x, 39), 25) == x {}
  lemma Back26(x: bv64) ensures RotL(RotL(x, 26), 38) == x && RotL(RotL(x, 38), 26) == x {}
  lemma Back27(x: bv64) ensures RotL(RotL(x, 27), 37) == x && RotL(RotL(x, 37), 27) == x {}
  lemma Back28(x: bv64) ensures RotL(RotL(x, 28), 36) == x && RotL(RotL(x, 36), 28) == x {}
  lemma Back29(x: bv64) ensures RotL(RotL(x, 29), 35) == x && RotL(RotL(x, 35), 29) == x {}
  lemma Back30(x: bv64) ensures RotL(RotL(x, 30), 34) == x && RotL(RotL(x, 34), 30) == x {}
  lemma Back31(x: bv64) ensures RotL(RotL(x, 31), 33) == x && RotL(RotL(x, 33), 31) == x {}
  lemma Back32(x: bv64) ensures RotL(RotL(x, 32), 32) == x {}

  lemma LowRotationUndone(x: bv64, r: bv64)
    requires 0 < r <= 32
    ensures RotL(RotL(x, r), 64 - r) == x && RotL(RotL(x, 64 - r), r) == x
  {
    hide RotL;
    if r == 1 {
      Back1(x);
    } else if r == 2 {
      Back2(x);
    } else if r == 3 {
      Back3(x);
    } else if r == 4 {
      Back4(x);
    } else if r == 5 {
      Back5(x);
    } else if r == 6 {
      Back6(x);
    } else if r == 7 {
      Back7(x);
    } else if r == 8 {
      Back8(x);
    } else if r == 9 {
      Back9(x);
    } else if r == 10 {
      Back10(x);
    } else if r == 11 {
      Back11(x);
    } else if r == 12 {
      Back12(x);
    } else if r == 13 {
      Back13(x);
    } else if r == 14 {
      Back14(x);
    } else if r == 15 {
      Back15(x);
    } else if r == 16 {
      Back16(x);
    } else if r == 17 {
      Back17(x);
    } else if r == 18 {
      Back18(x);
    } else if r == 19 {
      Back19(x);
    } else if r == 20 {
      Back20(x);
    } else if r == 21 {
      Back21(x);
    } else if r == 22 {
      Back22(x);
    } else if r == 23 {
      Back23(x);
    } else if r == 24 {
      Back24(x);
    } else if r == 25 {
      Back25(x);
    } else if r == 26 {
      Back26(x);
    } else if r == 27 {
      Back27(x);
    } else if r == 28 {
      Back28(x);
    } else if r == 29 {
      Back29(x);
    } else if r == 30 {
      Back30(x);
    } else if r == 31 {
      Back31(x);
    } else if r == 32 {
      Back32(x);
    }
  }

  lemma RotationUndone(x: bv64, r: bv64)
    requires Proper(r)
    ensures RotL(RotL(x, r), 64 - r) == x && RotL(RotL(x, 64 - r), r) == x
  {
    hide RotL;
    LowRotationUndone(x, if r <= 32 then r else 64 - r);
  }
}
