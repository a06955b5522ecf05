/**
 The 64x64 to 128 bit products and the 128/32 bit long division. Here a C word is the number it
 holds, and every place where the C type wraps is written out.
 */
module WideMul {
  import opened Words

  type U32 = n: nat | n < 0x1_0000_0000
  type U64 = n: nat | n < 0x1_0000_0000_0000_0000

  // The largest product of two 32-bit limbs.
  const LIMB_MAX: nat := 0xFFFF_FFFE_0000_0001

  // Addition of uint64_t values.
  function Add64(x: nat, y: nat): U64 {
    (x + y) % TWO64
  }

  // `x << 32` on a uint64_t.
  function Shl32(x: nat): U64 {
    (x % TWO32) * TWO32
  }

  lemma ProductBound(x: nat, y: nat, xMax: nat, yMax: nat)
    requires x <= xMax && y <= yMax
    ensures x * y <= xMax * yMax
  {
    assert x * y <= xMax * y;
    assert xMax * y <= xMax * yMax;
  }

  // Schoolbook product of two-limb numbers.
  lemma Schoolbook(a: nat, b: nat, c: nat, d: nat)
    ensures (a * TWO32 + b) * (c * TWO32 + d) == a * c * TWO64 + (a * d + b * c) * TWO32 + b * d
  {
    calc {
      (a * TWO32 + b) * (c * TWO32 + d);
      (a * TWO32) * (c * TWO32 + d) + b * (c * TWO32 + d);
      (a * TWO32) * (c * TWO32) + (a * TWO32) * d + b * (c * TWO32) + b * d;
      { assert (a * TWO32) * (c * TWO32) == a * c * TWO64; }
      { assert (a * TWO32) * d == a * d * TWO32 && b * (c * TWO32) == b * c * TWO32; }
      a * c * TWO64 + (a * d + b * c) * TWO32 + b * d;
    }
  }

  // An overflowing sum is short by exactly one modulus, and is then below either operand.
  lemma CarryOut(x: U64, y: U64)
    ensures x + y == Add64(x, y) + (if Add64(x, y) < x then TWO64 else 0)
  {
  }

  // The four partial products of two words, none of which overflows 64 bits.
  lemma PartialProducts(x: U64, y: U64)
    ensures var a, b, c, d := x / TWO32, x % TWO32, y / TWO32, y % TWO32;
            && a * c <= LIMB_MAX && a * d <= LIMB_MAX && b * c <= LIMB_MAX && b * d <= LIMB_MAX
            && x * y == a * c * TWO64 + (a * d + b * c) * TWO32 + b * d
    ensures x * y < TWO64 * TWO64
  {
    var a, b, c, d := x / TWO32, x % TWO32, y / TWO32, y % TWO32;
    Schoolbook(a, b, c, d);
    assert x == a * TWO32 + b && y == c * TWO32 + d;
    ProductBound(a, c, TWO32 - 1, TWO32 - 1);
    ProductBound(a, d, TWO32 - 1, TWO32 - 1);
    ProductBound(b, c, TWO32 - 1, TWO32 - 1);
    ProductBound(b, d, TWO32 - 1, TWO32 - 1);
    ProductBound(x, y, TWO64 - 1, TWO64 - 1);
  }

  // Both carries of mul128 accounted for: `e` is its upper word before any truncation.
  lemma Mul128Carries(ac: U64, ad: U64, bc: U64, bd: U64, adbc: U64, c1: nat, lo: U64, c2: nat, e: nat)
    requires ac * TWO64 + (ad + bc) * TWO32 + bd < TWO64 * TWO64
    requires ad + bc == adbc + c1 * TWO64
    requires bd + Shl32(adbc) == lo + c2 * TWO64
    requires e == ac + adbc / TWO32 + c1 * TWO32 + c2
    ensures e * TWO64 + lo == ac * TWO64 + (ad + bc) * TWO32 + bd
    ensures e < TWO64
  {
    assert adbc * TWO32 == (adbc / TWO32) * TWO64 + Shl32(adbc);
  }

  lemma Add64Exact(x: nat, y: nat)
    requires x + y < TWO64
    ensures Add64(x, y) == x + y
  {
  }

  lemma Shl32Bit(c: nat)
    requires c <= 1
    ensures Shl32(c) == c * TWO32
  {
  }

  // mul128 from its partial products on.
  method AddPartials(ac: U64, ad: U64, bc: U64, bd: U64) returns (lo: U64, hi: U64)
    requires ac * TWO64 + (ad + bc) * TWO32 + bd < TWO64 * TWO64
    ensures hi * TWO64 + lo == ac * TWO64 + (ad + bc) * TWO32 + bd
    ensures ac <= hi
  {
    hide Add64, Shl32;
    var adbc := Add64(ad, bc);
    var adbcCarry := if adbc < ad then 1 else 0;
    CarryOut(ad, bc);
    lo := Add64(bd, Shl32(adbc));
    var loCarry := if lo < bd then 1 else 0;
    CarryOut(bd, Shl32(adbc));
    Mul128Carries(ac, ad, bc, bd, adbc, adbcCarry, lo, loCarry,
                  ac + adbc / TWO32 + adbcCarry * TWO32 + loCarry);
    Shl32Bit(adbcCarry);
    Add64Exact(ac, adbc / TWO32);
    Add64Exact(ac + adbc / TWO32, adbcCarry * TWO32);
    Add64Exact(ac + adbc / TWO32 + adbcCarry * TWO32, loCarry);
    hi := Add64(Add64(Add64(ac, adbc / TWO32), Shl32(adbcCarry)), loCarry);
  }

  // mul128: the two words returned are the whole product, and its final assert holds.
  method Mul128(multiplier: U64, multiplicand: U64) returns (lo: U64, hi: U64)
    ensures hi * TWO64 + lo == multiplier * multiplicand
  {
    PartialProducts(multiplier, multiplicand);
    var a, b := multiplier / TWO32, multiplier % TWO32;
    var c, d := multiplicand / TWO32, multiplicand % TWO32;
    lo, hi := AddPartials(a * c, a * d, b * c, b * d);
    assert a * c <= hi;
  }

  // mul from its four limb products on, accumulated in place.
  method AddLimbs(p0: U64, p1: U64, p2: U64, p3: U64) returns (lo: U64, hi: U64)
    requires p0 <= LIMB_MAX && p1 <= LIMB_MAX && p2 <= LIMB_MAX && p3 <= LIMB_MAX
    ensures hi * TWO64 + lo == p3 * TWO64 + (p1 + p2) * TWO32 + p0
  {
    hide Add64;
    var t1, t3 := p1, p3;
    var res2 := p0 % TWO32;
    Add64Exact(p1, p0 / TWO32);
    t1 := Add64(t1, p0 / TWO32);
    Add64Exact(t1, p2 % TWO32);
    t1 := Add64(t1, p2 % TWO32);
    Add64Exact(p3, t1 / TWO32);
    t3 := Add64(t3, t1 / TWO32);
    Add64Exact(t3, p2 / TWO32);
    t3 := Add64(t3, p2 / TWO32);
    LimbSum(p0, p1, p2, p3, t1);
    var res3 := t1 % TWO32;
    lo := res3 * TWO32 + res2;
    hi := t3;
  }

  lemma LimbSum(p0: nat, p1: nat, p2: nat, p3: nat, t1: nat)
    requires t1 == p1 + p0 / TWO32 + p2 % TWO32
    ensures (p3 + t1 / TWO32 + p2 / TWO32) * TWO64 + (t1 % TWO32) * TWO32 + p0 % TWO32
         == p3 * TWO64 + (p1 + p2) * TWO32 + p0
  {
    assert p0 == (p0 / TWO32) * TWO32 + p0 % TWO32;
    assert p2 == (p2 / TWO32) * TWO32 + p2 % TWO32;
    assert t1 == (t1 / TWO32) * TWO32 + t1 % TWO32;
  }

  // mul: the same product from 32-bit limbs.
  method LimbMul(x: U64, y: U64) returns (lo: U64, hi: U64)
    ensures hi * TWO64 + lo == x * y
  {
    PartialProducts(x, y);
    var A, a := x / TWO32, x % TWO32;
    var B, b := y / TWO32, y % TWO32;
    lo, hi := AddLimbs(a * b, a * B, A * b, A * B);
  }

  // Bitwise or of numbers.
  function BitOr(x: nat, y: nat): nat {
    if x == 0 then y else if y == 0 then x
    else 2 * BitOr(x / 2, y / 2) + (if x % 2 == 1 || y % 2 == 1 then 1 else 0)
  }

  // No bit is set in both.
  predicate Disjoint(x: nat, y: nat) {
    x == 0 || y == 0 || (!(x % 2 == 1 && y % 2 == 1) && Disjoint(x / 2, y / 2))
  }

  // Or is addition exactly when no bit meets another, and falls short of it otherwise.
  lemma {:induction false} OrIsSum(x: nat, y: nat)
    ensures BitOr(x, y) <= x + y
    ensures BitOr(x, y) == x + y <==> Disjoint(x, y)
  {
    if x != 0 && y != 0 {
      OrIsSum(x / 2, y / 2);
    }
  }

  lemma {:induction false} OrBelow(x: nat, y: nat, m: nat)
    requires x <= m && y <= m && AllOnes(m)
    ensures BitOr(x, y) <= m
    decreases m
  {
    if x != 0 && y != 0 {
      OrBelow(x / 2, y / 2, m / 2);
    }
  }

  // 2^k - 1 for some k.
  predicate AllOnes(m: nat) {
    m == 0 || (m % 2 == 1 && AllOnes(m / 2))
  }

  lemma OneMore(m: nat)
    requires AllOnes(m)
    ensures AllOnes(2 * m + 1)
  {
    assert (2 * m + 1) % 2 == 1 && (2 * m + 1) / 2 == m;
  }

  lemma OnesStep(m: nat)
    requires AllOnes(m)
    ensures AllOnes(16 * m + 15)
  {
    hide AllOnes;
    OneMore(m);
    OneMore(2 * m + 1);
    OneMore(4 * m + 3);
    OneMore(8 * m + 7);
  }

  lemma LimbOnes()
    ensures AllOnes(0xFFFF_FFFF)
  {
    assert AllOnes(0);
    hide AllOnes;
    OnesStep(0);
    OnesStep(0xF);
    OnesStep(0xFF);
    OnesStep(0xFFF);
    OnesStep(0xFFFF);
    OnesStep(0xF_FFFF);
    OnesStep(0xFF_FFFF);
    OnesStep(0xFFF_FFFF);
  }

  // `dividend | (uint64_t)remainder << 32`
  function Merged(dividend: U64, remainder: U32): U64 {
    LimbOnes();
    OrBelow(dividend / TWO32, remainder, 0xFFFF_FFFF);
    BitOr(dividend / TWO32, remainder) * TWO32 + dividend % TWO32
  }

  // The digit carried in is added exactly when it meets no bit of the dividend's upper half.
  lemma MergedIsSum(dividend: U64, remainder: U32)
    ensures Merged(dividend, remainder) == remainder * TWO32 + dividend <==> Disjoint(dividend / TWO32, remainder)
  {
    hide BitOr, Disjoint;
    OrIsSum(dividend / TWO32, remainder);
  }

  // div_with_reminder: one digit of the long division. `remainder` is the digit carried in.
  method DivWithReminder(dividend: U64, divisor: U32, remainder: U32) returns (quotient: U64, newRemainder: U32)
    requires divisor != 0
    ensures Merged(dividend, remainder) == quotient * divisor + newRemainder
    ensures newRemainder < divisor
    ensures dividend < TWO32 ==> remainder * TWO32 + dividend == quotient * divisor + newRemainder
    ensures dividend < TWO32 && remainder < divisor ==> quotient < TWO32
  {
    hide Merged;
    var wide := Merged(dividend, remainder);
    newRemainder := wide % divisor;
    quotient := wide / divisor;
    if dividend < TWO32 {
      SmallDigit(dividend, divisor, remainder, quotient, newRemainder);
    }
  }

  lemma SmallDigit(dividend: U32, divisor: U32, remainder: U32, quotient: nat, newRemainder: nat)
    requires divisor != 0 && Merged(dividend, remainder) == quotient * divisor + newRemainder
    ensures Merged(dividend, remainder) == remainder * TWO32 + dividend
    ensures remainder < divisor ==> quotient < TWO32
  {
    hide Merged, BitOr, Disjoint;
    NoUpperHalf(dividend, remainder);
    if remainder < divisor {
      ProductBound(remainder + 1, TWO32, divisor, TWO32);
      QuotientBound(remainder * TWO32 + dividend, divisor, quotient);
    }
  }

  lemma NoUpperHalf(dividend: U32, remainder: U32)
    ensures Merged(dividend, remainder) == remainder * TWO32 + dividend
  {
    assert Disjoint(0, remainder);
    hide Merged, BitOr, Disjoint;
    MergedIsSum(dividend, remainder);
  }

  lemma QuotientBound(wide: nat, divisor: nat, quotient: nat)
    requires quotient * divisor <= wide < divisor * TWO32
    ensures quotient < TWO32
  {
    if quotient >= TWO32 {
      ProductBound(TWO32, divisor, quotient, divisor);
    }
  }

  method Div128By32(dividendHi: U64, dividendLo: U64, divisor: U32)
    returns (remainder: U32, quotientHi: U64, quotientLo: U64)
    requires divisor != 0
    ensures dividendHi * TWO64 + dividendLo == (quotientHi * TWO64 + quotientLo) * divisor + remainder
    ensures remainder < divisor
  {
    var q3, r3 := DivWithReminder(dividendHi / TWO32, divisor, 0);
    var q2, r2 := DivWithReminder(dividendHi % TWO32, divisor, r3);
    var q1, r1 := DivWithReminder(dividendLo / TWO32, divisor, r2);
    var q0, r0 := DivWithReminder(dividendLo % TWO32, divisor, r1);
    // `q << 32 | q'` loses nothing: every digit is below 2^32.
    quotientHi := q3 * TWO32 + q2;
    quotientLo := q1 * TWO32 + q0;
    remainder := r0;
    assert dividendHi == (dividendHi / TWO32) * TWO32 + dividendHi % TWO32;
    assert dividendLo == (dividendLo / TWO32) * TWO32 + dividendLo % TWO32;
    LongDivision(dividendHi / TWO32, dividendHi % TWO32, q3, q2, r3, r2, 0, divisor);
    LongDivision(dividendLo / TWO32, dividendLo % TWO32, q1, q0, r1, r0, r2, divisor);
    JoinQuotients(dividendHi, dividendLo, quotientHi, quotientLo, r2, r0, divisor);
  }

  lemma JoinQuotients(dh: nat, dl: nat, qh: nat, ql: nat, rh: nat, rl: nat, divisor: nat)
    requires dh == qh * divisor + rh
    requires rh * TWO64 + dl == ql * divisor + rl
    ensures dh * TWO64 + dl == (qh * TWO64 + ql) * divisor + rl
  {
    assert (qh * TWO64 + ql) * divisor == qh * divisor * TWO64 + ql * divisor;
  }

  lemma LongDivision(dh: nat, dl: nat, qh: nat, ql: nat, rh: nat, rl: nat, carry: nat, divisor: nat)
    requires carry * TWO32 + dh == qh * divisor + rh
    requires rh * TWO32 + dl == ql * divisor + rl
    ensures carry * TWO64 + dh * TWO32 + dl == (qh * TWO32 + ql) * divisor + rl
  {
    assert (qh * TWO32 + ql) * divisor == qh * divisor * TWO32 + ql * divisor;
  }
}
