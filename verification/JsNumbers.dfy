/**
 ECMAScript integer arithmetic, as far as the seeded generator uses it
 (ECMA-262, ES2021: sections 6.1.6.1 for rounding to a double, 7.1.6 ToInt32, 7.1.7 ToUint32).
 A Number that holds an integer is an `int` here.
 */
module JsNumbers {
  const TWO31: int := 0x8000_0000
  const TWO32: int := 0x1_0000_0000
  const TWO53: int := 0x20_0000_0000_0000

  /** An unsigned 32-bit word. */
  type Word = x: int | 0 <= x < 0x1_0000_0000

  function ToUint32(x: int): Word {
    x % 0x1_0000_0000
  }

  function ToInt32(x: int): (y: int)
    ensures -0x8000_0000 <= y < 0x8000_0000
  {
    var u := ToUint32(x);
    if u >= 0x8000_0000 then u - 0x1_0000_0000 else u
  }

  // Bit operations on words, one bit at a time from the lowest.

  function Pow2(n: nat): (p: nat)
    ensures p >= 1
  {
    if n == 0 then 1 else 2 * Pow2(n - 1)
  }

  function XorBits(a: nat, b: nat): nat {
    if a == 0 && b == 0 then 0 else 2 * XorBits(a / 2, b / 2) + (if a % 2 != b % 2 then 1 else 0)
  }

  function OrBits(a: nat, b: nat): nat {
    if a == 0 && b == 0 then 0 else 2 * OrBits(a / 2, b / 2) + (if a % 2 == 1 || b % 2 == 1 then 1 else 0)
  }

  lemma {:induction false} BitsStayBelow(n: nat, a: nat, b: nat)
    requires a < Pow2(n) && b < Pow2(n)
    ensures XorBits(a, b) < Pow2(n) && OrBits(a, b) < Pow2(n)
  {
    if n > 0 {
      BitsStayBelow(n - 1, a / 2, b / 2);
    }
  }

  lemma WordWidth()
    ensures Pow2(32) == TWO32
  {
    assert Pow2(8) == 0x100;
    assert Pow2(16) == 0x1_0000;
    assert Pow2(24) == 0x100_0000;
  }

  function Xor(a: Word, b: Word): Word {
    WordWidth();
    BitsStayBelow(32, a, b);
    XorBits(a, b)
  }

  function Or(a: Word, b: Word): Word {
    WordWidth();
    BitsStayBelow(32, a, b);
    OrBits(a, b)
  }

  /** Zero-filling right shift, for the three distances the generator uses. */
  function ShiftRight(a: Word, n: nat): Word
    requires n == 7 || n == 14 || n == 15
  {
    if n == 7 then a / 0x80 else if n == 14 then a / 0x4000 else a / 0x8000
  }

  // What the bit operations mean.

  function Bit(x: nat, k: nat): nat {
    x / Pow2(k) % 2
  }

  lemma BitOfHalf(x: nat, k: nat)
    requires k > 0
    ensures Bit(x, k) == Bit(x / 2, k - 1)
  {
    var p := Pow2(k - 1);
    HalvingTwice(x, p);
  }

  lemma HalvingTwice(x: nat, p: nat)
    requires p > 0
    ensures x / (2 * p) == x / 2 / p
  {
    var q := x / 2 / p;
    var r := x / 2 - q * p;
    assert x == 2 * p * q + (2 * r + x % 2) && 0 <= 2 * r + x % 2 < 2 * p;
    QuotientIs(x, 2 * p, q);
  }

  lemma QuotientIs(x: nat, d: nat, q: nat)
    requires d > 0 && q * d <= x < (q + 1) * d
    ensures x / d == q
  {
    var e := x / d;
    assert e * d <= x < (e + 1) * d;
    if e < q {
      LargerFactor(e, q, d);
    } else if e > q {
      LargerFactor(q, e, d);
    }
  }

  lemma LargerFactor(e: nat, q: nat, d: nat)
    requires e < q
    ensures (e + 1) * d <= q * d
  {
  }

  lemma LowestBit(a: nat, b: nat)
    ensures XorBits(a, b) == 2 * XorBits(a / 2, b / 2) + (if a % 2 != b % 2 then 1 else 0)
    ensures OrBits(a, b) == 2 * OrBits(a / 2, b / 2) + (if a % 2 == 1 || b % 2 == 1 then 1 else 0)
  {
  }

  lemma Halves(a: nat, b: nat)
    ensures XorBits(a, b) / 2 == XorBits(a / 2, b / 2)
    ensures OrBits(a, b) / 2 == OrBits(a / 2, b / 2)
  {
    hide XorBits, OrBits;
    LowestBit(a, b);
  }

  lemma BitZero(x: nat)
    ensures Bit(x, 0) == x % 2
  {
  }

  /** XOR and OR act on each bit by itself. */
  lemma {:induction false} BitwiseMeaning(a: nat, b: nat, k: nat)
    ensures Bit(XorBits(a, b), k) == (if Bit(a, k) != Bit(b, k) then 1 else 0)
    ensures Bit(OrBits(a, b), k) == (if Bit(a, k) == 1 || Bit(b, k) == 1 then 1 else 0)
  {
    hide XorBits, OrBits, Bit;
    if k == 0 {
      LowestBit(a, b);
      BitZero(a);
      BitZero(b);
      BitZero(XorBits(a, b));
      BitZero(OrBits(a, b));
    } else {
      Halves(a, b);
      BitOfHalf(a, k);
      BitOfHalf(b, k);
      BitOfHalf(XorBits(a, b), k);
      BitOfHalf(OrBits(a, b), k);
      BitwiseMeaning(a / 2, b / 2, k - 1);
    }
  }

  /** A zero-filling shift by n drops the n lowest bits. */
  lemma ShiftDropsBits(a: Word, n: nat)
    requires n == 7 || n == 14 || n == 15
    ensures ShiftRight(a, n) * Pow2(n) <= a < (ShiftRight(a, n) + 1) * Pow2(n)
  {
    assert Pow2(7) == 0x80 && Pow2(14) == 0x80 * 0x80 && Pow2(15) == 0x8000 by {
      assert Pow2(4) == 0x10 && Pow2(10) == 0x400 && Pow2(12) == 0x1000;
    }
  }

  // The JavaScript operators, which convert their operands first and give a signed result.

  function JsXor(a: int, b: int): int {
    ToInt32(Xor(ToUint32(a), ToUint32(b)))
  }

  function JsOr(a: int, b: int): int {
    ToInt32(Or(ToUint32(a), ToUint32(b)))
  }

  function JsShiftRightZeroFill(a: int, n: nat): Word
    requires n == 7 || n == 14 || n == 15
  {
    ShiftRight(ToUint32(a), n)
  }

  /** `a << n`, for the three distances the seeding uses. */
  function JsShiftLeft(a: int, n: nat): int
    requires n == 8 || n == 16 || n == 24
  {
    ToInt32(ToUint32(a) * (if n == 8 then 0x100 else if n == 16 then 0x1_0000 else 0x100_0000))
  }

  function Imul(a: int, b: int): int {
    ToInt32(ToUint32(a) * ToUint32(b))
  }

  /** Rounds x to a multiple of u: to nearest, ties to the even multiple. */
  function RoundToMultiple(x: nat, u: nat): nat
    requires u > 0
  {
    var q, r := x / u, x % u;
    if 2 * r < u || (2 * r == u && q % 2 == 0) then q * u else (q + 1) * u
  }

  /** Rounds x to a double, whose significand has 53 bits; u is the spacing tried next. */
  function RoundToDouble(x: nat, u: nat): nat
    requires u > 0
    decreases x - u
  {
    if x < TWO53 * u then RoundToMultiple(x, u) else RoundToDouble(x, 2 * u)
  }

  /** `a + b` on two Numbers that hold natural numbers. */
  function JsAdd(a: nat, b: nat): nat {
    RoundToDouble(a + b, 1)
  }

  /** Additions up to 2^53 are exact. */
  lemma AddIsExact(a: nat, b: nat)
    requires a + b <= TWO53
    ensures JsAdd(a, b) == a + b
  {
    if a + b == TWO53 {
      assert RoundToDouble(TWO53, 2) == RoundToMultiple(TWO53, 2);
    }
  }

  /** An odd sum just past 2^53 is not a double. */
  lemma OddSumIsRounded(a: nat, b: nat)
    requires TWO53 < a + b < 2 * TWO53
    requires (a + b) % 2 == 1
    ensures JsAdd(a, b) != a + b
    ensures JsAdd(a, b) % 2 == 0
  {
    var x := a + b;
    assert RoundToDouble(x, 2) == RoundToMultiple(x, 2);
  }

  /** An even one is. */
  lemma EvenSumIsExact(a: nat, b: nat)
    requires TWO53 < a + b < 2 * TWO53
    requires (a + b) % 2 == 0
    ensures JsAdd(a, b) == a + b
  {
    var x := a + b;
    assert RoundToDouble(x, 2) == RoundToMultiple(x, 2);
  }

  /** Past 2^53 doubles are even. */
  lemma LargeDoublesAreEven(a: nat, b: nat)
    requires TWO53 < a + b < 2 * TWO53
    ensures JsAdd(a, b) % 2 == 0 && TWO53 <= JsAdd(a, b) <= a + b + 1
  {
    var x := a + b;
    assert RoundToDouble(x, 2) == RoundToMultiple(x, 2);
  }

  /** The nearest multiple, and of two equally near ones the even one. */
  lemma RoundsToNearest(x: nat, u: nat)
    requires u > 0
    ensures var r := RoundToMultiple(x, u);
      && r == r / u * u && 2 * r <= 2 * x + u && 2 * x <= 2 * r + u
      && (2 * r == 2 * x + u || 2 * x == 2 * r + u ==> r / u % 2 == 0)
  {
    var q := x / u;
    QuotientOfMultiple(q, u);
    QuotientOfMultiple(q + 1, u);
    assert x == q * u + x % u && (q + 1) * u == q * u + u;
  }

  lemma QuotientOfMultiple(q: nat, u: nat)
    requires u > 0
    ensures q * u / u == q
  {
    QuotientIs(q * u, u, q);
  }

  /** A double is rounded to the multiples of the power of two that leaves 53 significant bits. */
  lemma {:induction false} DoubleSpacing(x: nat, e: nat) returns (f: nat)
    requires e == 0 || TWO53 / 2 * Pow2(e) <= x
    ensures RoundToDouble(x, Pow2(e)) == RoundToMultiple(x, Pow2(f))
    ensures x < TWO53 * Pow2(f) && (f == 0 || TWO53 / 2 * Pow2(f) <= x)
    decreases x - Pow2(e)
  {
    if x < TWO53 * Pow2(e) {
      f := e;
    } else {
      f := DoubleSpacing(x, e + 1);
    }
  }

  /** Rounding to a double moves a number by at most 2^-53 of itself. */
  lemma {:induction false} RoundingError(x: nat, u: nat)
    requires u == 1 || (u > 1 && u % 2 == 0 && TWO53 / 2 * u <= x)
    ensures RoundToDouble(x, u) * TWO53 <= x * TWO53 + x
    decreases x - u
  {
    if x < TWO53 * u {
      MultipleIsNear(x, u);
    } else {
      RoundingError(x, 2 * u);
    }
  }

  lemma MultipleIsNear(x: nat, u: nat)
    requires u > 0
    ensures u == 1 ==> RoundToMultiple(x, u) == x
    ensures 2 * RoundToMultiple(x, u) <= 2 * x + u
  {
    var q, r := x / u, x % u;
    assert x == q * u + r;
    assert (q + 1) * u == q * u + u;
  }

  lemma SmallIntegersAreDoubles(x: nat)
    requires x < TWO53
    ensures RoundToDouble(x, 1) == x
  {
  }

  // OR of numbers without a common bit adds them.

  lemma {:induction false} OrAddsDisjointBits(n: nat, a: nat, b: nat)
    requires a % Pow2(n) == 0 && b < Pow2(n)
    ensures OrBits(a, b) == a + b
  {
    if n == 0 {
      BitsWithZero(a);
    } else {
      HalfMultiple(a, n);
      OrAddsDisjointBits(n - 1, a / 2, b / 2);
    }
  }

  lemma {:induction false} BitsWithZero(a: nat)
    ensures XorBits(a, 0) == XorBits(0, a) == OrBits(0, a) == OrBits(a, 0) == a
  {
    if a > 0 {
      BitsWithZero(a / 2);
    }
  }

  lemma HalfMultiple(a: nat, n: nat)
    requires n > 0 && a % Pow2(n) == 0
    ensures a % 2 == 0 && (a / 2) % Pow2(n - 1) == 0
  {
    var p := Pow2(n - 1);
    var q := a / Pow2(n);
    assert a == q * (2 * p) == 2 * (q * p);
    assert (q * p) % p == 0 by {
      RemainderOfMultiple(q, p);
    }
  }

  lemma RemainderOfMultiple(q: nat, p: nat)
    requires p > 0
    ensures (q * p) % p == 0
  {
    var d := q * p / p - q;
    assert (q * p) % p == -d * p;
  }

  /** The bit operations work digit by digit, here on base 2^n. */
  lemma {:induction false} BitsSplit(n: nat, a: nat, b: nat, c: nat, d: nat)
    requires c < Pow2(n) && d < Pow2(n)
    ensures XorBits(a * Pow2(n) + c, b * Pow2(n) + d) == XorBits(a, b) * Pow2(n) + XorBits(c, d)
    ensures OrBits(a * Pow2(n) + c, b * Pow2(n) + d) == OrBits(a, b) * Pow2(n) + OrBits(c, d)
  {
    hide XorBits, OrBits;
    if n == 0 {
      BitsWithZero(0);
    } else {
      HalfOfSplit(n, a, c);
      HalfOfSplit(n, b, d);
      LowestBit(a * Pow2(n) + c, b * Pow2(n) + d);
      LowestBit(c, d);
      BitsSplit(n - 1, a, b, c / 2, d / 2);
      Doubled(XorBits(a, b), n);
      Doubled(OrBits(a, b), n);
      hide Pow2;
    }
  }

  lemma Doubled(x: nat, n: nat)
    requires n > 0
    ensures x * Pow2(n) == 2 * (x * Pow2(n - 1))
  {
  }

  lemma HalfOfSplit(n: nat, a: nat, c: nat)
    requires n > 0
    ensures (a * Pow2(n) + c) / 2 == a * Pow2(n - 1) + c / 2
    ensures (a * Pow2(n) + c) % 2 == c % 2
  {
    var m := a * Pow2(n - 1);
    assert a * Pow2(n) == 2 * m;
  }

  // The conversions forget everything but the residue modulo 2^32.

  lemma ToUint32OfToInt32(x: int)
    ensures ToUint32(ToInt32(x)) == ToUint32(x)
  {
    var u := ToUint32(x);
    if u >= TWO31 {
      assert (u - TWO32) % TWO32 == u;
    }
  }

  lemma ToUint32OfSum(a: int, b: int)
    ensures ToUint32(a + b) == ToUint32(ToUint32(a) + ToUint32(b))
  {
    var qa, qb := a / TWO32, b / TWO32;
    var ra: int, rb: int := ToUint32(a), ToUint32(b);
    assert a == qa * TWO32 + ra && b == qb * TWO32 + rb;
    assert a + b == (qa + qb) * TWO32 + (ra + rb);
    ShiftByModulus(ra + rb, qa + qb);
  }

  lemma ShiftByModulus(x: int, q: int)
    ensures ToUint32(q * TWO32 + x) == ToUint32(x)
  {
    var y := q * TWO32 + x;
    assert y - TWO32 * (y / TWO32) == y % TWO32;
    assert x - TWO32 * (x / TWO32) == x % TWO32;
  }
}
