/**
 The seeded generator behind the draw: a JavaScript closure over a Number that is never
 truncated, against a Mulberry32 that works on 32-bit words throughout.
 */
module Mulberry32 {
  import opened JsNumbers

  const INCREMENT: int := 0x6d2b79f5

  /** A SHA-256 digest; the hash function itself stays uninterpreted and is passed around. */
  type Byte = x: int | 0 <= x < 0x100
  type Digest = d: seq<Byte> | |d| == 32 witness seq(32, _ => 0)

  /** `((d[0] << 24) | (d[1] << 16) | (d[2] << 8) | d[3]) >>> 0` */
  function SeedWord(d: Digest): Word {
    ToUint32(JsOr(JsOr(JsOr(JsShiftLeft(d[0], 24), JsShiftLeft(d[1], 16)), JsShiftLeft(d[2], 8)), d[3]))
  }

  /** One OR of the expression: v lies below the bits of u. */
  lemma OrOfWords(a: int, b: int, q: nat, u: Word, v: Word, n: nat)
    requires ToUint32(a) == u == q * Pow2(n) && ToUint32(b) == v < Pow2(n)
    ensures ToUint32(JsOr(a, b)) == u + v
  {
    RemainderOfMultiple(q, Pow2(n));
    OrAddsDisjointBits(n, u, v);
    OrIsWordOr(a, b);
  }

  lemma ShiftedByte(b: Byte, n: nat)
    requires n == 8 || n == 16 || n == 24
    ensures ToUint32(JsShiftLeft(b, n)) == b as int * Pow2(n) < TWO32
  {
    ByteBoundaries();
    hide Pow2, ToInt32;
    var x := b as int * Pow2(n);
    assert ToUint32(b) == b && ToUint32(x) == x;
    hide ToUint32;
    ToUint32OfToInt32(x);
  }

  lemma ByteBoundaries()
    ensures Pow2(8) == 0x100 && Pow2(16) == 0x1_0000 && Pow2(24) == 0x100_0000
  {
    assert Pow2(4) == 0x10 && Pow2(12) == 0x1000 && Pow2(20) == 0x10_0000;
  }

  /** The signed intermediate results do not show: the seed is the first four digest bytes, big-endian and unsigned. */
  lemma SeedWordIsBigEndian(d: Digest)
    ensures SeedWord(d) == d[0] as int * 0x100_0000 + d[1] as int * 0x1_0000 + d[2] as int * 0x100 + d[3] as int
  {
    var b0, b1, b2, b3 := d[0] as int, d[1] as int, d[2] as int, d[3] as int;
    ByteBoundaries();
    ShiftedByte(d[0], 24);
    ShiftedByte(d[1], 16);
    ShiftedByte(d[2], 8);
    assert ToUint32(b3) == b3;
    hide *;
    var high, middle := JsOr(JsShiftLeft(b0, 24), JsShiftLeft(b1, 16)), JsShiftLeft(b2, 8);
    OrOfWords(JsShiftLeft(b0, 24), JsShiftLeft(b1, 16), b0, b0 * 0x100_0000, b1 * 0x1_0000, 24);
    OrOfWords(high, middle, b0 * 0x100 + b1, b0 * 0x100_0000 + b1 * 0x1_0000, b2 * 0x100, 16);
    OrOfWords(JsOr(high, middle), b3, b0 * 0x1_0000 + b1 * 0x100 + b2, b0 * 0x100_0000 + b1 * 0x1_0000 + b2 * 0x100,
              b3, 8);
    assert SeedWord(d) == ToUint32(JsOr(JsOr(high, middle), b3)) by {
      SeedExpression(d);
    }
  }

  lemma SeedExpression(d: Digest)
    ensures SeedWord(d) == ToUint32(JsOr(JsOr(JsOr(JsShiftLeft(d[0], 24), JsShiftLeft(d[1], 16)),
                                              JsShiftLeft(d[2], 8)), d[3]))
  {
  }

  // ---- The reference: every intermediate value is a word ----

  function WordAdd(a: Word, b: Word): Word {
    (a + b) % 0x1_0000_0000
  }

  function WordMul(a: Word, b: Word): Word {
    (a * b) % 0x1_0000_0000
  }

  function MixFirst(t: Word): Word {
    WordMul(Xor(t, ShiftRight(t, 15)), Or(t, 1))
  }

  function MixSecond(t: Word): Word {
    Xor(t, WordAdd(t, WordMul(Xor(t, ShiftRight(t, 7)), Or(t, 61))))
  }

  function Mix(state: Word): Word {
    var t := MixSecond(MixFirst(state));
    Xor(t, ShiftRight(t, 14))
  }

  /** The wrapped state after k calls. */
  function WordState(seed: Word, k: nat): Word {
    if k == 0 then seed else WordAdd(WordState(seed, k - 1), INCREMENT)
  }

  // ---- The closure ----

  /** The closure's variable after k calls: a Number that only ever grows. */
  function Accumulator(hash: nat, k: nat): nat {
    if k == 0 then hash else JsAdd(Accumulator(hash, k - 1), INCREMENT)
  }

  /** The word the k-th call (counted from 1) returns, before the division by 2^32. */
  function Output(hash: nat, k: nat): Word {
    Mix(ToUint32(Accumulator(hash, k)))
  }

  class SeededRandom {
    var hash: nat

    constructor (seedBytes: Digest)
      ensures hash == SeedWord(seedBytes)
    {
      hash := SeedWord(seedBytes);
    }

    /** One call of the closure; the caller gets `numerator / 2^32`. */
    method Next() returns (numerator: Word)
      modifies this
      ensures hash == JsAdd(old(hash), INCREMENT)
      ensures numerator == Mix(ToUint32(hash))
    {
      hash := JsAdd(hash, INCREMENT);
      var t: int := hash;
      FirstStep(t);
      t := Imul(JsXor(t, JsShiftRightZeroFill(t, 15)), JsOr(t, 1));
      SecondStep(t);
      t := JsXor(t, t + Imul(JsXor(t, JsShiftRightZeroFill(t, 7)), JsOr(t, 61)));
      LastStep(t);
      numerator := ToUint32(JsXor(t, JsShiftRightZeroFill(t, 14)));
    }
  }

  lemma ImulIsWordMul(a: int, b: int, u: Word, v: Word)
    requires ToUint32(a) == u && ToUint32(b) == v
    ensures ToUint32(Imul(a, b)) == WordMul(u, v)
  {
    ToUint32OfToInt32(u * v);
  }

  lemma XorIsWordXor(a: int, b: int)
    ensures ToUint32(JsXor(a, b)) == Xor(ToUint32(a), ToUint32(b))
  {
    ToUint32OfToInt32(Xor(ToUint32(a), ToUint32(b)));
  }

  lemma OrIsWordOr(a: int, b: int)
    ensures ToUint32(JsOr(a, b)) == Or(ToUint32(a), ToUint32(b))
  {
    ToUint32OfToInt32(Or(ToUint32(a), ToUint32(b)));
  }

  lemma FirstStep(t: int)
    ensures ToUint32(Imul(JsXor(t, JsShiftRightZeroFill(t, 15)), JsOr(t, 1))) == MixFirst(ToUint32(t))
  {
    var u := ToUint32(t);
    XorIsWordXor(t, JsShiftRightZeroFill(t, 15));
    OrIsWordOr(t, 1);
    ImulIsWordMul(JsXor(t, JsShiftRightZeroFill(t, 15)), JsOr(t, 1), Xor(u, ShiftRight(u, 15)), Or(u, 1));
  }

  lemma SecondProduct(t: int)
    ensures ToUint32(Imul(JsXor(t, JsShiftRightZeroFill(t, 7)), JsOr(t, 61)))
         == WordMul(Xor(ToUint32(t), ShiftRight(ToUint32(t), 7)), Or(ToUint32(t), 61))
  {
    var u := ToUint32(t);
    XorIsWordXor(t, JsShiftRightZeroFill(t, 7));
    OrIsWordOr(t, 61);
    ImulIsWordMul(JsXor(t, JsShiftRightZeroFill(t, 7)), JsOr(t, 61), Xor(u, ShiftRight(u, 7)), Or(u, 61));
  }

  lemma XorOfSum(t: int, product: int)
    ensures ToUint32(JsXor(t, t + product)) == Xor(ToUint32(t), WordAdd(ToUint32(t), ToUint32(product)))
  {
    ToUint32OfSum(t, product);
    XorIsWordXor(t, t + product);
  }

  lemma SecondStep(t: int)
    ensures ToUint32(JsXor(t, t + Imul(JsXor(t, JsShiftRightZeroFill(t, 7)), JsOr(t, 61)))) == MixSecond(ToUint32(t))
  {
    SecondProduct(t);
    XorOfSum(t, Imul(JsXor(t, JsShiftRightZeroFill(t, 7)), JsOr(t, 61)));
  }

  lemma LastStep(t: int)
    ensures ToUint32(JsXor(t, JsShiftRightZeroFill(t, 14))) == Xor(ToUint32(t), ShiftRight(ToUint32(t), 14))
  {
    hide Xor, ToInt32, JsXor;
    XorIsWordXor(t, JsShiftRightZeroFill(t, 14));
  }

  // ---- The two generators agree ----

  lemma {:induction false} AccumulatorIsExact(seed: Word, k: nat)
    requires seed + k * INCREMENT <= TWO53
    ensures Accumulator(seed, k) == seed + k * INCREMENT
  {
    if k > 0 {
      AccumulatorIsExact(seed, k - 1);
      AddIsExact(seed + (k - 1) * INCREMENT, INCREMENT);
    }
  }

  lemma {:induction false} WordStateClosedForm(seed: Word, k: nat)
    ensures WordState(seed, k) == (seed + k * INCREMENT) % TWO32
  {
    if k > 0 {
      WordStateClosedForm(seed, k - 1);
      ToUint32OfSum(seed + (k - 1) * INCREMENT, INCREMENT);
    }
  }

  /** Not truncating the accumulator changes no output while it is exact. */
  lemma ClosureIsMulberry32(seed: Word, k: nat)
    requires seed + k * INCREMENT <= TWO53
    ensures Output(seed, k) == Mix(WordState(seed, k))
  {
    AccumulatorIsExact(seed, k);
    WordStateClosedForm(seed, k);
  }

  // ---- Where they part ----

  /** The closure's low word is the wrapped state. */
  predicate Agree(seed: Word, k: nat) {
    ToUint32(Accumulator(seed, k)) == WordState(seed, k)
  }

  lemma ExactMeansAgree(seed: Word, k: nat)
    requires seed + k * INCREMENT <= TWO53
    ensures Agree(seed, k)
  {
    AccumulatorIsExact(seed, k);
    WordStateClosedForm(seed, k);
  }

  /**
   The first sum past 2^53 is kept exactly if it is even, and else rounded to an even number, whose low word is another
   one.
   */
  lemma FirstSumPast53Bits(seed: Word, k: nat)
    requires k > 0 && seed + (k - 1) * INCREMENT <= TWO53 < seed + k * INCREMENT
    ensures Agree(seed, k) <==> (seed + k * INCREMENT) % 2 == 0
    ensures Accumulator(seed, k) % 2 == 0 && TWO53 <= Accumulator(seed, k) <= seed + k * INCREMENT + 1
  {
    var sum := seed + (k - 1) * INCREMENT;
    AccumulatorIsExact(seed, k - 1);
    WordStateClosedForm(seed, k);
    LargeDoublesAreEven(sum, INCREMENT);
    if (sum + INCREMENT) % 2 == 0 {
      EvenSumIsExact(sum, INCREMENT);
    } else {
      SameParity(Accumulator(seed, k));
      SameParity(sum + INCREMENT);
    }
  }

  lemma SameParity(x: int)
    ensures ToUint32(x) % 2 == x % 2
  {
    assert x == (x / TWO32) * TWO32 + ToUint32(x);
  }

  /** The sum after that is odd, so if the two agreed until then they part now. */
  lemma SecondSumPast53Bits(seed: Word, k: nat)
    requires k > 1 && seed + (k - 2) * INCREMENT <= TWO53 < seed + (k - 1) * INCREMENT
    ensures Agree(seed, k - 1) ==> !Agree(seed, k)
  {
    hide Accumulator, JsAdd, WordState, ToUint32;
    if Agree(seed, k - 1) {
      var before, sum := Accumulator(seed, k - 1), seed + k * INCREMENT;
      FirstSumPast53Bits(seed, k - 1);
      assert sum % 2 == 1 && TWO53 < before + INCREMENT < 2 * TWO53;
      LargeDoublesAreEven(before, INCREMENT);
      NextAccumulator(seed, k);
      SameParity(Accumulator(seed, k));
      WordStateClosedForm(seed, k);
      EvenModulus(sum);
    }
  }

  lemma NextAccumulator(seed: nat, k: nat)
    requires k > 0
    ensures Accumulator(seed, k) == JsAdd(Accumulator(seed, k - 1), INCREMENT)
  {
  }

  lemma EvenModulus(x: int)
    ensures x % TWO32 % 2 == x % 2
  {
    SameParity(x);
  }

  /**
   For every seed and call count: all calls up to the k-th see the wrapped state exactly when the k-th sum is at most
   2^53, or is the first one beyond and even.
   */
  lemma AgreementIff(seed: Word, k: nat)
    ensures (forall j :: 0 <= j <= k ==> Agree(seed, j)) <==>
            seed + k * INCREMENT <= TWO53
            || (seed + (k - 1) * INCREMENT <= TWO53 && (seed + k * INCREMENT) % 2 == 0)
  {
    hide Agree;
    if seed + k * INCREMENT <= TWO53 {
      ExactUpTo(seed, k);
    } else if seed + (k - 1) * INCREMENT <= TWO53 {
      ExactUpTo(seed, k - 1);
      FirstSumPast53Bits(seed, k);
    } else {
      var j := FirstInexact(seed, k);
      SecondSumPast53Bits(seed, j + 1);
      assert !(Agree(seed, j) && Agree(seed, j + 1));
    }
  }

  lemma ExactUpTo(seed: Word, k: nat)
    requires seed + k * INCREMENT <= TWO53
    ensures forall j :: 0 <= j <= k ==> Agree(seed, j)
  {
    forall j: nat | j <= k
      ensures Agree(seed, j)
    {
      ExactMeansAgree(seed, j);
    }
  }

  /** The first call whose sum is past 2^53; it comes before the k-th. */
  lemma FirstInexact(seed: Word, k: nat) returns (j: nat)
    requires k > 0 && seed + (k - 1) * INCREMENT > TWO53
    ensures 0 < j < k && seed + (j - 1) * INCREMENT <= TWO53 < seed + j * INCREMENT
  {
    j := 1;
    while seed + j * INCREMENT <= TWO53
      invariant 1 <= j < k && seed + (j - 1) * INCREMENT <= TWO53
      decreases k - j
    {
      j := j + 1;
    }
  }

  /** The seed whose sums reach 2^53 + 1. */
  const LATE_SEED: Word := (TWO53 + 1) % INCREMENT

  lemma SmallBits()
    ensures XorBits(0, 0) == 0 && XorBits(1, 0) == 1 && XorBits(63, 0) == 63 && XorBits(1, 62) == 63
    ensures OrBits(0, 1) == OrBits(1, 1) == 1 && OrBits(0, 61) == 61 && OrBits(1, 61) == 61
  {
    BitsWithZero(1);
    BitsWithZero(63);
    BitsWithZero(61);
    BitsWithZero(31);
    BitsWithZero(30);
    assert XorBits(1, 62) == 2 * XorBits(0, 31) + 1;
    assert OrBits(1, 61) == 2 * OrBits(0, 30) + 1;
    assert OrBits(1, 1) == 2 * OrBits(0, 0) + 1;
  }

  /** The mix of 0 is 0, and that of 1 is 63. */
  lemma SmallMixes()
    ensures Mix(0) == 0 && Mix(1) == 63
  {
    hide XorBits, OrBits;
    SmallBits();
    assert MixFirst(0) == 0 && MixSecond(0) == 0;
    assert MixFirst(1) == 1 && MixSecond(1) == 63;
  }

  lemma OneBeyondIsRounded(a: nat, b: nat)
    requires a + b == TWO53 + 1
    ensures JsAdd(a, b) == TWO53
  {
    assert RoundToDouble(TWO53 + 1, 2) == RoundToMultiple(TWO53 + 1, 2) == TWO53;
  }

  /** Where the sums reach 2^53 + 1, the closure's state is 0 and its output 0; the wrapped generator's are 1 and 63. */
  lemma SumOneBeyond(seed: Word, k: nat)
    requires seed + k * INCREMENT == TWO53 + 1
    ensures forall j :: 0 <= j < k ==> Agree(seed, j)
    ensures !Agree(seed, k) && Output(seed, k) == 0 && Mix(WordState(seed, k)) == 63
  {
    hide Mix, JsAdd, WordState;
    ExactUpTo(seed, k - 1);
    AccumulatorIsExact(seed, k - 1);
    OneBeyondIsRounded(seed + (k - 1) * INCREMENT, INCREMENT);
    WordStateClosedForm(seed, k);
    SmallMixes();
  }

  /**
   A seed for which the two part, in state and output, as soon as the sums pass 2^53, after some 4.9 million calls.
   */
  lemma AccumulatorPast53Bits()
    ensures var k := (TWO53 + 1) / INCREMENT;
      && (forall j :: 0 <= j < k ==> Agree(LATE_SEED, j)) && !Agree(LATE_SEED, k)
      && Output(LATE_SEED, k) == 0 && Mix(WordState(LATE_SEED, k)) == 63
  {
    hide Agree, Output, Mix, WordState;
    SumOneBeyond(LATE_SEED, (TWO53 + 1) / INCREMENT);
  }

  // ---- Period ----

  const INVERSE: int := 0xdc58aa5d

  /** The odd increment is invertible, so 2^32 consecutive wrapped states are pairwise different. */
  lemma StatesDoNotRepeat(seed: Word, j: nat, k: nat)
    requires j < k < j + TWO32
    ensures WordState(seed, j) != WordState(seed, k)
  {
    WordStateClosedForm(seed, j);
    WordStateClosedForm(seed, k);
    var x, y := seed + j * INCREMENT, seed + k * INCREMENT;
    if x % TWO32 == y % TWO32 {
      DifferenceIsMultiple(k - j, y / TWO32 - x / TWO32);
    }
  }

  lemma DifferenceIsMultiple(d: nat, q: int)
    requires d * INCREMENT == q * TWO32
    ensures d % TWO32 == 0
  {
    var r := (INVERSE * INCREMENT - 1) / TWO32;
    assert INVERSE * INCREMENT == r * TWO32 + 1;
    assert d == TWO32 * (q * INVERSE - r * d);
    ShiftByModulus(0, q * INVERSE - r * d);
  }
}
