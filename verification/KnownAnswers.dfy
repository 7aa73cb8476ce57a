/**
 Known answers, computed digit by digit: the first two outputs of the generator from seed word 0, and the order in which
 that seed draws three tickets. They fix every constant, shift and operator of the mix.
 */
module KnownAnswers {
  import opened JsNumbers
  import opened IndexMapping
  import opened Mulberry32
  import opened FisherYates

  lemma XorOfPairs()
    ensures XorBits(0, 0) == 0 && XorBits(0, 1) == 1 && XorBits(0, 2) == 2 && XorBits(0, 3) == 3
    ensures XorBits(1, 0) == 1 && XorBits(1, 1) == 0 && XorBits(1, 2) == 3 && XorBits(1, 3) == 2
    ensures XorBits(2, 0) == 2 && XorBits(2, 1) == 3 && XorBits(2, 2) == 0 && XorBits(2, 3) == 1
    ensures XorBits(3, 0) == 3 && XorBits(3, 1) == 2 && XorBits(3, 2) == 1 && XorBits(3, 3) == 0
  {
  }

  lemma OrOfPairs()
    ensures OrBits(0, 0) == 0 && OrBits(0, 1) == 1 && OrBits(0, 2) == 2 && OrBits(0, 3) == 3
    ensures OrBits(1, 0) == 1 && OrBits(1, 1) == 1 && OrBits(1, 2) == 3 && OrBits(1, 3) == 3
    ensures OrBits(2, 0) == 2 && OrBits(2, 1) == 3 && OrBits(2, 2) == 2 && OrBits(2, 3) == 3
    ensures OrBits(3, 0) == 3 && OrBits(3, 1) == 3 && OrBits(3, 2) == 3 && OrBits(3, 3) == 3
  {
  }

  lemma TwoPairs(c: nat, d: nat)
    ensures XorBits(c, d) == 4 * XorBits(c / 4, d / 4) + XorBits(c % 4, d % 4)
    ensures OrBits(c, d) == 4 * OrBits(c / 4, d / 4) + OrBits(c % 4, d % 4)
  {
    assert Pow2(2) == 4;
    hide *;
    BitsSplit(2, c / 4, d / 4, c % 4, d % 4);
    assert c / 4 * 4 + c % 4 == c && d / 4 * 4 + d % 4 == d;
  }

  /** One hexadecimal digit of two numbers at a time, as two pairs of bits. */
  lemma NextDigit(a: nat, b: nat, c: nat, d: nat)
    requires c < 16 && d < 16
    ensures XorBits(16 * a + c, 16 * b + d) == 16 * XorBits(a, b) + 4 * XorBits(c / 4, d / 4) + XorBits(c % 4, d % 4)
    ensures OrBits(16 * a + c, 16 * b + d) == 16 * OrBits(a, b) + 4 * OrBits(c / 4, d / 4) + OrBits(c % 4, d % 4)
  {
    assert Pow2(4) == 16;
    hide *;
    BitsSplit(4, a, b, c, d);
    TwoPairs(c, d);
  }

  lemma FirstStateXor()
    ensures XorBits(0x6d2b79f5, 0xda56) == 0x6d2ba3a3
  {
    hide *;
    XorOfPairs();
    BitsWithZero(0x6d2b);
    NextDigit(0x6d2b, 0, 7, 0xd);
    NextDigit(0x6d2b7, 0xd, 9, 0xa);
    NextDigit(0x6d2b79, 0xda, 0xf, 5);
    NextDigit(0x6d2b79f, 0xda5, 5, 6);
  }

  lemma FirstStateOr()
    ensures OrBits(0x6d2b79f5, 1) == 0x6d2b79f5
  {
    hide *;
    OrOfPairs();
    BitsWithZero(0x6d2b79f);
    NextDigit(0x6d2b79f, 0, 5, 1);
  }

  lemma FirstStateStep()
    ensures MixFirst(0x6d2b79f5) == 0xfe7ca5ff
  {
    hide XorBits, OrBits;
    FirstStateXor();
    FirstStateOr();
    assert ShiftRight(0x6d2b79f5, 15) == 0xda56;
  }

  lemma FirstMiddleXor()
    ensures XorBits(0xfe7ca5ff, 0x1fcf94b) == 0xff805cb4
  {
    hide *;
    XorOfPairs();
    BitsWithZero(0xf);
    NextDigit(0xf, 0, 0xe, 1);
    NextDigit(0xfe, 1, 7, 0xf);
    NextDigit(0xfe7, 0x1f, 0xc, 0xc);
    NextDigit(0xfe7c, 0x1fc, 0xa, 0xf);
    NextDigit(0xfe7ca, 0x1fcf, 5, 9);
    NextDigit(0xfe7ca5, 0x1fcf9, 0xf, 4);
    NextDigit(0xfe7ca5f, 0x1fcf94, 0xf, 0xb);
  }

  lemma FirstMiddleOr()
    ensures OrBits(0xfe7ca5ff, 0x3d) == 0xfe7ca5ff
  {
    hide *;
    OrOfPairs();
    BitsWithZero(0xfe7ca5);
    NextDigit(0xfe7ca5, 0, 0xf, 3);
    NextDigit(0xfe7ca5f, 3, 0xf, 0xd);
  }

  lemma FirstSumXor()
    ensures XorBits(0xfe7ca5ff, 0xba49014b) == 0x4435a4b4
  {
    hide *;
    XorOfPairs();
    NextDigit(0, 0, 0xf, 0xb);
    NextDigit(0xf, 0xb, 0xe, 0xa);
    NextDigit(0xfe, 0xba, 7, 4);
    NextDigit(0xfe7, 0xba4, 0xc, 9);
    NextDigit(0xfe7c, 0xba49, 0xa, 0);
    NextDigit(0xfe7ca, 0xba490, 5, 1);
    NextDigit(0xfe7ca5, 0xba4901, 0xf, 4);
    NextDigit(0xfe7ca5f, 0xba49014, 0xf, 0xb);
  }

  lemma FirstMiddleStep()
    ensures MixSecond(0xfe7ca5ff) == 0x4435a4b4
  {
    hide XorBits, OrBits;
    FirstMiddleXor();
    FirstMiddleOr();
    FirstSumXor();
    assert ShiftRight(0xfe7ca5ff, 7) == 0x1fcf94b;
    assert WordMul(0xff805cb4, 0xfe7ca5ff) == 0xbbcc5b4c;
    assert WordAdd(0xfe7ca5ff, 0xbbcc5b4c) == 0xba49014b;
  }

  lemma FirstLastXor()
    ensures XorBits(0x4435a4b4, 0x110d6) == 0x4434b462
  {
    hide *;
    XorOfPairs();
    BitsWithZero(0x443);
    NextDigit(0x443, 0, 5, 1);
    NextDigit(0x4435, 1, 0xa, 1);
    NextDigit(0x4435a, 0x11, 4, 0);
    NextDigit(0x4435a4, 0x110, 0xb, 0xd);
    NextDigit(0x4435a4b, 0x110d, 4, 6);
  }

  lemma FirstMix()
    ensures Mix(0x6d2b79f5) == 0x4434b462
  {
    hide XorBits, OrBits, MixFirst, MixSecond;
    FirstStateStep();
    FirstMiddleStep();
    FirstLastXor();
    assert ShiftRight(0x4435a4b4, 14) == 0x110d6;
  }

  lemma SecondStateXor()
    ensures XorBits(0xda56f3ea, 0x1b4ad) == 0xda574747
  {
    hide *;
    XorOfPairs();
    BitsWithZero(0xda5);
    NextDigit(0xda5, 0, 6, 1);
    NextDigit(0xda56, 1, 0xf, 0xb);
    NextDigit(0xda56f, 0x1b, 3, 4);
    NextDigit(0xda56f3, 0x1b4, 0xe, 0xa);
    NextDigit(0xda56f3e, 0x1b4a, 0xa, 0xd);
  }

  lemma SecondStateOr()
    ensures OrBits(0xda56f3ea, 1) == 0xda56f3eb
  {
    hide *;
    OrOfPairs();
    BitsWithZero(0xda56f3e);
    NextDigit(0xda56f3e, 0, 0xa, 1);
  }

  lemma SecondStateStep()
    ensures MixFirst(0xda56f3ea) == 0xaea0d32d
  {
    hide XorBits, OrBits;
    SecondStateXor();
    SecondStateOr();
    assert ShiftRight(0xda56f3ea, 15) == 0x1b4ad;
  }

  lemma SecondMiddleXor()
    ensures XorBits(0xaea0d32d, 0x15d41a6) == 0xaffd928b
  {
    hide *;
    XorOfPairs();
    BitsWithZero(0xa);
    NextDigit(0xa, 0, 0xe, 1);
    NextDigit(0xae, 1, 0xa, 5);
    NextDigit(0xaea, 0x15, 0, 0xd);
    NextDigit(0xaea0, 0x15d, 0xd, 4);
    NextDigit(0xaea0d, 0x15d4, 3, 1);
    NextDigit(0xaea0d3, 0x15d41, 2, 0xa);
    NextDigit(0xaea0d32, 0x15d41a, 0xd, 6);
  }

  lemma SecondMiddleOr()
    ensures OrBits(0xaea0d32d, 0x3d) == 0xaea0d33d
  {
    hide *;
    OrOfPairs();
    BitsWithZero(0xaea0d3);
    NextDigit(0xaea0d3, 0, 2, 3);
    NextDigit(0xaea0d32, 3, 0xd, 0xd);
  }

  lemma SecondSumXor()
    ensures XorBits(0xaea0d32d, 0xaeb54f4c) == 0x159c61
  {
    hide *;
    XorOfPairs();
    NextDigit(0, 0, 0xa, 0xa);
    NextDigit(0xa, 0xa, 0xe, 0xe);
    NextDigit(0xae, 0xae, 0xa, 0xb);
    NextDigit(0xaea, 0xaeb, 0, 5);
    NextDigit(0xaea0, 0xaeb5, 0xd, 4);
    NextDigit(0xaea0d, 0xaeb54, 3, 0xf);
    NextDigit(0xaea0d3, 0xaeb54f, 2, 4);
    NextDigit(0xaea0d32, 0xaeb54f4, 0xd, 0xc);
  }

  lemma SecondMiddleStep()
    ensures MixSecond(0xaea0d32d) == 0x159c61
  {
    hide XorBits, OrBits;
    SecondMiddleXor();
    SecondMiddleOr();
    SecondSumXor();
    assert ShiftRight(0xaea0d32d, 7) == 0x15d41a6;
    assert WordMul(0xaffd928b, 0xaea0d33d) == 0x147c1f;
    assert WordAdd(0xaea0d32d, 0x147c1f) == 0xaeb54f4c;
  }

  lemma SecondLastXor()
    ensures XorBits(0x159c61, 0x56) == 0x159c37
  {
    hide *;
    XorOfPairs();
    BitsWithZero(0x159c);
    NextDigit(0x159c, 0, 6, 5);
    NextDigit(0x159c6, 5, 1, 6);
  }

  lemma SecondMix()
    ensures Mix(0xda56f3ea) == 0x159c37
  {
    hide XorBits, OrBits, MixFirst, MixSecond;
    SecondStateStep();
    SecondMiddleStep();
    SecondLastXor();
    assert ShiftRight(0x159c61, 14) == 0x56;
  }

  /** The first two calls from seed word 0. */
  lemma OutputsOfSeedZero()
    ensures Output(0, 1) == 0x4434b462 && Output(0, 2) == 0x159c37
  {
    hide Mix;
    AccumulatorIsExact(0, 1);
    AccumulatorIsExact(0, 2);
    FirstMix();
    SecondMix();
  }

  lemma ChoicesOfSeedZero()
    ensures DrawnChoices(0, 3) == [0, 0, 0]
  {
    hide Output, JsIndex;
    OutputsOfSeedZero();
    JsIndexIsExact(0x4434b462, 3);
    JsIndexIsExact(0x159c37, 2);
    assert DrawnChoice(0, 3, 2) == 0 && DrawnChoice(0, 3, 1) == 0 && DrawnChoice(0, 3, 0) == 0;
  }

  /** A digest that starts with four zero bytes draws three tickets in this order. */
  lemma DrawOfSeedZero<T>(d: Digest, a: T, b: T, c: T)
    requires d[..4] == [0, 0, 0, 0]
    ensures Shuffle([a, b, c], DrawnChoices(SeedWord(d), 3)) == [b, c, a]
  {
    hide *;
    SeedOfZeroBytes(d);
    ChoicesOfSeedZero();
    SwapsByZeros(a, b, c);
  }

  lemma SeedOfZeroBytes(d: Digest)
    requires d[..4] == [0, 0, 0, 0]
    ensures SeedWord(d) == 0
  {
    assert d[0] == d[..4][0] && d[1] == d[..4][1] && d[2] == d[..4][2] && d[3] == d[..4][3];
    hide *;
    SeedWordIsBigEndian(d);
  }

  lemma SwapsByZeros<T>(a: T, b: T, c: T)
    ensures Shuffle([a, b, c], [0, 0, 0]) == [b, c, a]
  {
    var choices := [0, 0, 0];
    assert Swap([a, b, c], 2, 0) == [c, b, a];
    assert Swap([c, b, a], 1, 0) == [b, c, a];
    assert ShuffleDown([b, c, a], choices, 1) == [b, c, a];
    assert ShuffleDown([c, b, a], choices, 2) == ShuffleDown([b, c, a], choices, 1);
  }
}
