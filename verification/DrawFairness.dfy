/**
 The limits of a draw that depends on its seed through one 32-bit word: which words the generator never outputs, and how
 many orders of the tickets no seed can give.
 */
module DrawFairness {
  import opened JsNumbers
  import opened Sets
  import opened Mulberry32
  import opened FisherYates
  import opened WinnerAssignment
  import opened DrawDesk

  ghost function Words(): (words: set<Word>)
    ensures forall w: Word :: w in words
  {
    set w: Word | w in Interval(0, TWO32)
  }

  lemma WordCount()
    ensures |Words()| == TWO32
  {
    IntervalSize(0, TWO32, Words());
  }

  // ---- Outputs ----

  /** The second word of each pair of states that give the same output. */
  ghost predicate IsTwin(w: int) {
    0x1_0000 <= w < 0x1_8000 && w % 4 == 3
  }

  lemma XorWithTwo(q: nat)
    ensures XorBits(4 * q + 1, 2) == 4 * q + 3 && XorBits(4 * q + 3, 2) == 4 * q + 1
  {
    assert (4 * q + 1) / 2 == 2 * q && (4 * q + 3) / 2 == 2 * q + 1;
    assert XorBits(4 * q + 1, 2) == 2 * XorBits(2 * q, 1) + 1;
    assert XorBits(4 * q + 3, 2) == 2 * XorBits(2 * q + 1, 1) + 1;
    assert XorBits(2 * q, 1) == 2 * XorBits(q, 0) + 1;
    assert XorBits(2 * q + 1, 1) == 2 * XorBits(q, 0);
    BitsWithZero(q);
  }

  lemma OrWithOne(q: nat)
    ensures OrBits(2 * q + 1, 1) == 2 * q + 1
  {
    BitsWithZero(q);
    assert (2 * q + 1) / 2 == q && (2 * q + 1) % 2 == 1;
    assert OrBits(2 * q + 1, 1) == 2 * OrBits(q, 0) + 1;
  }

  lemma FirstStepOfOdd(q: nat, swapped: Word)
    requires 0x8000 <= q < 0xC000 && XorBits(2 * q + 1, 2) == swapped
    ensures MixFirst(2 * q + 1) == WordMul(swapped, 2 * q + 1)
  {
    OrWithOne(q);
    hide XorBits, OrBits;
    assert ShiftRight(2 * q + 1, 15) == 2;
  }

  /**
   States 4q + 1 and 4q + 3 are multiplied with each other in the first step of the mix, so they give the same output.
   */
  lemma TwinsMixAlike(q: nat)
    requires 0x4000 <= q < 0x6000
    ensures Mix(4 * q + 1) == Mix(4 * q + 3)
  {
    hide *;
    XorWithTwo(q);
    FirstStepOfOdd(2 * q, 4 * q + 3);
    FirstStepOfOdd(2 * q + 1, 4 * q + 1);
    ProductCommutes(4 * q + 1, 4 * q + 3);
    MixAfterFirst(4 * q + 1, 4 * q + 3);
  }

  lemma ProductCommutes(a: Word, b: Word)
    ensures WordMul(a, b) == WordMul(b, a)
  {
  }

  lemma MixAfterFirst(a: Word, b: Word)
    requires MixFirst(a) == MixFirst(b)
    ensures Mix(a) == Mix(b)
  {
    hide MixFirst, MixSecond;
  }

  ghost function Outputs(states: set<Word>): set<Word> {
    Image(states, (w: Word) => Mix(w))
  }

  ghost function Twins(): set<Word> {
    set w: Word | w in Words() && IsTwin(w)
  }

  lemma TwinCount()
    ensures |Twins()| == 8192
  {
    var quarters := Interval(0x4000, 0x6000);
    var twin := (q: int) => 4 * q + 3;
    IntervalSize(0x4000, 0x6000, quarters);
    ImageSize(quarters, twin);
    assert Injective(quarters, twin);
    forall w: int
      ensures w in Image(quarters, twin) <==> w in Twins()
    {
      if w in Twins() {
        assert w / 4 in quarters && twin(w / 4) == w;
      }
    }
    SubsetSize(Image(quarters, twin), Twins());
    SubsetSize(Twins(), Image(quarters, twin));
  }

  lemma OutputOf(states: set<Word>, w: Word)
    requires w in states
    ensures Mix(w) in Outputs(states)
  {
    var mix := (v: Word) => Mix(v);
    assert mix(w) == Mix(w);
  }

  /** Over all states, and so over the whole period for any seed, at least 8192 words never come out. */
  lemma OutputsMissWords()
    ensures |Outputs(Words())| <= TWO32 - 8192
  {
    hide Mix;
    var others := Words() - Twins();
    WordCount();
    TwinCount();
    assert Words() == others + Twins() && others !! Twins();
    forall o | o in Outputs(Words())
      ensures o in Outputs(others)
    {
      var w :| w in Words() && Mix(w) == o;
      if IsTwin(w) {
        TwinsMixAlike(w / 4);
        OutputOf(others, w - 2);
      } else {
        OutputOf(others, w);
      }
    }
    SubsetSize(Outputs(Words()), Outputs(others));
    ImageSize(others, (w: Word) => Mix(w));
  }

  // ---- Orders ----

  function Factorial(n: nat): (f: nat)
    ensures f >= 1
  {
    if n == 0 then 1 else n * Factorial(n - 1)
  }

  ghost function ChoiceVectors(n: nat): set<seq<nat>> {
    if n == 0 then {[]} else Extended(ChoiceVectors(n - 1), n)
  }

  /** Every vector with every number below m after it. */
  ghost function Extended(vectors: set<seq<nat>>, m: nat): set<seq<nat>> {
    set c, j: nat | c in vectors && 0 <= j < m :: c + [j]
  }

  lemma SnocsAreEqual(c: seq<nat>, d: seq<nat>, i: nat, j: nat)
    ensures c + [i] == d + [j] <==> c == d && i == j
  {
    if c + [i] == d + [j] {
      assert (c + [i])[..|c|] == c && (d + [j])[..|d|] == d;
      assert (c + [i])[|c|] == i && (d + [j])[|d|] == j;
    }
  }

  ghost function Snoc(j: nat): seq<nat> -> seq<nat> {
    (c: seq<nat>) => c + [j]
  }

  lemma SnocIsInjective(vectors: set<seq<nat>>, j: nat)
    ensures Injective(vectors, Snoc(j))
  {
    forall c, d | c in vectors && d in vectors && Snoc(j)(c) == Snoc(j)(d)
      ensures c == d
    {
      SnocsAreEqual(c, d, j, j);
    }
  }

  lemma ExtendedGrows(vectors: set<seq<nat>>, m: nat)
    ensures Extended(vectors, m + 1) == Extended(vectors, m) + Image(vectors, Snoc(m))
    ensures Extended(vectors, m) !! Image(vectors, Snoc(m))
  {
    forall v
      ensures v in Extended(vectors, m + 1) <==> v in Extended(vectors, m) + Image(vectors, Snoc(m))
    {
      if v in Image(vectors, Snoc(m)) {
        var c :| c in vectors && v == Snoc(m)(c);
        assert v == c + [m];
      }
      if v in Extended(vectors, m + 1) && v !in Extended(vectors, m) {
        var c: seq<nat>, j: nat :| c in vectors && j < m + 1 && v == c + [j];
        assert j == m && v == Snoc(m)(c);
      }
    }
    forall v | v in Image(vectors, Snoc(m))
      ensures v !in Extended(vectors, m)
    {
      if v in Extended(vectors, m) {
        var c: seq<nat>, j: nat :| c in vectors && j < m && v == c + [j];
        var d :| d in vectors && v == Snoc(m)(d);
        SnocsAreEqual(c, d, j, m);
      }
    }
  }

  lemma {:induction false} ExtendedSize(vectors: set<seq<nat>>, m: nat)
    ensures |Extended(vectors, m)| == |vectors| * m
  {
    hide Extended, Snoc, Image, Injective;
    if m == 0 {
      NothingExtended(vectors);
    } else {
      ExtendedSize(vectors, m - 1);
      ExtendedGrows(vectors, m - 1);
      SnocIsInjective(vectors, m - 1);
      ImageSize(vectors, Snoc(m - 1));
      assert |Extended(vectors, m)| == |Extended(vectors, m - 1)| + |Image(vectors, Snoc(m - 1))|;
    }
  }

  lemma NothingExtended(vectors: set<seq<nat>>)
    ensures Extended(vectors, 0) == {}
  {
  }

  lemma {:induction false} ChoiceVectorCount(n: nat)
    ensures |ChoiceVectors(n)| == Factorial(n)
    ensures forall c :: c in ChoiceVectors(n) ==> IsChoice(c, n)
  {
    if n > 0 {
      ChoiceVectorCount(n - 1);
      ExtendedSize(ChoiceVectors(n - 1), n);
    }
  }

  lemma {:induction false} FactorialExceedsWords(n: nat)
    requires n >= 13
    ensures Factorial(n) > TWO32
  {
    if n == 13 {
      assert Factorial(4) == 24;
      assert Factorial(7) == 5040;
      assert Factorial(10) == 3628800;
    } else {
      FactorialExceedsWords(n - 1);
    }
  }

  /** The choice vectors the generator can draw from some seed word. */
  ghost function DrawnVectors(n: nat): set<seq<nat>> {
    Image(Words(), (w: Word) => DrawnChoices(w, n))
  }

  lemma DrawnVectorCount(n: nat)
    ensures |DrawnVectors(n)| <= TWO32
  {
    WordCount();
    ImageSize(Words(), (w: Word) => DrawnChoices(w, n));
  }

  lemma DrawnIsCounted(w: Word, n: nat)
    ensures DrawnChoices(w, n) in DrawnVectors(n)
  {
    var draw := (v: Word) => DrawnChoices(v, n);
    assert draw(w) == DrawnChoices(w, n) && w in Words();
  }

  ghost predicate NeverDrawn(c: seq<nat>) {
    forall w: Word :: DrawnChoices(w, |c|) != c
  }

  /** From 13 tickets on there are more choice vectors than seed words. */
  lemma SomeChoicesAreNeverDrawn(n: nat)
    requires n >= 13
    ensures exists c :: IsChoice(c, n) && NeverDrawn(c)
  {
    hide DrawnChoices, Factorial, Words;
    ChoiceVectorCount(n);
    FactorialExceedsWords(n);
    DrawnVectorCount(n);
    if ChoiceVectors(n) <= DrawnVectors(n) {
      SubsetSize(ChoiceVectors(n), DrawnVectors(n));
      assert false;
    }
    var c :| c in ChoiceVectors(n) && c !in DrawnVectors(n);
    forall w: Word
      ensures DrawnChoices(w, n) != c
    {
      DrawnIsCounted(w, n);
    }
    assert IsChoice(c, n) && NeverDrawn(c);
  }

  ghost predicate IsOrderOf<T>(p: seq<T>, s: seq<T>) {
    multiset(p) == multiset(s)
  }

  ghost predicate NeverShuffled<T>(p: seq<T>, s: seq<T>) {
    forall w: Word :: Shuffle(s, DrawnChoices(w, |s|)) != p
  }

  /** So from 13 tickets on some order of them comes from no seed word. */
  lemma SomeOrderIsNeverDrawn<T>(s: seq<T>)
    requires Distinct(s) && |s| >= 13
    ensures exists p :: IsOrderOf(p, s) && NeverShuffled(p, s)
  {
    hide DrawnChoices, Shuffle;
    SomeChoicesAreNeverDrawn(|s|);
    var c :| IsChoice(c, |s|) && NeverDrawn(c);
    var p := Shuffle(s, c);
    assert IsOrderOf(p, s) by {
      ShuffleIsOrder(s, c);
    }
    forall w: Word
      ensures Shuffle(s, DrawnChoices(w, |s|)) != p
    {
      ShuffleIsInjective(s, DrawnChoices(w, |s|), c);
    }
    assert NeverShuffled(p, s);
  }

  lemma ShuffleIsOrder<T>(s: seq<T>, c: seq<nat>)
    requires IsChoice(c, |s|)
    ensures IsOrderOf(Shuffle(s, c), s)
  {
    ShuffleDownPermutes(s, c, |s|);
  }

  ghost predicate HasNoSeed(sha: string -> Digest, p: seq<Ticket>, sold: seq<Ticket>) {
    forall seed: string :: DrawOrder(sha, sold, seed) != p
  }

  /** Whatever SHA-256 does: no seed string makes a draw of 13 or more sold tickets go in that order. */
  lemma SomeOrderHasNoSeed(sha: string -> Digest, sold: seq<Ticket>)
    requires DistinctIds(sold) && |sold| >= 13
    ensures exists p :: IsOrderOf(p, sold) && HasNoSeed(sha, p, sold)
  {
    hide DrawnChoices, Shuffle;
    SomeOrderIsNeverDrawn(sold);
    var p :| IsOrderOf(p, sold) && NeverShuffled(p, sold);
    forall seed: string
      ensures DrawOrder(sha, sold, seed) != p
    {
      assert DrawOrder(sha, sold, seed) == Shuffle(sold, DrawnChoices(SeedWord(sha(seed)), |sold|));
    }
    assert HasNoSeed(sha, p, sold);
  }
}
