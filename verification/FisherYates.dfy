/**
 The in-place shuffle of a draw. The loop itself favours no order: choice vectors correspond one to one to the
 permutations of the tickets. Which of them the seeded generator can draw is another matter, see `DrawFairness`.
 */
module FisherYates {
  import opened JsNumbers
  import opened IndexMapping
  import opened Mulberry32

  function Swap<T>(s: seq<T>, i: nat, j: nat): (r: seq<T>)
    requires i < |s| && j < |s|
    ensures |r| == |s|
  {
    s[i := s[j]][j := s[i]]
  }

  ghost predicate Distinct<T>(s: seq<T>) {
    forall i, j :: 0 <= i < j < |s| ==> s[i] != s[j]
  }

  /** A vector that picks, for every position i, an index of at most i. */
  ghost predicate IsChoice(c: seq<nat>, n: nat) {
    |c| == n && forall i :: 0 <= i < n ==> c[i] <= i
  }

  /** The loop from position n - 1 down to 1: position i is swapped with position c[i]. */
  function ShuffleDown<T>(s: seq<T>, c: seq<nat>, n: nat): (r: seq<T>)
    requires n <= |s| == |c|
    requires forall i :: 0 <= i < |c| ==> c[i] <= i
    ensures |r| == |s|
    decreases n
  {
    if n <= 1 then s else ShuffleDown(Swap(s, n - 1, c[n - 1]), c, n - 1)
  }

  function Shuffle<T>(s: seq<T>, c: seq<nat>): (r: seq<T>)
    requires IsChoice(c, |s|)
  {
    ShuffleDown(s, c, |s|)
  }

  /** Two positions exchange their elements and no other moves. */
  lemma SwapExchanges<T>(s: seq<T>, i: nat, j: nat)
    requires i < |s| && j < |s|
    ensures Swap(s, i, j)[i] == s[j] && Swap(s, i, j)[j] == s[i]
    ensures forall k :: 0 <= k < |s| && k != i && k != j ==> Swap(s, i, j)[k] == s[k]
    ensures Swap(Swap(s, i, j), i, j) == s
  {
  }

  lemma SwapPermutes<T>(s: seq<T>, i: nat, j: nat)
    requires i < |s| && j < |s|
    ensures multiset(Swap(s, i, j)) == multiset(s)
  {
  }

  /** Positions from n on are finished, and nothing is lost or copied below. */
  lemma {:induction false} ShuffleDownPermutes<T>(s: seq<T>, c: seq<nat>, n: nat)
    requires n <= |s| && IsChoice(c, |s|)
    ensures multiset(ShuffleDown(s, c, n)) == multiset(s)
    ensures forall k :: n <= k < |s| ==> ShuffleDown(s, c, n)[k] == s[k]
    decreases n
  {
    if n > 1 {
      var t := Swap(s, n - 1, c[n - 1]);
      SwapPermutes(s, n - 1, c[n - 1]);
      ShuffleDownPermutes(t, c, n - 1);
    }
  }

  // ---- One to one ----

  lemma DistinctAfterSwap<T>(s: seq<T>, i: nat, j: nat)
    requires i < |s| && j < |s| && Distinct(s)
    ensures Distinct(Swap(s, i, j))
  {
  }

  /** The element swapped into position n - 1 stays there. */
  lemma ResultAtLast<T>(s: seq<T>, c: seq<nat>, n: nat)
    requires 1 < n <= |s| && IsChoice(c, |s|)
    ensures ShuffleDown(s, c, n)[n - 1] == s[c[n - 1]]
  {
    ShuffleDownPermutes(Swap(s, n - 1, c[n - 1]), c, n - 1);
  }

  /** Below position n the vectors are recovered from the result. */
  lemma {:induction false} EqualResultsEqualChoices<T>(s: seq<T>, c: seq<nat>, d: seq<nat>, n: nat)
    requires Distinct(s) && IsChoice(c, |s|) && IsChoice(d, |s|) && n <= |s|
    requires ShuffleDown(s, c, n) == ShuffleDown(s, d, n)
    ensures c[..n] == d[..n]
    decreases n
  {
    if n <= 1 {
      assert forall i :: 0 <= i < n ==> c[i] == 0 == d[i];
    } else {
      var sc, sd := Swap(s, n - 1, c[n - 1]), Swap(s, n - 1, d[n - 1]);
      var rc, rd := ShuffleDown(sc, c, n - 1), ShuffleDown(sd, d, n - 1);
      ResultAtLast(s, c, n);
      ResultAtLast(s, d, n);
      assert c[n - 1] == d[n - 1];
      DistinctAfterSwap(s, n - 1, c[n - 1]);
      EqualResultsEqualChoices(sc, c, d, n - 1);
      assert c[..n] == c[..n - 1] + [c[n - 1]];
      assert d[..n] == d[..n - 1] + [d[n - 1]];
    }
  }

  /** Different choice vectors give different orders. */
  lemma ShuffleIsInjective<T>(s: seq<T>, c: seq<nat>, d: seq<nat>)
    requires Distinct(s) && IsChoice(c, |s|) && IsChoice(d, |s|)
    ensures Shuffle(s, c) == Shuffle(s, d) <==> c == d
  {
    if Shuffle(s, c) == Shuffle(s, d) {
      EqualResultsEqualChoices(s, c, d, |s|);
      assert c == c[..|s|] && d == d[..|s|];
    }
  }

  // ---- Onto ----

  function IndexOf<T(==)>(s: seq<T>, x: T): (i: nat)
    requires x in s
    ensures i < |s| && s[i] == x
  {
    if s[0] == x then 0 else 1 + IndexOf(s[1..], x)
  }

  /** Whatever order p of the first n elements is wanted, these are the choices that produce it. */
  ghost function ChoicesFor<T>(s: seq<T>, p: seq<T>, n: nat): (c: seq<nat>)
    requires n <= |s| == |p|
    requires multiset(s[..n]) == multiset(p[..n]) && s[n..] == p[n..]
    ensures |c| == n && forall i :: 0 <= i < n ==> c[i] <= i
    decreases n
  {
    if n == 0 then [] else
      assert p[n - 1] in multiset(p[..n]);
      var j := IndexOf(s[..n], p[n - 1]);
      var t := Swap(s, n - 1, j);
      PrefixAfterSwap(s, p, n, j);
      TailAfterSwap(s, p, n, j);
      ChoicesFor(t, p, n - 1) + [j]
  }

  lemma PrefixAfterSwap<T>(s: seq<T>, p: seq<T>, n: nat, j: nat)
    requires 0 < n <= |s| == |p| && j < n && s[j] == p[n - 1]
    requires multiset(s[..n]) == multiset(p[..n])
    ensures multiset(Swap(s, n - 1, j)[..n - 1]) == multiset(p[..n - 1])
  {
    SwapPermutes(s[..n], n - 1, j);
    DropEqualLasts(Swap(s[..n], n - 1, j), p[..n]);
    assert Swap(s, n - 1, j)[..n - 1] == Swap(s[..n], n - 1, j)[..n - 1];
    assert p[..n - 1] == p[..n][..n - 1];
  }

  lemma DropEqualLasts<T>(u: seq<T>, v: seq<T>)
    requires |u| == |v| > 0 && u[|u| - 1] == v[|v| - 1]
    requires multiset(u) == multiset(v)
    ensures multiset(u[..|u| - 1]) == multiset(v[..|v| - 1])
  {
    LastOfMultiset(u);
    LastOfMultiset(v);
  }

  lemma TailAfterSwap<T>(s: seq<T>, p: seq<T>, n: nat, j: nat)
    requires 0 < n <= |s| == |p| && j < n && s[j] == p[n - 1] && s[n..] == p[n..]
    ensures Swap(s, n - 1, j)[n - 1..] == p[n - 1..]
  {
    var t := Swap(s, n - 1, j);
    forall k | n <= k < |s|
      ensures t[k] == p[k]
    {
      assert s[k] == s[n..][k - n] && p[k] == p[n..][k - n];
    }
  }

  lemma LastOfMultiset<T>(s: seq<T>)
    requires |s| > 0
    ensures multiset(s[..|s| - 1]) == multiset(s) - multiset{s[|s| - 1]}
  {
    assert s == s[..|s| - 1] + [s[|s| - 1]];
  }

  lemma {:induction false} ChoicesForProduces<T>(s: seq<T>, p: seq<T>, n: nat, c: seq<nat>)
    requires n <= |s| == |p|
    requires multiset(s[..n]) == multiset(p[..n]) && s[n..] == p[n..]
    requires IsChoice(c, |s|) && c[..n] == ChoicesFor(s, p, n)
    ensures ShuffleDown(s, c, n) == p
    decreases n
  {
    if n == 0 {
      assert s == s[n..] && p == p[n..];
    } else {
      assert p[n - 1] in multiset(p[..n]);
      var j := IndexOf(s[..n], p[n - 1]);
      var t := Swap(s, n - 1, j);
      PrefixAfterSwap(s, p, n, j);
      TailAfterSwap(s, p, n, j);
      var rest := ChoicesFor(t, p, n - 1);
      assert ChoicesFor(s, p, n) == rest + [j];
      assert c[n - 1] == c[..n][n - 1] == j;
      assert c[..n - 1] == c[..n][..n - 1] == rest;
      ChoicesForProduces(t, p, n - 1, c);
      if n == 1 {
        assert t == s;
      }
    }
  }

  /** Every order of the tickets is produced by some choice vector, and by only one. */
  lemma ShuffleIsBijective<T>(s: seq<T>, p: seq<T>)
    requires Distinct(s) && multiset(p) == multiset(s)
    ensures exists c :: IsChoice(c, |s|) && Shuffle(s, c) == p
    ensures forall c, d :: IsChoice(c, |s|) && IsChoice(d, |s|) && Shuffle(s, c) == p == Shuffle(s, d) ==> c == d
  {
    assert |p| == |multiset(p)| == |multiset(s)| == |s|;
    assert s[..|s|] == s && p[..|p|] == p;
    var c := ChoicesFor(s, p, |s|);
    assert c[..|s|] == c;
    ChoicesForProduces(s, p, |s|, c);
    assert IsChoice(c, |s|) && Shuffle(s, c) == p;
    forall c, d | IsChoice(c, |s|) && IsChoice(d, |s|) && Shuffle(s, c) == p == Shuffle(s, d)
      ensures c == d
    {
      ShuffleIsInjective(s, c, d);
    }
  }

  // ---- The loop, driven by the seeded generator ----

  /** Position i is the (n - i)-th to be swapped, so its choice comes from the (n - i)-th call. */
  function DrawnChoices(hash: nat, n: nat): (c: seq<nat>)
    ensures IsChoice(c, n) && AreDrawn(c, hash, n)
  {
    var pick := i requires 0 <= i < n => DrawnChoice(hash, n, i);
    seq(n, pick)
  }

  function DrawnChoice(hash: nat, n: nat, i: nat): (j: nat)
    requires i < n
    ensures j <= i
  {
    if i == 0 then 0 else
      var k := Output(hash, n - i);
      JsIndexInRange(k, i + 1);
      JsIndex(k, i + 1)
  }

  /** While the accumulator is exact, up to about 4.9 million tickets, the choices are those of a 32-bit Mulberry32. */
  lemma ChoicesComeFromMulberry32(seed: Word, n: nat, i: nat)
    requires 0 < i < n && seed + n * INCREMENT <= TWO53
    ensures DrawnChoices(seed, n)[i] == JsIndex(Mix(WordState(seed, n - i)), i + 1)
    ensures i < 0x20_0000 ==> DrawnChoices(seed, n)[i] == Index(Mix(WordState(seed, n - i)), i + 1)
  {
    MulMonotone(n - i, n, INCREMENT);
    ClosureIsMulberry32(seed, n - i);
    hide Output, JsIndex, WordState;
    assert DrawnChoices(seed, n)[i] == DrawnChoice(seed, n, i);
    if i < 0x20_0000 {
      JsIndexIsExact(Mix(WordState(seed, n - i)), i + 1);
    }
  }

  /** c lists the choices the generator will make for n positions. */
  ghost predicate AreDrawn(c: seq<nat>, start: nat, n: nat) {
    |c| == n && forall i {:trigger DrawnChoice(start, n, i)} :: 0 <= i < n ==> c[i] == DrawnChoice(start, n, i)
  }

  /** One `Math.floor(rng() * (i + 1))`. */
  method NextChoice(rng: SeededRandom, ghost start: nat, ghost c: seq<nat>, ghost n: nat, i: nat) returns (j: nat)
    requires 0 < i < n && AreDrawn(c, start, n) && rng.hash == Accumulator(start, n - 1 - i)
    modifies rng
    ensures rng.hash == Accumulator(start, n - i)
    ensures j == c[i] <= i
  {
    var k := rng.Next();
    ChoiceOfOutput(start, n, i, k);
    j := JsIndex(k, i + 1);
  }

  lemma ChoiceOfOutput(start: nat, n: nat, i: nat, k: Word)
    requires 0 < i < n && k == Output(start, n - i)
    ensures JsIndex(k, i + 1) == DrawnChoice(start, n, i) <= i
  {
  }

  method ShuffleInPlace<T>(a: array<T>, rng: SeededRandom)
    modifies a, rng
    ensures a[..] == Shuffle(old(a[..]), DrawnChoices(old(rng.hash), a.Length))
    ensures rng.hash == Accumulator(old(rng.hash), if a.Length == 0 then 0 else a.Length - 1)
  {
    ShuffleLoop(a, rng, DrawnChoices(rng.hash, a.Length));
  }

  method ShuffleLoop<T>(a: array<T>, rng: SeededRandom, ghost c: seq<nat>)
    requires IsChoice(c, a.Length) && AreDrawn(c, rng.hash, a.Length)
    modifies a, rng
    ensures a[..] == Shuffle(old(a[..]), c)
    ensures rng.hash == Accumulator(old(rng.hash), if a.Length == 0 then 0 else a.Length - 1)
  {
    ghost var start := rng.hash;
    var i := a.Length - 1;
    while i > 0
      invariant -1 <= i < a.Length && (i == -1 ==> a.Length == 0)
      invariant rng.hash == Accumulator(start, if a.Length == 0 then 0 else a.Length - 1 - i)
      invariant ShuffleDown(a[..], c, i + 1) == Shuffle(old(a[..]), c)
    {
      var j := NextChoice(rng, start, c, a.Length, i);
      ghost var before := a[..];
      a[i], a[j] := a[j], a[i];
      assert a[..] == Swap(before, i, j);
      i := i - 1;
    }
  }
}
