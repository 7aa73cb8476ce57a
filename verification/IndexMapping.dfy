/**
 How a generator output becomes an index: `Math.floor(rng() * m)` with `rng() = k / 2^32`. The quotient is an exact
 double, and scaling by 2^32 does not change how the product is rounded, so the product is
 `RoundToDouble(k * m) / 2^32`.
 */
module IndexMapping {
  import opened JsNumbers
  import opened Sets

  /** The index in exact arithmetic. */
  function Index(k: nat, m: nat): nat {
    k * m / 0x1_0000_0000
  }

  /** The index as JavaScript computes it. */
  function JsIndex(k: nat, m: nat): nat {
    RoundToDouble(k * m, 1) / 0x1_0000_0000
  }

  /** Rounding never lifts the product to m, however many tickets there are. */
  lemma JsIndexInRange(k: Word, m: nat)
    requires m > 0
    ensures JsIndex(k, m) < m
  {
    hide RoundToDouble;
    RoundingError(k * m, 1);
    MulMonotone(k, TWO32 - 1, m);
  }

  /** Up to 2^21 tickets there is nothing to round. */
  lemma JsIndexIsExact(k: Word, m: nat)
    requires m <= 0x20_0000
    ensures JsIndex(k, m) == Index(k, m)
  {
    MulMonotone(k, TWO32 - 1, m);
    SmallIntegersAreDoubles(k * m);
  }

  lemma MulMonotone(a: int, b: int, m: nat)
    requires a <= b
    ensures a * m <= b * m
  {
    assert 0 <= (b - a) * m;
  }

  // ---- How often each index is hit ----

  /** The outputs k in [0, n) that map to index j of m. */
  ghost function Hits(n: nat, m: nat, j: nat): set<int>
    requires n > 0
  {
    set k: int | 0 <= k < n && k * m / n == j
  }

  /** The least k with k * m >= x. */
  function CeilDiv(x: nat, m: nat): nat
    requires m > 0
  {
    (x + m - 1) / m
  }

  lemma CeilDivIsLeast(x: nat, m: nat, k: nat)
    requires m > 0
    ensures k * m >= x <==> k >= CeilDiv(x, m)
  {
    var c := CeilDiv(x, m);
    assert c * m <= x + m - 1 < c * m + m;
    if k >= c {
      MulMonotone(c, k, m);
    } else {
      MulMonotone(k, c - 1, m);
    }
  }

  lemma FloorEquals(a: nat, n: nat, j: nat)
    requires n > 0
    ensures a / n == j <==> j * n <= a < (j + 1) * n
  {
    var q := a / n;
    assert q * n <= a < (q + 1) * n;
    if q < j {
      MulMonotone(q + 1, j, n);
    } else if q > j {
      MulMonotone(j + 1, q, n);
    }
  }

  /** The hits of one index are an interval. */
  lemma HitsAreAnInterval(n: nat, m: nat, j: nat)
    requires n > 0 && 0 <= j < m
    ensures CeilDiv(j * n, m) <= CeilDiv((j + 1) * n, m) <= n
    ensures forall k :: k in Hits(n, m, j) <==> CeilDiv(j * n, m) <= k < CeilDiv((j + 1) * n, m)
    ensures |Hits(n, m, j)| == CeilDiv((j + 1) * n, m) - CeilDiv(j * n, m)
  {
    var lo, hi := CeilDiv(j * n, m), CeilDiv((j + 1) * n, m);
    MulMonotone(j + 1, m, n);
    CeilDivIsLeast((j + 1) * n, m, n);
    CeilDivIsLeast((j + 1) * n, m, hi);
    assert (j + 1) * n >= j * n;
    CeilDivIsLeast(j * n, m, hi);
    forall k: int
      ensures k in Hits(n, m, j) <==> lo <= k < hi
    {
      if 0 <= k < n {
        FloorEquals(k * m, n, j);
        CeilDivIsLeast(j * n, m, k);
        CeilDivIsLeast((j + 1) * n, m, k);
      }
    }
    IntervalSize(lo, hi, Hits(n, m, j));
  }

  /** A multiple of m that is within m of n = q * m + r. */
  lemma NearestMultiples(d: int, q: int, r: int, m: nat)
    requires 0 <= r < m
    requires q * m + r - m < d * m < q * m + r + m
    ensures d == q || (r > 0 && d == q + 1)
  {
    var e := d - q;
    assert e * m == d * m - q * m;
    assert r - m < e * m < r + m;
    if e <= -1 {
      MulMonotone(e, -1, m);
      assert false;
    } else if e >= 2 {
      MulMonotone(2, e, m);
      assert false;
    }
  }

  lemma CeilDivAndFloor(n: nat, m: nat)
    requires m > 0
    ensures CeilDiv(n, m) == n / m + (if n % m == 0 then 0 else 1)
  {
    var q, r, c := n / m, n % m, CeilDiv(n, m);
    assert n == q * m + r;
    CeilDivBounds(n, m);
    NearestMultiples(c, q, r, m);
    if r > 0 {
      assert c != q;
    }
  }

  lemma CeilDivBounds(x: nat, m: nat)
    requires m > 0
    ensures x <= CeilDiv(x, m) * m <= x + m - 1
  {
    CeilDivIsLeast(x, m, CeilDiv(x, m));
  }

  /** Every index is hit by the floor or the ceiling of n / m outputs. */
  lemma BiasIsAtMostOneOutput(n: nat, m: nat, j: nat)
    requires n > 0 && 0 <= j < m
    ensures |Hits(n, m, j)| == n / m || |Hits(n, m, j)| == CeilDiv(n, m)
  {
    HitsAreAnInterval(n, m, j);
    var x, y := CeilDiv(j * n, m), CeilDiv((j + 1) * n, m);
    CeilDivBounds(j * n, m);
    CeilDivBounds((j + 1) * n, m);
    SpreadOfCeilings(n, m, j * n, (j + 1) * n, x, y);
    CeilDivAndFloor(n, m);
  }

  /** The 32-bit words that JavaScript maps to index j of m. */
  ghost function JsHits(m: nat, j: nat): set<Word> {
    set k: Word | 0 <= k < 0x1_0000_0000 && JsIndex(k, m) == j
  }

  lemma JsHitsAreHits(m: nat, j: nat)
    requires 0 <= j < m <= 0x20_0000
    ensures |JsHits(m, j)| == |Hits(TWO32, m, j)|
  {
    hide JsIndex;
    forall k: Word
      ensures k in JsHits(m, j) <==> k in Hits(TWO32, m, j)
    {
      JsIndexIsExact(k, m);
    }
    HitsAreAnInterval(TWO32, m, j);
    IntervalSize(CeilDiv(j * TWO32, m), CeilDiv((j + 1) * TWO32, m), JsHits(m, j));
  }

  /**
   For the code's own expression: of the 2^32 words, each of up to 2^21 indexes gets the floor or the ceiling of 2^32 /
   m.
   */
  lemma DrawnIndexBias(m: nat, j: nat)
    requires 0 <= j < m <= 0x20_0000
    ensures |JsHits(m, j)| == TWO32 / m || |JsHits(m, j)| == CeilDiv(TWO32, m)
  {
    JsHitsAreHits(m, j);
    BiasIsAtMostOneOutput(TWO32, m, j);
  }

  lemma SpreadOfCeilings(n: nat, m: nat, a: nat, b: nat, x: nat, y: nat)
    requires m > 0 && b == a + n
    requires a <= x * m <= a + m - 1
    requires b <= y * m <= b + m - 1
    ensures y - x == n / m || (n % m > 0 && y - x == n / m + 1)
  {
    var d := y - x;
    assert d * m == y * m - x * m;
    assert n == n / m * m + n % m;
    NearestMultiples(d, n / m, n % m, m);
  }

  /** The bound is tight at both ends, so the mapping is uniform exactly when m divides the number of outputs. */
  lemma UniformIffDivides(n: nat, m: nat)
    requires n > 0 && m > 0
    ensures |Hits(n, m, 0)| == CeilDiv(n, m)
    ensures |Hits(n, m, m - 1)| == n / m
    ensures (forall i, j :: 0 <= i < m && 0 <= j < m ==> |Hits(n, m, i)| == |Hits(n, m, j)|) <==> n % m == 0
  {
    FirstIndexGetsTheCeiling(n, m);
    LastIndexGetsTheFloor(n, m);
    CeilDivAndFloor(n, m);
    if n % m == 0 {
      forall j | 0 <= j < m
        ensures |Hits(n, m, j)| == n / m
      {
        BiasIsAtMostOneOutput(n, m, j);
      }
    }
  }

  /** The code's own expression maps equally many words to each index exactly when m divides 2^32. */
  lemma DrawnIndexUniformIff(m: nat)
    requires 0 < m <= 0x20_0000
    ensures |JsHits(m, 0)| == CeilDiv(TWO32, m) && |JsHits(m, m - 1)| == TWO32 / m
    ensures (forall i, j :: 0 <= i < m && 0 <= j < m ==> |JsHits(m, i)| == |JsHits(m, j)|) <==> TWO32 % m == 0
  {
    hide JsHits, Hits, CeilDiv;
    forall j | 0 <= j < m
      ensures |JsHits(m, j)| == |Hits(TWO32, m, j)|
    {
      JsHitsAreHits(m, j);
    }
    UniformIffDivides(TWO32, m);
  }

  lemma FirstIndexGetsTheCeiling(n: nat, m: nat)
    requires n > 0 && m > 0
    ensures |Hits(n, m, 0)| == CeilDiv(n, m)
  {
    HitsAreAnInterval(n, m, 0);
    CeilDivIsLeast(0, m, 0);
  }

  lemma LastIndexGetsTheFloor(n: nat, m: nat)
    requires n > 0 && m > 0
    ensures |Hits(n, m, m - 1)| == n / m
  {
    HitsAreAnInterval(n, m, m - 1);
    var a := (m - 1) * n;
    assert a + n == m * n;
    // ceil(n * m / m) is n
    CeilDivAndFloor(m * n, m);
    FloorEquals(m * n, m, n);
    // and ceil((n * m - n) / m) is n - floor(n / m)
    CeilDivBounds(a, m);
    GapBelowMultiple(n, m, CeilDiv(a, m));
  }

  lemma GapBelowMultiple(n: nat, m: nat, c: nat)
    requires m > 0
    requires m * n - n <= c * m <= m * n - n + m - 1
    ensures n - c == n / m
  {
    var d, q, r := n - c, n / m, n % m;
    assert n == q * m + r;
    assert d * m == n * m - c * m;
    NearestMultiples(d, q, r, m);
    assert d != q + 1 by {
      assert (q + 1) * m == q * m + m;
    }
  }
}
