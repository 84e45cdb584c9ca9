/** Distances between planets and the travel fuel cost, in exact integer
    arithmetic. The game computes `Math.sqrt(dx*dx + dy*dy)` and, for travel,
    `Math.ceil(distance / 10)`; for integer coordinates the latter is the least
    `n >= 0` with `100 * n * n >= dx*dx + dy*dy`, which is what is computed
    here, with no square root. */
module Geometry {
  import opened Models

  /** The square of the Euclidean distance between two points. */
  function SquaredDistance(a: Point, b: Point): nat {
    (a.x - b.x) * (a.x - b.x) + (a.y - b.y) * (a.y - b.y)
  }

  /** Distance is symmetric, never negative, and zero exactly for equal points. */
  lemma SquaredDistanceIsAMetricBase(a: Point, b: Point)
    ensures SquaredDistance(a, b) == SquaredDistance(b, a)
    ensures SquaredDistance(a, a) == 0
    ensures SquaredDistance(a, b) == 0 <==> a == b
  {
    if SquaredDistance(a, b) == 0 {
      SquareZero(a.x - b.x, a.y - b.y);
    }
  }

  lemma SquareZero(u: int, v: int)
    requires u * u + v * v == 0
    ensures u == 0 && v == 0
  {
    SquareNonNegative(u);
    SquareNonNegative(v);
    SquareZeroOnlyAtZero(u);
    SquareZeroOnlyAtZero(v);
  }

  lemma SquareNonNegative(u: int)
    ensures u * u >= 0
  {
  }

  lemma SquareZeroOnlyAtZero(u: int)
    ensures u * u == 0 ==> u == 0
  {
  }

  /** `n <= 100 * n * n` for every natural number, so the search below ends. */
  lemma NatBelowHundredSquare(n: nat)
    ensures n <= 100 * n * n
  {
    if n > 0 {
      assert n * n >= n;
    }
  }

  /** Squaring is monotone on natural numbers. */
  lemma SquareMonotone(m: nat, n: nat)
    requires m <= n
    ensures 100 * m * m <= 100 * n * n
  {
    assert m * m <= m * n;
    assert m * n <= n * n;
  }

  /** The converse: a strictly smaller square has a strictly smaller root. */
  lemma SquareStrict(a: nat, b: nat)
    requires 100 * a * a < 100 * b * b
    ensures a < b
  {
    if a >= b {
      SquareMonotone(b, a);
    }
  }

  /** Counts up from `n` to the first value whose hundredfold square reaches `d2`. */
  function CeilSearch(d2: nat, n: nat): (r: nat)
    requires n == 0 || 100 * (n - 1) * (n - 1) < d2
    ensures 100 * r * r >= d2
    ensures r == 0 || 100 * (r - 1) * (r - 1) < d2
    decreases d2 - n
  {
    if 100 * n * n >= d2 then n
    else
      NatBelowHundredSquare(n);
      CeilSearch(d2, n + 1)
  }

  /** `ceil(sqrt(d2) / 10)`: the least `n` with `100 * n * n >= d2`. */
  function CeilTenthRoot(d2: nat): (n: nat)
    ensures 100 * n * n >= d2
    ensures n == 0 || 100 * (n - 1) * (n - 1) < d2
  {
    CeilSearch(d2, 0)
  }

  /** No smaller fuel amount covers the distance. */
  lemma CeilTenthRootIsLeast(d2: nat, m: nat)
    requires 100 * m * m >= d2
    ensures CeilTenthRoot(d2) <= m
  {
    var n := CeilTenthRoot(d2);
    if n > 0 {
      SquareStrict(n - 1, m);
    }
  }

  /** Any `n` with the defining property is the computed value. */
  lemma CeilTenthRootUnique(d2: nat, n: nat)
    requires 100 * n * n >= d2
    requires n == 0 || 100 * (n - 1) * (n - 1) < d2
    ensures CeilTenthRoot(d2) == n
  {
    var c := CeilTenthRoot(d2);
    CeilTenthRootIsLeast(d2, n);
    if n > 0 {
      SquareStrict(n - 1, c);
    }
  }

  /** Fuel needed to travel between two points: `ceil(distance / 10)`. */
  function FuelNeeded(a: Point, b: Point): nat {
    CeilTenthRoot(SquaredDistance(a, b))
  }
}
