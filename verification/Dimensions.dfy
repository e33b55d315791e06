/** Cluster dimensions (cluster/kmeans.go:89-96) and what they cost in message deliveries. */
module Dimensions {
  import opened Prelude

  const MINSIZE := 4

  /** `r` is the integer square root of `p`. */
  ghost predicate IsRoot(r: nat, p: nat) {
    r * r <= p < (r + 1) * (r + 1)
  }

  lemma {:induction false} SquareMonotone(a: nat, b: nat)
    requires a <= b
    ensures a * a <= b * b
  {
    assert b * b == a * a + (b - a) * (b + a);
  }

  lemma {:induction false} TimesMonotone(a: int, b: int, n: nat)
    ensures a <= b ==> a * n <= b * n
  {
    if a <= b {
      assert b * n == a * n + (b - a) * n;
    }
  }

  /** floor(sqrt(p)), by bisection. */
  method IntegerRoot(p: nat) returns (r: nat)
    ensures IsRoot(r, p)
  {
    r := 0;
    var high := p + 1;
    assert high * high > p;
    while high - r > 1
      invariant 0 <= r < high
      invariant r * r <= p < high * high
    {
      var mid := (r + high) / 2;
      if mid * mid <= p {
        r := mid;
      } else {
        high := mid;
      }
    }
  }

  // ---- ComputeDimensions -----------------------------------------------------------------

  /** n is the root of p, but at least MINSIZE; m counts the whole groups of n among p nodes. */
  ghost predicate AreDimensions(p: nat, n: nat, m: nat) {
    && n >= MINSIZE && p < (n + 1) * (n + 1) && (n > MINSIZE ==> n * n <= p)
    && m * n <= p < (m + 1) * n
  }

  method ComputeDimensions(p: nat) returns (n: nat, m: nat)
    ensures AreDimensions(p, n, m)
  {
    n := IntegerRoot(p);
    if n < MINSIZE {
      SquareMonotone(n + 1, MINSIZE + 1);
      n := MINSIZE;
    }
    m := p / n;
    QuotientBounds(p, n);
  }

  lemma {:induction false} QuotientBounds(p: nat, n: nat)
    requires n > 0
    ensures (p / n) * n <= p < (p / n + 1) * n
  {
    assert p == n * (p / n) + p % n;
  }

  lemma {:induction false} QuotientUnique(p: nat, n: nat, m: nat, k: nat)
    requires m * n <= p < (m + 1) * n && k * n <= p < (k + 1) * n
    ensures m == k
  {
    TimesMonotone(m + 1, k, n);
    TimesMonotone(k + 1, m, n);
  }

  /** The dimensions are determined by p. */
  lemma {:induction false} DimensionsUnique(p: nat, n: nat, m: nat, n': nat, m': nat)
    requires AreDimensions(p, n, m) && AreDimensions(p, n', m')
    ensures n == n' && m == m'
  {
    if n < n' {
      SquareMonotone(n + 1, n');
    } else if n' < n {
      SquareMonotone(n' + 1, n);
    }
    QuotientUnique(p, n, m, m');
  }

  /** A larger network never has smaller clusters. */
  lemma {:induction false} DimensionsMonotone(p: nat, n: nat, m: nat, p': nat, n': nat, m': nat)
    requires AreDimensions(p, n, m) && AreDimensions(p', n', m') && p <= p'
    ensures n <= n'
  {
    if n' < n {
      SquareMonotone(n' + 1, n);
    }
  }

  /** From 16 nodes on there are at least as many clusters as nodes in one, and at most two more. */
  lemma {:induction false} NearlySquare(p: nat, n: nat, m: nat)
    requires AreDimensions(p, n, m) && p >= 16
    ensures n <= m <= n + 2
  {
    TimesMonotone(m + 1, n, n);
    TimesMonotone(n + 3, m, n);
    assert (n + 1) * (n + 1) == n * n + 2 * n + 1;
    assert (n + 3) * n == n * n + 3 * n;
  }

  /** Dropping the remainder keeps the dimensions. */
  lemma {:induction false} DimensionsOfProduct(p: nat, n: nat, m: nat)
    requires AreDimensions(p, n, m)
    ensures AreDimensions(m * n, n, m)
  {
    TimesMonotone(m + 1, n, n);
    TimesMonotone(n, m, n);
    assert (m + 1) * n == m * n + n;
  }

  // ---- Deliveries ------------------------------------------------------------------------

  /** Ordered pairs of distinct nodes among n. */
  function Pairs(n: nat): nat {
    if n == 0 then 0 else Pairs(n - 1) + 2 * (n - 1)
  }

  lemma {:induction false} PairsClosed(n: nat)
    ensures Pairs(n) == n * (n - 1)
  {
    if n > 0 {
      PairsClosed(n - 1);
    }
  }

  /** Handler deliveries of one round among n linked nodes: n PrePrepares, n(n-1) Prepares, n(n-1) Commits. */
  function RoundCost(n: nat): nat {
    n + Pairs(n) + Pairs(n)
  }

  function ClusteredCost(n: nat, m: nat): int {
    m * RoundCost(n)
  }

  lemma {:induction false} RoundCostClosed(n: nat)
    ensures RoundCost(n) == n * (2 * n - 1)
  {
    PairsClosed(n);
  }

  lemma {:induction false} ProductMonotone(a: nat, b: nat, c: nat, d: nat)
    requires a <= c && b <= d
    ensures a * b <= c * d
  {
    TimesMonotone(a, c, b);
    TimesMonotone(b, d, c);
  }

  /** The square of a cost of v for each of u nodes, when u <= p and v^2 <= 4p. */
  lemma {:induction false} SquaredCost(u: nat, v: nat, p: nat)
    requires u <= p && v * v <= 4 * p
    ensures (u * v) * (u * v) <= 4 * (p * p * p)
  {
    ProductMonotone(u, u, p, p);
    ProductMonotone(u * u, v * v, p * p, 4 * p);
    SquareOfProduct(u, v);
    assert (p * p) * (4 * p) == 4 * (p * p * p);
  }

  /** Clustering costs D with D^2 <= 4 p^3, where the flat round costs p(2p - 1). */
  lemma {:induction false} ClusteredCostBound(p: nat, n: nat, m: nat)
    requires AreDimensions(p, n, m) && p >= 16
    ensures ClusteredCost(n, m) == m * n * (2 * n - 1)
    ensures ClusteredCost(n, m) * ClusteredCost(n, m) <= 4 * (p * p * p)
    ensures RoundCost(p) == p * (2 * p - 1)
  {
    RoundCostClosed(n);
    RoundCostClosed(p);
    Associate(m, n, 2 * n - 1);
    PerNode(n, p);
    SquaredCost(m * n, 2 * n - 1, p);
  }

  lemma {:induction false} Associate(a: int, b: int, c: int)
    ensures a * (b * c) == a * b * c
  {}

  lemma {:induction false} PerNode(n: nat, p: nat)
    requires n >= 1 && n * n <= p
    ensures (2 * n - 1) * (2 * n - 1) <= 4 * p
  {
    assert (2 * n - 1) * (2 * n - 1) == 4 * (n * n) - 4 * n + 1;
  }

  lemma {:induction false} SquareOfProduct(a: int, b: int)
    ensures (a * b) * (a * b) == (a * a) * (b * b)
  {
    assert (a * b) * (a * b) == a * (b * (a * b)) == a * ((a * b) * b);
    assert (a * b) * b == a * (b * b);
    assert a * (a * (b * b)) == (a * a) * (b * b);
  }

  /** Below 16 nodes the bound can fail: two clusters of four cost 56 deliveries, and 56^2 > 4 * 8^3. */
  lemma {:induction false} BoundFailsForEight()
    ensures AreDimensions(8, 4, 2) && ClusteredCost(4, 2) * ClusteredCost(4, 2) > 4 * (8 * 8 * 8)
  {
    RoundCostClosed(4);
  }
}
