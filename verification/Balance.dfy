/** Exact cluster sizes under capacity-capped assignment (cluster/kmeans.go:235-292). */
module Balance {
  import opened Prelude
  import opened Geometry
  import opened Assignment
  import opened Dimensions

  function TotalLoad(owner: seq<nat>, m: nat): nat {
    if m == 0 then 0 else TotalLoad(owner, m - 1) + Load(owner, m - 1)
  }

  lemma {:induction false} TotalLoadGrows(owner: seq<nat>, m: nat)
    requires owner != []
    ensures TotalLoad(owner, m) == TotalLoad(owner[..|owner| - 1], m) + (if owner[|owner| - 1] < m then 1 else 0)
  {
    if m > 0 {
      TotalLoadGrows(owner, m - 1);
    }
  }

  lemma {:induction false} TotalLoadIsCount(owner: seq<nat>, m: nat)
    requires forall i :: 0 <= i < |owner| ==> owner[i] < m
    ensures TotalLoad(owner, m) == |owner|
  {
    if owner == [] {
      NoLoad(m);
    } else {
      TotalLoadGrows(owner, m);
      TotalLoadIsCount(owner[..|owner| - 1], m);
    }
  }

  lemma {:induction false} NoLoad(m: nat)
    ensures TotalLoad([], m) == 0
  {
    if m > 0 {
      NoLoad(m - 1);
    }
  }

  lemma {:induction false} FullClustersHold(owner: seq<nat>, m: nat, n: nat)
    requires forall j :: 0 <= j < m ==> Load(owner, j) >= n
    ensures TotalLoad(owner, m) >= m * n
  {
    if m > 0 {
      FullClustersHold(owner, m - 1, n);
      assert m * n == (m - 1) * n + n;
    }
  }

  lemma {:induction false} CappedClustersHold(owner: seq<nat>, m: nat, n: nat)
    requires forall j :: 0 <= j < m ==> Load(owner, j) <= n
    ensures TotalLoad(owner, m) <= m * n
    ensures TotalLoad(owner, m) == m * n ==> forall j :: 0 <= j < m ==> Load(owner, j) == n
  {
    if m > 0 {
      CappedClustersHold(owner, m - 1, n);
      assert m * n == (m - 1) * n + n;
    }
  }

  // ---- Up to capacity --------------------------------------------------------------------

  lemma {:induction false} OwnersInRange(nodes: seq<Point>, centroids: seq<Point>, n: nat, owner: seq<nat>)
    requires NearestAvailable(nodes, centroids, n, owner)
    ensures forall i :: 0 <= i < |owner| ==> owner[i] < |centroids|
  {
    assert forall i :: 0 <= i < |owner| ==> Chosen(nodes[i], centroids, n, owner[..i], owner[i]);
  }

  /** As long as there is room somewhere, nobody is over capacity. */
  lemma {:induction false} CappedSoFar(nodes: seq<Point>, centroids: seq<Point>, n: nat, owner: seq<nat>, i: nat)
    requires NearestAvailable(nodes, centroids, n, owner) && i <= |nodes| && i <= |centroids| * n
    ensures forall j :: 0 <= j < |centroids| ==> Load(owner[..i], j) <= n
  {
    if i > 0 {
      CappedSoFar(nodes, centroids, n, owner, i - 1);
      OwnersInRange(nodes, centroids, n, owner);
      TotalLoadIsCount(owner[..i - 1], |centroids|);
      if !HasRoom(|centroids|, n, owner[..i - 1]) {
        FullClustersHold(owner[..i - 1], |centroids|, n);
      }
      assert Chosen(nodes[i - 1], centroids, n, owner[..i - 1], owner[i - 1]);
      assert owner[..i][..i - 1] == owner[..i - 1];
    }
  }

  // ---- Beyond capacity -------------------------------------------------------------------

  /** The j-th share of i things dealt out to m in turn. */
  function Share(i: nat, m: nat, j: nat): nat
    requires m > 0
  {
    i / m + (if j < i % m then 1 else 0)
  }

  ghost predicate DealtOut(owner: seq<nat>, m: nat)
    requires m > 0
  {
    forall j :: 0 <= j < m ==> Load(owner, j) == Share(|owner|, m, j)
  }

  lemma {:induction false} DivStep(i: nat, m: nat)
    requires m > 0
    ensures i % m < m - 1 ==> (i + 1) / m == i / m && (i + 1) % m == i % m + 1
    ensures i % m == m - 1 ==> (i + 1) / m == i / m + 1 && (i + 1) % m == 0
  {
    var q, r := i / m, i % m;
    assert i == m * q + r;
    if r < m - 1 {
      DivIs(i + 1, m, q, r + 1);
    } else {
      assert m * (q + 1) == m * q + m;
      DivIs(i + 1, m, q + 1, 0);
    }
  }

  lemma {:induction false} DivIs(i: nat, m: nat, q: nat, r: nat)
    requires m > 0 && i == m * q + r && r < m
    ensures i / m == q && i % m == r
  {
    assert i == m * (i / m) + i % m;
    TimesMonotone(q + 1, i / m, m);
    TimesMonotone(i / m + 1, q, m);
    assert (q + 1) * m == m * q + m;
    assert (i / m + 1) * m == m * (i / m) + m;
  }

  lemma {:induction false} SharesAtCapacity(m: nat, n: nat, j: nat)
    requires m > 0 && j < m
    ensures Share(m * n, m, j) == n
  {
    DivIs(m * n, m, n, 0);
  }

  lemma {:induction false} ShareAtLeast(i: nat, m: nat, n: nat, j: nat)
    requires m > 0 && i >= m * n
    ensures Share(i, m, j) >= n
  {
    assert i == m * (i / m) + i % m;
    TimesMonotone(i / m + 1, n, m);
    assert (i / m + 1) * m == m * (i / m) + m;
    assert n * m == m * n;
  }

  /** With nobody below capacity, the next node goes to the cluster whose turn it is. */
  lemma {:induction false} NextInTurn(p: Point, centroids: seq<Point>, n: nat, before: seq<nat>, b: nat)
    requires centroids != [] && Chosen(p, centroids, n, before, b)
    requires DealtOut(before, |centroids|) && !HasRoom(|centroids|, n, before)
    ensures b == |before| % |centroids|
  {
    var r := |before| % |centroids|;
    assert Emptier(before, b, r);
    assert Load(before, b) == Share(|before|, |centroids|, b) && Load(before, r) == Share(|before|, |centroids|, r);
  }

  lemma {:induction false} DealOneMore(owner: seq<nat>, m: nat, b: nat)
    requires m > 0 && DealtOut(owner, m) && b == |owner| % m
    ensures DealtOut(owner + [b], m)
  {
    DivStep(|owner|, m);
    assert (owner + [b])[..|owner|] == owner;
  }

  /** From m*n nodes on, clusters are filled in turn. */
  lemma {:induction false} DealtBeyondCapacity(
      nodes: seq<Point>, centroids: seq<Point>, n: nat, owner: seq<nat>, i: nat)
    requires NearestAvailable(nodes, centroids, n, owner) && centroids != [] && |centroids| * n <= i <= |nodes|
    ensures DealtOut(owner[..i], |centroids|)
    decreases i
  {
    var m := |centroids|;
    if i == m * n {
      FullAtCapacity(nodes, centroids, n, owner);
    } else {
      var before := owner[..i - 1];
      DealtBeyondCapacity(nodes, centroids, n, owner, i - 1);
      assert Chosen(nodes[i - 1], centroids, n, before, owner[i - 1]);
      forall j | 0 <= j < m
        ensures Load(before, j) >= n
      {
        ShareAtLeast(i - 1, m, n, j);
      }
      NextInTurn(nodes[i - 1], centroids, n, before, owner[i - 1]);
      DealOneMore(before, m, owner[i - 1]);
      assert owner[..i] == before + [owner[i - 1]];
    }
  }

  lemma {:induction false} FullAtCapacity(nodes: seq<Point>, centroids: seq<Point>, n: nat, owner: seq<nat>)
    requires NearestAvailable(nodes, centroids, n, owner) && centroids != [] && |centroids| * n <= |nodes|
    ensures DealtOut(owner[..|centroids| * n], |centroids|)
  {
    var m := |centroids|;
    var full := owner[..m * n];
    CappedSoFar(nodes, centroids, n, owner, m * n);
    OwnersInRange(nodes, centroids, n, owner);
    TotalLoadIsCount(full, m);
    CappedClustersHold(full, m, n);
    forall j | 0 <= j < m
      ensures Load(full, j) == Share(|full|, m, j)
    {
      SharesAtCapacity(m, n, j);
    }
  }

  // ---- Sizes -----------------------------------------------------------------------------

  /**
   Up to m*n nodes no cluster exceeds n; beyond that the sizes are exactly those of dealing all
   nodes out in turn.
   */
  lemma {:induction false} ClusterSizes(nodes: seq<Point>, centroids: seq<Point>, n: nat, owner: seq<nat>, j: nat)
    requires NearestAvailable(nodes, centroids, n, owner) && j < |centroids|
    ensures |nodes| <= |centroids| * n ==> |Picked(nodes, owner, j)| <= n
    ensures |nodes| >= |centroids| * n ==> |Picked(nodes, owner, j)| == Share(|nodes|, |centroids|, j)
  {
    assert owner[..|nodes|] == owner;
    LoadIsSize(nodes, owner, j);
    if |nodes| <= |centroids| * n {
      CappedSoFar(nodes, centroids, n, owner, |nodes|);
    }
    if |nodes| >= |centroids| * n {
      DealtBeyondCapacity(nodes, centroids, n, owner, |nodes|);
    }
  }

  lemma {:induction false} SharesOfDimensions(p: nat, n: nat, m: nat, j: nat)
    requires AreDimensions(p, n, m) && j < m
    ensures Share(p, m, j) >= n
    ensures p >= 16 ==> Share(p, m, j) <= n + 1
  {
    ShareAtLeast(p, m, n, j);
    if p >= 16 {
      NearlySquare(p, n, m);
      assert (m + 1) * n == m * n + n;
      DivIs(p, m, n, p - m * n);
    }
  }

  /**
   With the dimensions of p nodes: every cluster gets at least n, any two differ by at most one, and
   from 16 nodes on every size is n or n+1.
   */
  lemma {:induction false} BalancedByDimensions(nodes: seq<Point>, centroids: seq<Point>, n: nat, owner: seq<nat>)
    requires AreDimensions(|nodes|, n, |centroids|) && NearestAvailable(nodes, centroids, n, owner)
    ensures forall j :: 0 <= j < |centroids| ==> |Picked(nodes, owner, j)| >= n
    ensures forall j, k :: 0 <= j < |centroids| && 0 <= k < |centroids| ==>
            |Picked(nodes, owner, j)| <= |Picked(nodes, owner, k)| + 1
    ensures |nodes| >= 16 ==> forall j :: 0 <= j < |centroids| ==> |Picked(nodes, owner, j)| <= n + 1
  {
    forall j | 0 <= j < |centroids|
      ensures |Picked(nodes, owner, j)| == Share(|nodes|, |centroids|, j) >= n
      ensures |nodes| >= 16 ==> |Picked(nodes, owner, j)| <= n + 1
    {
      ClusterSizes(nodes, centroids, n, owner, j);
      SharesOfDimensions(|nodes|, n, |centroids|, j);
    }
  }
}
