/**
 Centroid recomputation (cluster/kmeans.go:300-316): the mean of a cluster minimises its nodes' total
 squared distance over all points of the plane, so no step of it ever makes the total larger.
 */
module Centroids {
  import opened Prelude
  import opened Geometry

  function Xs(nodes: seq<Point>): (r: seq<real>)
    ensures |r| == |nodes| && forall i :: 0 <= i < |nodes| ==> r[i] == nodes[i].x
  {
    seq(|nodes|, i requires 0 <= i < |nodes| => nodes[i].x)
  }

  function Ys(nodes: seq<Point>): (r: seq<real>)
    ensures |r| == |nodes| && forall i :: 0 <= i < |nodes| ==> r[i] == nodes[i].y
  {
    seq(|nodes|, i requires 0 <= i < |nodes| => nodes[i].y)
  }

  function Sum(v: seq<real>): real {
    if v == [] then 0.0 else Sum(v[..|v| - 1]) + v[|v| - 1]
  }

  function Mean(nodes: seq<Point>): Point
    requires nodes != []
  {
    Point("", Sum(Xs(nodes)) / |nodes| as real, Sum(Ys(nodes)) / |nodes| as real)
  }

  function Recomputed(c: Cluster, previous: Point): Point {
    if c.nodes == [] then previous else Mean(c.nodes)
  }

  /** Empty clusters keep their previous centroid. */
  method RecomputeCentroids(clusters: seq<Cluster>, previous: seq<Point>) returns (centroids: seq<Point>)
    requires |previous| == |clusters|
    ensures |centroids| == |clusters|
    ensures forall i :: 0 <= i < |clusters| ==> centroids[i] == Recomputed(clusters[i], previous[i])
  {
    centroids := [];
    for i := 0 to |clusters|
      invariant |centroids| == i
      invariant forall k :: 0 <= k < i ==> centroids[k] == Recomputed(clusters[k], previous[k])
    {
      if clusters[i].nodes == [] {
        centroids := centroids + [previous[i]];
      } else {
        var mean := MeanOf(clusters[i].nodes);
        centroids := centroids + [mean];
      }
    }
  }

  method MeanOf(nodes: seq<Point>) returns (mean: Point)
    requires nodes != []
    ensures mean == Mean(nodes)
  {
    var sumX, sumY := 0.0, 0.0;
    for i := 0 to |nodes|
      invariant sumX == Sum(Xs(nodes)[..i]) && sumY == Sum(Ys(nodes)[..i])
    {
      assert Xs(nodes)[..i + 1][..i] == Xs(nodes)[..i] && Ys(nodes)[..i + 1][..i] == Ys(nodes)[..i];
      sumX := sumX + nodes[i].x;
      sumY := sumY + nodes[i].y;
    }
    assert Xs(nodes)[..|nodes|] == Xs(nodes) && Ys(nodes)[..|nodes|] == Ys(nodes);
    mean := Point("", sumX / |nodes| as real, sumY / |nodes| as real);
  }

  // ---- One coordinate --------------------------------------------------------------------

  /** Sum of the squared differences from `at`. */
  function Spread(v: seq<real>, at: real): real {
    if v == [] then 0.0 else Spread(v[..|v| - 1], at) + Square(v[|v| - 1] - at)
  }

  /** First-order effect of moving by d on the square of a difference e. */
  function Lever(d: real, e: real): real {
    2.0 * (d * e)
  }

  /** Sum of the differences from `at`. */
  function Deviation(v: seq<real>, at: real): real {
    if v == [] then 0.0 else Deviation(v[..|v| - 1], at) + (v[|v| - 1] - at)
  }

  /** First-order effect on the spread of moving from `at` to `at - d`. */
  function Lean(v: seq<real>, at: real, d: real): real {
    if v == [] then 0.0 else Lean(v[..|v| - 1], at, d) + Lever(d, v[|v| - 1] - at)
  }

  /** Second-order effect on the spread of n values of moving by d. */
  function Bulk(n: nat, d: real): (r: real)
    ensures r >= 0.0
  {
    if n == 0 then 0.0 else Bulk(n - 1, d) + Square(d)
  }

  lemma {:induction false} SquareShift(v: real, at: real, d: real)
    ensures Square(v - (at - d)) == Square(v - at) + Lever(d, v - at) + Square(d)
  {}

  lemma {:induction false} SpreadShift(v: seq<real>, at: real, d: real)
    ensures Spread(v, at - d) == Spread(v, at) + Lean(v, at, d) + Bulk(|v|, d)
  {
    if v != [] {
      var n := |v| - 1;
      SpreadShift(v[..n], at, d);
      SquareShift(v[n], at, d);
    }
  }

  lemma {:induction false} LeverAdds(d: real, e: real, f: real)
    ensures Lever(d, e) + Lever(d, f) == Lever(d, e + f)
  {}

  lemma {:induction false} LeanIsLever(v: seq<real>, at: real, d: real)
    ensures Lean(v, at, d) == Lever(d, Deviation(v, at))
  {
    if v != [] {
      var n := |v| - 1;
      LeanIsLever(v[..n], at, d);
      LeverAdds(d, Deviation(v[..n], at), v[n] - at);
    }
  }

  function Many(n: nat, t: real): real {
    if n == 0 then 0.0 else Many(n - 1, t) + t
  }

  lemma {:induction false} ManyIsProduct(n: nat, t: real)
    ensures Many(n, t) == n as real * t
  {
    if n > 0 {
      ManyIsProduct(n - 1, t);
      assert n as real == (n - 1) as real + 1.0;
      assert n as real * t == (n - 1) as real * t + t;
    }
  }

  lemma {:induction false} DeviationIs(v: seq<real>, at: real)
    ensures Deviation(v, at) == Sum(v) - Many(|v|, at)
  {
    if v != [] {
      DeviationIs(v[..|v| - 1], at);
    }
  }

  lemma {:induction false} MeanBalances(v: seq<real>)
    requires v != []
    ensures Deviation(v, Sum(v) / |v| as real) == 0.0
  {
    DeviationIs(v, Sum(v) / |v| as real);
    ManyIsProduct(|v|, Sum(v) / |v| as real);
  }

  /** The differences from `p` cancel out in both coordinates; the mean of nodes carries no ID. */
  predicate IsMean(p: Point, nodes: seq<Point>) {
    p.id == "" && Deviation(Xs(nodes), p.x) == 0.0 && Deviation(Ys(nodes), p.y) == 0.0
  }

  lemma {:induction false} RecomputedIsMean(c: Cluster, previous: Point)
    ensures c.nodes == [] ==> Recomputed(c, previous) == previous
    ensures c.nodes != [] ==> IsMean(Recomputed(c, previous), c.nodes)
  {
    if c.nodes != [] {
      MeanBalances(Xs(c.nodes));
      MeanBalances(Ys(c.nodes));
    }
  }

  /** Moving off the mean by d costs n times d^2 more. */
  lemma {:induction false} SpreadOffMean(v: seq<real>, mean: real, d: real)
    requires Deviation(v, mean) == 0.0
    ensures Spread(v, mean - d) == Spread(v, mean) + Bulk(|v|, d)
  {
    SpreadShift(v, mean, d);
    LeanIsLever(v, mean, d);
  }

  // ---- The plane -------------------------------------------------------------------------

  function Cost(nodes: seq<Point>, at: Point): real {
    if nodes == [] then 0.0 else Cost(nodes[..|nodes| - 1], at) + Dist(nodes[|nodes| - 1], at)
  }

  lemma {:induction false} CostByCoordinate(nodes: seq<Point>, at: Point)
    ensures Cost(nodes, at) == Spread(Xs(nodes), at.x) + Spread(Ys(nodes), at.y)
  {
    if nodes != [] {
      var n := |nodes| - 1;
      CostByCoordinate(nodes[..n], at);
      assert Xs(nodes)[..n] == Xs(nodes[..n]) && Ys(nodes)[..n] == Ys(nodes[..n]);
    }
  }

  /** The mean is at least as good as any point of the plane. */
  lemma {:induction false} MeanMinimises(nodes: seq<Point>, at: Point)
    requires nodes != []
    ensures Cost(nodes, Mean(nodes)) <= Cost(nodes, at)
  {
    CostByCoordinate(nodes, at);
    CostByCoordinate(nodes, Mean(nodes));
    var mean := Mean(nodes);
    MeanBalances(Xs(nodes));
    MeanBalances(Ys(nodes));
    SpreadOffMean(Xs(nodes), mean.x, mean.x - at.x);
    SpreadOffMean(Ys(nodes), mean.y, mean.y - at.y);
    assert mean.x - (mean.x - at.x) == at.x && mean.y - (mean.y - at.y) == at.y;
  }

  /** Total squared distance of all nodes to the centroid of their cluster. */
  function TotalCost(clusters: seq<Cluster>, centroids: seq<Point>): real
    requires |centroids| == |clusters|
  {
    if clusters == [] then 0.0
    else
      var n := |clusters| - 1;
      TotalCost(clusters[..n], centroids[..n]) + Cost(clusters[n].nodes, centroids[n])
  }

  /** Recomputing the centroids never increases the total, whatever the previous ones were. */
  lemma {:induction false} RecomputingNeverCostsMore(
      clusters: seq<Cluster>, previous: seq<Point>, centroids: seq<Point>)
    requires |previous| == |clusters| == |centroids|
    requires forall i :: 0 <= i < |clusters| ==> centroids[i] == Recomputed(clusters[i], previous[i])
    ensures TotalCost(clusters, centroids) <= TotalCost(clusters, previous)
  {
    if clusters != [] {
      var n := |clusters| - 1;
      RecomputingNeverCostsMore(clusters[..n], previous[..n], centroids[..n]);
      if clusters[n].nodes != [] {
        MeanMinimises(clusters[n].nodes, previous[n]);
      }
    }
  }
}
