/** Same-size K-Means (cluster/kmeans.go:202-232) and what it promises about its clusters. */
module KMeans {
  import opened Prelude
  import opened Geometry
  import opened Dimensions
  import opened Seeding
  import opened Assignment
  import opened Balance
  import opened Centroids
  import opened Election

  const MAX_ITER := 100

  const CONVERGENCE_DELTA := 0.001

  function CentroidsOf(clusters: seq<Cluster>): (r: seq<Point>)
    ensures |r| == |clusters| && forall j :: 0 <= j < |clusters| ==> r[j] == clusters[j].centroid
  {
    seq(|clusters|, j requires 0 <= j < |clusters| => clusters[j].centroid)
  }

  /** The clusters are the nearest-available assignment of `nodes` to their own centroids. */
  ghost predicate IsAssignment(clusters: seq<Cluster>, nodes: seq<Point>, n: nat) {
    Assigned(clusters, nodes, CentroidsOf(clusters), n)
  }

  /** Every centroid has moved by less than the convergence threshold. */
  ghost predicate AtRest(before: seq<Point>, after: seq<Point>)
    requires |before| == |after|
  {
    forall i :: 0 <= i < |before| ==> Dist(before[i], after[i]) < Square(CONVERGENCE_DELTA)
  }

  /** Lines 324-331, on squared distances. */
  method Converged(before: seq<Point>, after: seq<Point>) returns (r: bool)
    requires |before| == |after|
    ensures r <==> AtRest(before, after)
  {
    for i := 0 to |before|
      invariant forall k :: 0 <= k < i ==> Dist(before[k], after[k]) < Square(CONVERGENCE_DELTA)
    {
      if Dist(before[i], after[i]) >= Square(CONVERGENCE_DELTA) {
        return false;
      }
    }
    r := true;
  }

  /** Each centroid is the mean of its cluster, or the one before if the cluster is empty. */
  ghost predicate Centred(clusters: seq<Cluster>, before: seq<Point>, after: seq<Point>) {
    && |clusters| == |before| == |after|
    && forall j :: 0 <= j < |clusters| ==>
         if clusters[j].nodes == [] then after[j] == before[j] else IsMean(after[j], clusters[j].nodes)
  }

  /** The next centroids are those of the nearest-available assignment to the ones before. */
  ghost predicate FollowsFrom(before: seq<Point>, after: seq<Point>, nodes: seq<Point>, n: nat) {
    exists clusters :: Assigned(clusters, nodes, before, n) && Centred(clusters, before, after)
  }

  /** One round of assignment and recomputation. It never costs more than the centroids it starts from. */
  method Iterate(nodes: seq<Point>, centroids: seq<Point>, n: nat) returns (next: seq<Point>, done: bool)
    requires centroids != []
    ensures |next| == |centroids| && FollowsFrom(centroids, next, nodes, n)
    ensures exists clusters ::
              && Assigned(clusters, nodes, centroids, n) && |clusters| == |centroids|
              && TotalCost(clusters, next) <= TotalCost(clusters, centroids)
    ensures done <==> AtRest(centroids, next)
  {
    var clusters := AssignNodes(nodes, centroids, n);
    next := RecomputeCentroids(clusters, centroids);
    forall j | 0 <= j < |clusters|
      ensures if clusters[j].nodes == [] then next[j] == centroids[j] else IsMean(next[j], clusters[j].nodes)
    {
      RecomputedIsMean(clusters[j], centroids[j]);
    }
    assert Centred(clusters, centroids, next);
    RecomputingNeverCostsMore(clusters, centroids, next);
    done := Converged(centroids, next);
  }

  /** Centroids step by step, none of the steps small enough to stop. */
  ghost predicate Moving(history: seq<seq<Point>>, nodes: seq<Point>, n: nat) {
    && history != []
    && (forall i :: 0 <= i < |history| ==> |history[i]| == |history[0]|)
    && forall i :: 0 <= i < |history| - 1 ==> Moves(history[i], history[i + 1], nodes, n)
  }

  ghost predicate Moves(before: seq<Point>, after: seq<Point>, nodes: seq<Point>, n: nat)
    requires |before| == |after|
  {
    FollowsFrom(before, after, nodes, n) && !AtRest(before, after)
  }

  /**
   Centroids step by step up to the last step: the first one in which every centroid has moved by less
   than the threshold, or the one that makes it MAX_ITER.
   */
  ghost predicate Refined(history: seq<seq<Point>>, nodes: seq<Point>, n: nat) {
    && 2 <= |history| <= MAX_ITER + 1 && |history[|history| - 1]| == |history[|history| - 2]|
    && Moving(history[..|history| - 1], nodes, n)
    && FollowsFrom(history[|history| - 2], history[|history| - 1], nodes, n)
    && (|history| < MAX_ITER + 1 ==> AtRest(history[|history| - 2], history[|history| - 1]))
  }

  lemma {:induction false} OneMoreMove(history: seq<seq<Point>>, next: seq<Point>, nodes: seq<Point>, n: nat)
    requires Moving(history, nodes, n) && |next| == |history[0]|
    requires Moves(history[|history| - 1], next, nodes, n)
    ensures Moving(history + [next], nodes, n)
  {}

  lemma {:induction false} FinalMove(history: seq<seq<Point>>, next: seq<Point>, nodes: seq<Point>, n: nat)
    requires Moving(history, nodes, n) && |next| == |history[0]| && |history| <= MAX_ITER
    requires FollowsFrom(history[|history| - 1], next, nodes, n)
    requires |history| < MAX_ITER ==> AtRest(history[|history| - 1], next)
    ensures Refined(history + [next], nodes, n)
  {
    assert (history + [next])[..|history|] == history;
  }

  /** Lines 213-222: at most MAX_ITER steps from the seeds. */
  method Refine(nodes: seq<Point>, seeds: seq<Point>, n: nat)
    returns (centroids: seq<Point>, ghost history: seq<seq<Point>>)
    requires seeds != []
    ensures Refined(history, nodes, n) && history[0] == seeds && history[|history| - 1] == centroids
    ensures |centroids| == |seeds|
  {
    centroids, history := seeds, [seeds];
    for iter := 0 to MAX_ITER
      invariant |history| == iter + 1 && history[0] == seeds && history[iter] == centroids && |centroids| == |seeds|
      invariant iter < MAX_ITER ==> Moving(history, nodes, n)
      invariant iter == MAX_ITER ==> Refined(history, nodes, n)
    {
      var next, done := Iterate(nodes, centroids, n);
      if done || iter == MAX_ITER - 1 {
        FinalMove(history, next, nodes, n);
      } else {
        OneMoreMove(history, next, nodes, n);
      }
      history := history + [next];
      centroids := next;
      if done {
        break;
      }
    }
  }

  /** The clusters are assigned to the centroids that the seeds have been refined to. */
  ghost predicate Converges(
      clusters: seq<Cluster>, nodes: seq<Point>, m: nat, n: nat, first: nat, draws: (nat, real) -> real)
  {
    exists history: seq<seq<Point>> ::
      && Refined(history, nodes, n) && AreSeeds(history[0], nodes, m, first, draws)
      && CentroidsOf(clusters) == history[|history| - 1]
  }

  lemma {:induction false} SeedCount(
      centroids: seq<Point>, nodes: seq<Point>, m: nat, first: nat, draws: (nat, real) -> real)
    requires AreSeeds(centroids, nodes, m, first, draws)
    ensures |centroids| == if m <= |nodes| then m else |nodes|
  {}

  /**
   The centroids of K-Means++, moved to the means of their nearest-available assignments until they are
   at rest or MAX_ITER steps are done, and the final assignment to them.
   */
  method SameSizeKMeans(nodes: seq<Point>, m: nat, n: nat, first: nat, draws: (nat, real) -> real)
    returns (clusters: seq<Cluster>)
    requires nodes != [] ==> first < |nodes|
    requires Fair(draws)
    ensures nodes == [] || m == 0 || n == 0 ==> clusters == []
    ensures nodes != [] && m > 0 && n > 0 ==>
              && |clusters| == (if m <= |nodes| then m else |nodes|)
              && IsAssignment(clusters, nodes, n) && Converges(clusters, nodes, m, n, first, draws)
  {
    if nodes == [] || m == 0 || n == 0 {
      return [];
    }
    var seeds := KMeansPlusPlus(nodes, m, first, draws);
    SeedCount(seeds, nodes, m, first, draws);
    var centroids, history := Refine(nodes, seeds, n);
    clusters := AssignNodes(nodes, centroids, n);
    assert CentroidsOf(clusters) == history[|history| - 1];
  }

  // ---- Guarantees ------------------------------------------------------------------------

  lemma {:induction false} AssignmentIsNumbered(clusters: seq<Cluster>, nodes: seq<Point>, n: nat)
    requires IsAssignment(clusters, nodes, n)
    ensures Numbered(clusters)
  {}

  lemma {:induction false} AssignmentIsPartition(clusters: seq<Cluster>, nodes: seq<Point>, n: nat)
    requires IsAssignment(clusters, nodes, n)
    ensures multiset(Flatten(clusters)) == multiset(nodes)
  {
    var owner :| NearestAvailable(nodes, CentroidsOf(clusters), n, owner)
                 && clusters == ClustersOf(nodes, CentroidsOf(clusters), owner);
    AssignmentPartitions(nodes, CentroidsOf(clusters), n, owner);
  }

  /** The sizes that the dimensions of the network promise. */
  ghost predicate Balanced(clusters: seq<Cluster>, p: nat, n: nat) {
    && (forall j :: 0 <= j < |clusters| ==> |clusters[j].nodes| >= n)
    && (forall j, k :: 0 <= j < |clusters| && 0 <= k < |clusters| ==> |clusters[j].nodes| <= |clusters[k].nodes| + 1)
    && (p >= 16 ==> forall j :: 0 <= j < |clusters| ==> |clusters[j].nodes| <= n + 1)
  }

  lemma {:induction false} AssignmentIsBalanced(clusters: seq<Cluster>, nodes: seq<Point>, n: nat)
    requires IsAssignment(clusters, nodes, n) && AreDimensions(|nodes|, n, |clusters|)
    ensures Balanced(clusters, |nodes|, n)
  {
    var owner :| NearestAvailable(nodes, CentroidsOf(clusters), n, owner)
                 && clusters == ClustersOf(nodes, CentroidsOf(clusters), owner);
    BalancedByDimensions(nodes, CentroidsOf(clusters), n, owner);
  }

  /** ComputeDimensions never asks for more clusters than there are nodes. */
  lemma {:induction false} EnoughNodes(p: nat, n: nat, m: nat)
    requires AreDimensions(p, n, m)
    ensures m <= p
  {
    TimesMonotone(1, n, m);
    assert n * m == m * n;
  }

  /** Clusters of the whole network: an assignment with the dimensions of its size. */
  ghost predicate Clustered(clusters: seq<Cluster>, nodes: seq<Point>) {
    exists n ::
      && AreDimensions(|nodes|, n, |clusters|)
      && (|clusters| > 0 ==> IsAssignment(clusters, nodes, n) && Balanced(clusters, |nodes|, n))
  }

  /** `p` is the mean of at least n of the nodes. */
  ghost predicate IsMeanOfMany(p: Point, nodes: seq<Point>, n: nat) {
    exists members: seq<Point> :: |members| >= n && multiset(members) <= multiset(nodes) && IsMean(p, members)
  }

  lemma {:induction false} ClusterWithin(clusters: seq<Cluster>, j: nat)
    requires j < |clusters|
    ensures multiset(clusters[j].nodes) <= multiset(Flatten(clusters))
  {
    if j < |clusters| - 1 {
      ClusterWithin(clusters[..|clusters| - 1], j);
    }
  }

  /** A step of the refinement under the dimensions of the nodes ends in means of at least n nodes each. */
  lemma {:induction false} StepEndsInMeans(before: seq<Point>, after: seq<Point>, nodes: seq<Point>, n: nat, j: nat)
    requires FollowsFrom(before, after, nodes, n) && AreDimensions(|nodes|, n, |before|)
    requires |after| == |before| && j < |after|
    ensures IsMeanOfMany(after[j], nodes, n)
  {
    var clusters: seq<Cluster> :| Assigned(clusters, nodes, before, n) && Centred(clusters, before, after);
    var owner :| NearestAvailable(nodes, before, n, owner) && clusters == ClustersOf(nodes, before, owner);
    AssignmentPartitions(nodes, before, n, owner);
    BalancedByDimensions(nodes, before, n, owner);
    ClusterWithin(clusters, j);
    assert |clusters[j].nodes| >= n && IsMean(after[j], clusters[j].nodes);
  }

  /** With the dimensions of its input, every centroid of the result is the mean of at least n input nodes. */
  lemma {:induction false} CentroidsAreMeans(
      clusters: seq<Cluster>, nodes: seq<Point>, m: nat, n: nat, first: nat, draws: (nat, real) -> real, j: nat)
    requires Converges(clusters, nodes, m, n, first, draws) && AreDimensions(|nodes|, n, m) && j < |clusters|
    ensures IsMeanOfMany(clusters[j].centroid, nodes, n)
  {
    var history: seq<seq<Point>> :|
      && Refined(history, nodes, n) && AreSeeds(history[0], nodes, m, first, draws)
      && CentroidsOf(clusters) == history[|history| - 1];
    SeedCount(history[0], nodes, m, first, draws);
    EnoughNodes(|nodes|, n, m);
    var before, after := history[|history| - 2], history[|history| - 1];
    assert |history[..|history| - 1][|history| - 2]| == |history[..|history| - 1][0]|;
    StepEndsInMeans(before, after, nodes, n, j);
  }

  /** The clustering of a tick: its own dimensions, and centroids refined from these seeds. */
  ghost predicate ClusteredFrom(clusters: seq<Cluster>, nodes: seq<Point>, first: nat, draws: (nat, real) -> real) {
    exists n: nat, m: nat ::
      && AreDimensions(|nodes|, n, m)
      && if m == 0 then clusters == [] else Converges(clusters, nodes, m, n, first, draws)
  }

  /** Dimensions and clustering together, as the tick runs them. */
  method Recluster(nodes: seq<Point>, first: nat, draws: (nat, real) -> real) returns (clusters: seq<Cluster>)
    requires nodes != [] ==> first < |nodes|
    requires Fair(draws)
    ensures Clustered(clusters, nodes) && ClusteredFrom(clusters, nodes, first, draws)
  {
    var n, m := ComputeDimensions(|nodes|);
    clusters := SameSizeKMeans(nodes, m, n, first, draws);
    EnoughNodes(|nodes|, n, m);
    if m > 0 {
      AssignmentIsBalanced(clusters, nodes, n);
    }
  }
}
