/**
 Capacity-capped greedy assignment (cluster/kmeans.go:245-292). The outcome is described by the
 owner of each node, with no reference to the loops that compute it.
 */
module Assignment {
  import opened Prelude
  import opened Geometry

  /** How many of the nodes placed so far went to cluster j. */
  function Load(owner: seq<nat>, j: nat): nat {
    if owner == [] then 0
    else Load(owner[..|owner| - 1], j) + (if owner[|owner| - 1] == j then 1 else 0)
  }

  ghost predicate HasRoom(m: nat, n: nat, before: seq<nat>) {
    exists j :: 0 <= j < m && Load(before, j) < n
  }

  /** Cluster b is preferred to cluster j for a node at `p`: nearer, or as near with a lower index. */
  predicate Nearer(p: Point, centroids: seq<Point>, b: nat, j: nat)
    requires b < |centroids| && j < |centroids|
  {
    Dist(p, centroids[b]) < Dist(p, centroids[j]) || (Dist(p, centroids[b]) == Dist(p, centroids[j]) && b <= j)
  }

  predicate Emptier(before: seq<nat>, b: nat, j: nat) {
    Load(before, b) < Load(before, j) || (Load(before, b) == Load(before, j) && b <= j)
  }

  /** The nearest cluster with room; when none has room, the least loaded one. */
  ghost predicate Chosen(p: Point, centroids: seq<Point>, n: nat, before: seq<nat>, b: nat) {
    && b < |centroids|
    && (HasRoom(|centroids|, n, before) ==>
          && Load(before, b) < n
          && forall j :: 0 <= j < |centroids| && Load(before, j) < n ==> Nearer(p, centroids, b, j))
    && (!HasRoom(|centroids|, n, before) ==> forall j :: 0 <= j < |centroids| ==> Emptier(before, b, j))
  }

  /** Every node, in input order, goes to the cluster chosen given the nodes before it. */
  ghost predicate NearestAvailable(nodes: seq<Point>, centroids: seq<Point>, n: nat, owner: seq<nat>) {
    && |owner| == |nodes|
    && forall i :: 0 <= i < |nodes| ==> Chosen(nodes[i], centroids, n, owner[..i], owner[i])
  }

  /** The nodes of cluster j, in input order. */
  function Picked(nodes: seq<Point>, owner: seq<nat>, j: nat): seq<Point>
    requires |owner| == |nodes|
  {
    if nodes == [] then []
    else
      var k := |nodes| - 1;
      Picked(nodes[..k], owner[..k], j) + (if owner[k] == j then [nodes[k]] else [])
  }

  function ClusterAt(nodes: seq<Point>, centroids: seq<Point>, owner: seq<nat>, j: nat): Cluster
    requires |owner| == |nodes| && j < |centroids|
  {
    Cluster(j, centroids[j], Picked(nodes, owner, j))
  }

  function ClustersOf(nodes: seq<Point>, centroids: seq<Point>, owner: seq<nat>): (r: seq<Cluster>)
    requires |owner| == |nodes|
    ensures |r| == |centroids| && forall j :: 0 <= j < |centroids| ==> r[j] == ClusterAt(nodes, centroids, owner, j)
  {
    seq(|centroids|, j requires 0 <= j < |centroids| => ClusterAt(nodes, centroids, owner, j))
  }

  /** The clusters result from sending every node to its nearest available centroid. */
  ghost predicate Assigned(clusters: seq<Cluster>, nodes: seq<Point>, centroids: seq<Point>, n: nat) {
    exists owner :: NearestAvailable(nodes, centroids, n, owner) && clusters == ClustersOf(nodes, centroids, owner)
  }

  // ---- The loops -------------------------------------------------------------------------

  /** Lines 265-275: the nearest cluster below capacity, or -1. */
  method NearestOpen(p: Point, centroids: seq<Point>, sizes: array<nat>, n: nat) returns (best: int)
    requires sizes.Length == |centroids|
    ensures best == -1 ==> forall j :: 0 <= j < |centroids| ==> sizes[j] >= n
    ensures best != -1 ==>
              && 0 <= best < |centroids| && sizes[best] < n
              && forall j :: 0 <= j < |centroids| && sizes[j] < n ==> Nearer(p, centroids, best, j)
  {
    best := -1;
    for j := 0 to |centroids|
      invariant best == -1 ==> forall k :: 0 <= k < j ==> sizes[k] >= n
      invariant best != -1 ==>
                  && 0 <= best < j && sizes[best] < n
                  && forall k :: 0 <= k < j && sizes[k] < n ==> Nearer(p, centroids, best, k)
    {
      if sizes[j] < n {
        if best == -1 || Dist(p, centroids[j]) < Dist(p, centroids[best]) {
          best := j;
        }
      }
    }
  }

  /** Lines 279-287: the least loaded cluster, lowest index first. */
  method LeastLoaded(sizes: array<nat>) returns (best: nat)
    requires sizes.Length > 0
    ensures best < sizes.Length
    ensures forall j :: 0 <= j < sizes.Length ==> sizes[best] < sizes[j] || (sizes[best] == sizes[j] && best <= j)
  {
    best := 0;
    for j := 1 to sizes.Length
      invariant best < j
      invariant forall k :: 0 <= k < j ==> sizes[best] < sizes[k] || (sizes[best] == sizes[k] && best <= k)
    {
      if sizes[j] < sizes[best] {
        best := j;
      }
    }
  }

  /** The cluster for the next node. */
  method ChooseCluster(p: Point, centroids: seq<Point>, sizes: array<nat>, n: nat, ghost before: seq<nat>)
    returns (b: nat)
    requires centroids != [] && sizes.Length == |centroids|
    requires forall j :: 0 <= j < |centroids| ==> sizes[j] == Load(before, j)
    ensures Chosen(p, centroids, n, before, b)
  {
    var best := NearestOpen(p, centroids, sizes, n);
    if best == -1 {
      b := LeastLoaded(sizes);
    } else {
      b := best;
    }
  }

  method AssignNodes(nodes: seq<Point>, centroids: seq<Point>, n: nat) returns (clusters: seq<Cluster>)
    requires nodes == [] || centroids != []
    ensures Assigned(clusters, nodes, centroids, n)
  {
    var sizes := new nat[|centroids|](_ => 0);
    var slots := new Cluster[|centroids|](j requires 0 <= j < |centroids| => Cluster(j, centroids[j], []));
    ghost var owner: seq<nat> := [];
    for i := 0 to |nodes|
      invariant |owner| == i
      invariant forall k :: 0 <= k < i ==> Chosen(nodes[k], centroids, n, owner[..k], owner[k])
      invariant forall j :: 0 <= j < |centroids| ==> sizes[j] == Load(owner, j)
      invariant forall j :: 0 <= j < |centroids| ==> slots[j] == ClusterAt(nodes[..i], centroids, owner, j)
    {
      var b := ChooseCluster(nodes[i], centroids, sizes, n, owner);
      slots[b] := slots[b].(nodes := slots[b].nodes + [nodes[i]]);
      sizes[b] := sizes[b] + 1;
      ghost var grown := owner + [b];
      OneMoreNode(nodes, owner, i, b);
      assert forall k :: 0 <= k < i ==> grown[..k] == owner[..k] && grown[k] == owner[k];
      assert grown[..i] == owner;
      owner := grown;
    }
    assert nodes[..|nodes|] == nodes;
    clusters := slots[..];
    AssignedBy(clusters, nodes, centroids, n, owner);
  }

  lemma {:induction false} AssignedBy(
      clusters: seq<Cluster>, nodes: seq<Point>, centroids: seq<Point>, n: nat, owner: seq<nat>)
    requires NearestAvailable(nodes, centroids, n, owner) && |clusters| == |centroids|
    requires forall j :: 0 <= j < |centroids| ==> clusters[j] == ClusterAt(nodes, centroids, owner, j)
    ensures Assigned(clusters, nodes, centroids, n)
  {
    assert clusters == ClustersOf(nodes, centroids, owner);
  }

  lemma {:induction false} OneMoreNode(nodes: seq<Point>, owner: seq<nat>, i: nat, b: nat)
    requires i < |nodes| && |owner| == i
    ensures forall j: nat :: Load(owner + [b], j) == Load(owner, j) + (if b == j then 1 else 0)
    ensures forall j: nat ::
            Picked(nodes[..i + 1], owner + [b], j) == Picked(nodes[..i], owner, j) + (if b == j then [nodes[i]] else [])
  {
    assert (owner + [b])[..i] == owner;
    assert nodes[..i + 1][..i] == nodes[..i];
  }

  // ---- The assignment is determined ------------------------------------------------------

  lemma {:induction false} ChoiceUnique(p: Point, centroids: seq<Point>, n: nat, before: seq<nat>, b: nat, c: nat)
    requires Chosen(p, centroids, n, before, b) && Chosen(p, centroids, n, before, c)
    ensures b == c
  {
    if HasRoom(|centroids|, n, before) {
      assert Nearer(p, centroids, b, c) && Nearer(p, centroids, c, b);
    } else {
      assert Emptier(before, b, c) && Emptier(before, c, b);
    }
  }

  lemma {:induction false} PrefixAgrees(
      nodes: seq<Point>, centroids: seq<Point>, n: nat, o: seq<nat>, p: seq<nat>, i: nat)
    requires NearestAvailable(nodes, centroids, n, o) && NearestAvailable(nodes, centroids, n, p) && i <= |nodes|
    ensures o[..i] == p[..i]
  {
    if i > 0 {
      PrefixAgrees(nodes, centroids, n, o, p, i - 1);
      ChoiceUnique(nodes[i - 1], centroids, n, o[..i - 1], o[i - 1], p[i - 1]);
      assert o[..i] == o[..i - 1] + [o[i - 1]] && p[..i] == p[..i - 1] + [p[i - 1]];
    }
  }

  lemma {:induction false} OwnersUnique(nodes: seq<Point>, centroids: seq<Point>, n: nat, o: seq<nat>, p: seq<nat>)
    requires NearestAvailable(nodes, centroids, n, o) && NearestAvailable(nodes, centroids, n, p)
    ensures o == p
  {
    PrefixAgrees(nodes, centroids, n, o, p, |nodes|);
    assert o[..|nodes|] == o && p[..|nodes|] == p;
  }

  /** Nodes, centroids and capacity determine the clusters. */
  lemma {:induction false} AssignmentUnique(
      nodes: seq<Point>, centroids: seq<Point>, n: nat, c: seq<Cluster>, d: seq<Cluster>)
    requires Assigned(c, nodes, centroids, n) && Assigned(d, nodes, centroids, n)
    ensures c == d
  {
    var o :| NearestAvailable(nodes, centroids, n, o) && c == ClustersOf(nodes, centroids, o);
    var p :| NearestAvailable(nodes, centroids, n, p) && d == ClustersOf(nodes, centroids, p);
    OwnersUnique(nodes, centroids, n, o, p);
  }

  /**
   A node that sits in one cluster although another is preferred to it: the other one already held
   n nodes, all earlier in the input.
   */
  lemma {:induction false} PassedOverMeansFull(
      nodes: seq<Point>, centroids: seq<Point>, n: nat, owner: seq<nat>, i: nat, j: nat)
    requires NearestAvailable(nodes, centroids, n, owner) && i < |nodes| && j < |centroids| && j != owner[i]
    requires Dist(nodes[i], centroids[j]) < Dist(nodes[i], centroids[owner[i]])
             || (Dist(nodes[i], centroids[j]) == Dist(nodes[i], centroids[owner[i]]) && j < owner[i])
    ensures |Picked(nodes[..i], owner[..i], j)| >= n
    ensures Picked(nodes[..i], owner[..i], j) <= Picked(nodes, owner, j)
  {
    LoadIsSize(nodes[..i], owner[..i], j);
    PickedGrows(nodes, owner, j, i);
    assert Chosen(nodes[i], centroids, n, owner[..i], owner[i]);
  }

  lemma {:induction false} LoadIsSize(nodes: seq<Point>, owner: seq<nat>, j: nat)
    requires |owner| == |nodes|
    ensures |Picked(nodes, owner, j)| == Load(owner, j)
  {
    if nodes != [] {
      LoadIsSize(nodes[..|nodes| - 1], owner[..|nodes| - 1], j);
    }
  }

  lemma {:induction false} PickedGrows(nodes: seq<Point>, owner: seq<nat>, j: nat, i: nat)
    requires |owner| == |nodes| && i <= |nodes|
    ensures Picked(nodes[..i], owner[..i], j) <= Picked(nodes, owner, j)
  {
    var k := |nodes|;
    if i == k {
      assert nodes[..i] == nodes && owner[..i] == owner;
    } else {
      PickedGrows(nodes[..k - 1], owner[..k - 1], j, i);
      assert nodes[..k - 1][..i] == nodes[..i] && owner[..k - 1][..i] == owner[..i];
    }
  }

  // ---- Partition -------------------------------------------------------------------------

  function Flatten(clusters: seq<Cluster>): seq<Point> {
    if clusters == [] then [] else Flatten(clusters[..|clusters| - 1]) + clusters[|clusters| - 1].nodes
  }

  /** The first m of a family of lists, joined. */
  function Joined(group: nat -> seq<Point>, m: nat): seq<Point> {
    if m == 0 then [] else Joined(group, m - 1) + group(m - 1)
  }

  function Groups(nodes: seq<Point>, owner: seq<nat>): nat -> seq<Point>
    requires |owner| == |nodes|
  {
    (j: nat) => Picked(nodes, owner, j)
  }

  function SumTo(g: nat -> nat, m: nat): nat {
    if m == 0 then 0 else SumTo(g, m - 1) + g(m - 1)
  }

  lemma {:induction false} SumRaisedAt(g: nat -> nat, h: nat -> nat, b: nat, d: nat, m: nat)
    requires forall j: nat :: g(j) == h(j) + (if j == b then d else 0)
    ensures SumTo(g, m) == SumTo(h, m) + (if b < m then d else 0)
  {
    if m > 0 {
      SumRaisedAt(g, h, b, d, m - 1);
    }
  }

  /** How often `p` occurs in each cluster. */
  function Hits(nodes: seq<Point>, owner: seq<nat>, p: Point): nat -> nat
    requires |owner| == |nodes|
  {
    (j: nat) => multiset(Picked(nodes, owner, j))[p]
  }

  lemma {:induction false} CountConcat(a: seq<Point>, b: seq<Point>, p: Point)
    ensures multiset(a + b)[p] == multiset(a)[p] + multiset(b)[p]
  {}

  lemma {:induction false} JoinedCount(group: nat -> seq<Point>, g: nat -> nat, m: nat, p: Point)
    requires forall j: nat :: g(j) == multiset(group(j))[p]
    ensures multiset(Joined(group, m))[p] == SumTo(g, m)
  {
    if m > 0 {
      JoinedCount(group, g, m - 1, p);
      CountConcat(Joined(group, m - 1), group(m - 1), p);
    }
  }

  lemma {:induction false} OneMoreInCluster(nodes: seq<Point>, owner: seq<nat>, j: nat, p: Point)
    requires |owner| == |nodes| && nodes != []
    ensures var k := |nodes| - 1;
            Hits(nodes, owner, p)(j) ==
              Hits(nodes[..k], owner[..k], p)(j) + (if j == owner[k] then (if nodes[k] == p then 1 else 0) else 0)
  {}

  lemma {:induction false} OneMorePicked(nodes: seq<Point>, owner: seq<nat>, m: nat, p: Point)
    requires |owner| == |nodes| && nodes != []
    ensures var k := |nodes| - 1;
            SumTo(Hits(nodes, owner, p), m) ==
              SumTo(Hits(nodes[..k], owner[..k], p), m) + (if owner[k] < m && nodes[k] == p then 1 else 0)
  {
    var k := |nodes| - 1;
    var g, h, d := Hits(nodes, owner, p), Hits(nodes[..k], owner[..k], p), if nodes[k] == p then 1 else 0;
    forall j: nat
      ensures g(j) == h(j) + (if j == owner[k] then d else 0)
    {
      OneMoreInCluster(nodes, owner, j, p);
    }
    SumRaisedAt(g, h, owner[k], d, m);
  }

  lemma {:induction false} NoneToSum(g: nat -> nat, m: nat)
    requires forall j: nat :: g(j) == 0
    ensures SumTo(g, m) == 0
  {
    if m > 0 {
      NoneToSum(g, m - 1);
    }
  }

  lemma {:induction false} OccursAsOften(nodes: seq<Point>, owner: seq<nat>, m: nat, p: Point)
    requires |owner| == |nodes| && forall i :: 0 <= i < |owner| ==> owner[i] < m
    ensures SumTo(Hits(nodes, owner, p), m) == multiset(nodes)[p]
  {
    if nodes == [] {
      NoneToSum(Hits(nodes, owner, p), m);
    } else {
      var k := |nodes| - 1;
      OccursAsOften(nodes[..k], owner[..k], m, p);
      OneMorePicked(nodes, owner, m, p);
      assert nodes == nodes[..k] + [nodes[k]];
    }
  }

  lemma {:induction false} GroupsPartition(nodes: seq<Point>, owner: seq<nat>, m: nat)
    requires |owner| == |nodes| && forall i :: 0 <= i < |owner| ==> owner[i] < m
    ensures multiset(Joined(Groups(nodes, owner), m)) == multiset(nodes)
  {
    forall p: Point
      ensures multiset(Joined(Groups(nodes, owner), m))[p] == multiset(nodes)[p]
    {
      JoinedCount(Groups(nodes, owner), Hits(nodes, owner, p), m, p);
      OccursAsOften(nodes, owner, m, p);
    }
  }

  lemma {:induction false} FlattenPrefix(nodes: seq<Point>, centroids: seq<Point>, owner: seq<nat>, m: nat)
    requires |owner| == |nodes| && m <= |centroids|
    ensures Flatten(ClustersOf(nodes, centroids, owner)[..m]) == Joined(Groups(nodes, owner), m)
  {
    if m > 0 {
      FlattenPrefix(nodes, centroids, owner, m - 1);
      assert ClustersOf(nodes, centroids, owner)[..m][..m - 1] == ClustersOf(nodes, centroids, owner)[..m - 1];
    }
  }

  /** No node is lost, duplicated or invented. */
  lemma {:induction false} AssignmentPartitions(nodes: seq<Point>, centroids: seq<Point>, n: nat, owner: seq<nat>)
    requires NearestAvailable(nodes, centroids, n, owner)
    ensures multiset(Flatten(ClustersOf(nodes, centroids, owner))) == multiset(nodes)
  {
    var m := |centroids|;
    FlattenPrefix(nodes, centroids, owner, m);
    assert ClustersOf(nodes, centroids, owner)[..m] == ClustersOf(nodes, centroids, owner);
    assert forall i :: 0 <= i < |owner| ==> Chosen(nodes[i], centroids, n, owner[..i], owner[i]);
    GroupsPartition(nodes, owner, m);
  }
}
