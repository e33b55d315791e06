/** Leader election (cluster/leader.go:23-67). */
module Election {
  import opened Prelude
  import opened Geometry

  /** Node j of the cluster is nearest to the centroid, and no earlier node is as near. */
  predicate IsLeader(c: Cluster, j: nat) {
    && j < |c.nodes|
    && forall k :: 0 <= k < |c.nodes| ==> Leads(c, j, k)
  }

  predicate Leads(c: Cluster, j: nat, k: nat)
    requires j < |c.nodes| && k < |c.nodes|
  {
    Dist(c.nodes[j], c.centroid) < Dist(c.nodes[k], c.centroid)
    || (Dist(c.nodes[j], c.centroid) == Dist(c.nodes[k], c.centroid) && j <= k)
  }

  lemma {:induction false} LeaderIsNearest(c: Cluster, j: nat)
    requires j < |c.nodes|
    ensures IsLeader(c, j) <==>
            && (forall k :: 0 <= k < |c.nodes| ==> Dist(c.nodes[j], c.centroid) <= Dist(c.nodes[k], c.centroid))
            && (forall k :: 0 <= k < j ==> Dist(c.nodes[j], c.centroid) < Dist(c.nodes[k], c.centroid))
  {
    var d := Dist(c.nodes[j], c.centroid);
    assert IsLeader(c, j) <==> forall k :: 0 <= k < |c.nodes| ==> Leads(c, j, k);
    forall k | 0 <= k < |c.nodes|
      ensures Leads(c, j, k) <==> d <= Dist(c.nodes[k], c.centroid) && (k < j ==> d < Dist(c.nodes[k], c.centroid))
    {}
  }

  lemma {:induction false} LeaderUnique(c: Cluster, j: nat, k: nat)
    requires IsLeader(c, j) && IsLeader(c, k)
    ensures j == k
  {
    assert Leads(c, j, k) && Leads(c, k, j);
  }

  /** -1 for an empty cluster. */
  method ElectLeader(c: Cluster) returns (best: int)
    ensures best == -1 <==> c.nodes == []
    ensures best != -1 ==> best >= 0 && IsLeader(c, best)
  {
    if c.nodes == [] {
      return -1;
    }
    best := 0;
    var bestDist := Dist(c.nodes[0], c.centroid);
    for j := 1 to |c.nodes|
      invariant 0 <= best < j && bestDist == Dist(c.nodes[best], c.centroid)
      invariant forall k :: 0 <= k < j ==> Leads(c, best, k)
    {
      var d := Dist(c.nodes[j], c.centroid);
      assert forall k :: 0 <= k < j ==> Leads(c, best, k) && (d < bestDist ==> Leads(c, j, k));
      if d < bestDist {
        best, bestDist := j, d;
      }
    }
  }

  ghost predicate LeadsCluster(p: Point, c: Cluster) {
    exists j :: 0 <= j < |c.nodes| && IsLeader(c, j) && p == c.nodes[j]
  }

  /** Cluster i is the last non-empty one with ID k. */
  ghost predicate IsLast(clusters: seq<Cluster>, k: nat, i: nat) {
    && i < |clusters| && clusters[i].id == k && clusters[i].nodes != []
    && forall j :: i < j < |clusters| ==> clusters[j].id != k || clusters[j].nodes == []
  }

  /** The leader under each ID is that of the last non-empty cluster with it; no other IDs occur. */
  ghost predicate ElectedFrom(leaders: map<nat, Point>, clusters: seq<Cluster>) {
    && (forall i :: 0 <= i < |clusters| && clusters[i].nodes != [] ==> clusters[i].id in leaders)
    && forall k: nat :: k in leaders ==>
       exists i: nat :: IsLast(clusters, k, i) && LeadsCluster(leaders[k], clusters[i])
  }

  method ElectAllLeaders(clusters: seq<Cluster>) returns (leaders: map<nat, Point>)
    ensures ElectedFrom(leaders, clusters)
  {
    leaders := map[];
    for i := 0 to |clusters|
      invariant ElectedFrom(leaders, clusters[..i])
    {
      var best := ElectLeader(clusters[i]);
      ghost var before := leaders;
      if best >= 0 {
        leaders := leaders[clusters[i].id := clusters[i].nodes[best]];
        assert LeadsCluster(clusters[i].nodes[best], clusters[i]);
      }
      OneMoreElected(before, leaders, clusters[..i], clusters[i]);
      assert clusters[..i + 1] == clusters[..i] + [clusters[i]];
    }
    assert clusters[..|clusters|] == clusters;
  }

  lemma {:induction false} OneMoreElected(
      before: map<nat, Point>, after: map<nat, Point>, clusters: seq<Cluster>, c: Cluster)
    requires ElectedFrom(before, clusters)
    requires c.nodes == [] ==> after == before
    requires c.nodes != [] ==> exists p :: LeadsCluster(p, c) && after == before[c.id := p]
    ensures ElectedFrom(after, clusters + [c])
  {
    var all := clusters + [c];
    forall k: nat | k in after
      ensures exists i: nat :: IsLast(all, k, i) && LeadsCluster(after[k], all[i])
    {
      if c.nodes != [] && k == c.id {
        assert IsLast(all, k, |clusters|);
      } else {
        var i: nat :| IsLast(clusters, k, i) && LeadsCluster(before[k], clusters[i]);
        assert IsLast(all, k, i);
      }
    }
  }

  // ---- Clusters as K-Means numbers them --------------------------------------------------

  /** Cluster IDs are their positions. */
  ghost predicate Numbered(clusters: seq<Cluster>) {
    forall i :: 0 <= i < |clusters| ==> clusters[i].id == i
  }

  /** The leaders are exactly those of the non-empty clusters, under the cluster IDs. */
  ghost predicate Elected(leaders: map<nat, Point>, clusters: seq<Cluster>) {
    && (forall k: nat :: k in leaders <==> k < |clusters| && clusters[k].nodes != [])
    && forall k: nat :: k in leaders && k < |clusters| ==> LeadsCluster(leaders[k], clusters[k])
  }

  lemma {:induction false} NumberedElection(leaders: map<nat, Point>, clusters: seq<Cluster>)
    requires Numbered(clusters)
    ensures ElectedFrom(leaders, clusters) <==> Elected(leaders, clusters)
  {
    if Elected(leaders, clusters) {
      forall k: nat | k in leaders
        ensures exists i: nat :: IsLast(clusters, k, i) && LeadsCluster(leaders[k], clusters[i])
      {
        assert IsLast(clusters, k, k);
      }
    }
  }

  /** The election has one outcome. */
  lemma {:induction false} ElectionUnique(clusters: seq<Cluster>, a: map<nat, Point>, b: map<nat, Point>)
    requires Elected(a, clusters) && Elected(b, clusters)
    ensures a == b
  {
    forall k | k in a
      ensures a[k] == b[k]
    {
      var i :| 0 <= i < |clusters[k].nodes| && IsLeader(clusters[k], i) && a[k] == clusters[k].nodes[i];
      var j :| 0 <= j < |clusters[k].nodes| && IsLeader(clusters[k], j) && b[k] == clusters[k].nodes[j];
      LeaderUnique(clusters[k], i, j);
    }
  }
}
