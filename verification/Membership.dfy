/** Who sits where: clusters of a network with distinct IDs, and their leaders. */
module Membership {
  import opened Prelude
  import opened Geometry
  import opened Dimensions
  import opened Seeding
  import opened Assignment
  import opened Election
  import opened KMeans

  // ---- Distinct members ------------------------------------------------------------------

  lemma {:induction false} OccursOnce(s: seq<Point>, p: Point)
    requires UniqueIds(s)
    ensures multiset(s)[p] <= 1
  {
    if s != [] {
      var n := |s| - 1;
      OccursOnce(s[..n], p);
      assert s == s[..n] + [s[n]];
      assert p in s[..n] ==> p.id != s[n].id;
    }
  }

  lemma {:induction false} OccursTwice(s: seq<Point>, i: nat, j: nat)
    requires i < j < |s| && s[i] == s[j]
    ensures multiset(s)[s[i]] >= 2
  {
    assert s == s[..j] + s[j..];
    assert s[i] in multiset(s[..j]) && s[j] in multiset(s[j..]) by {
      assert s[..j][i] == s[i] && s[j..][0] == s[j];
    }
  }

  /** Rearranging nodes with distinct IDs leaves the IDs distinct. */
  lemma {:induction false} RearrangedIdsUnique(s: seq<Point>, t: seq<Point>)
    requires UniqueIds(t) && multiset(s) == multiset(t)
    ensures UniqueIds(s)
  {
    forall i, j | 0 <= i < j < |s|
      ensures s[i].id != s[j].id
    {
      if s[i].id == s[j].id {
        SameIdSamePoint(s, t, i, j);
        OccursTwice(s, i, j);
        OccursOnce(t, s[i]);
      }
    }
  }

  lemma {:induction false} SameIdSamePoint(s: seq<Point>, t: seq<Point>, i: nat, j: nat)
    requires UniqueIds(t) && multiset(s) == multiset(t) && i < |s| && j < |s| && s[i].id == s[j].id
    ensures s[i] == s[j]
  {
    assert s[i] in multiset(t) && s[j] in multiset(t);
    var k :| 0 <= k < |t| && t[k] == s[i];
    var l :| 0 <= l < |t| && t[l] == s[j];
  }

  /** Where the nodes of cluster j start in the flattened clustering. */
  function Offset(clusters: seq<Cluster>, j: nat): (o: nat)
    requires j <= |clusters|
    ensures o == |Flatten(clusters[..j])|
  {
    if j == 0 then 0
    else
      assert clusters[..j][..j - 1] == clusters[..j - 1];
      Offset(clusters, j - 1) + |clusters[j - 1].nodes|
  }

  lemma {:induction false} FlattenedAt(clusters: seq<Cluster>, j: nat, i: nat)
    requires j < |clusters| && i < |clusters[j].nodes|
    ensures Offset(clusters, j) + i < |Flatten(clusters)|
    ensures Flatten(clusters)[Offset(clusters, j) + i] == clusters[j].nodes[i]
    decreases |clusters|
  {
    var n := |clusters| - 1;
    if j < n {
      FlattenedAt(clusters[..n], j, i);
      assert clusters[..n][..j] == clusters[..j];
    } else {
      assert clusters[..j] == clusters[..n];
    }
  }

  lemma {:induction false} FlattenedSomewhere(clusters: seq<Cluster>, p: Point) returns (k: nat)
    requires p in Flatten(clusters)
    ensures k < |clusters| && p in clusters[k].nodes
  {
    k := |clusters| - 1;
    if p !in clusters[k].nodes {
      k := FlattenedSomewhere(clusters[..k], p);
    }
  }

  lemma {:induction false} OffsetsApart(clusters: seq<Cluster>, j: nat, k: nat)
    requires j < k <= |clusters|
    ensures Offset(clusters, j) + |clusters[j].nodes| <= Offset(clusters, k)
  {
    if k > j + 1 {
      OffsetsApart(clusters, j, k - 1);
    }
  }

  /** No ID occurs twice, neither in one cluster nor in two. */
  ghost predicate MembersDistinct(clusters: seq<Cluster>) {
    && (forall j :: 0 <= j < |clusters| ==> UniqueIds(clusters[j].nodes))
    && forall j, k, p, q :: 0 <= j < k < |clusters| && p in clusters[j].nodes && q in clusters[k].nodes ==> p.id != q.id
  }

  lemma {:induction false} UniqueAcross(clusters: seq<Cluster>, j: nat, k: nat, i: nat, l: nat)
    requires UniqueIds(Flatten(clusters)) && j <= k < |clusters| && i < |clusters[j].nodes| && l < |clusters[k].nodes|
    requires j < k || i < l
    ensures clusters[j].nodes[i].id != clusters[k].nodes[l].id
  {
    FlattenedAt(clusters, j, i);
    FlattenedAt(clusters, k, l);
    if j < k {
      OffsetsApart(clusters, j, k);
    }
  }

  lemma {:induction false} FlattenedMembersDistinct(clusters: seq<Cluster>)
    requires UniqueIds(Flatten(clusters))
    ensures MembersDistinct(clusters)
  {
    forall j, i, l | 0 <= j < |clusters| && 0 <= i < l < |clusters[j].nodes|
      ensures clusters[j].nodes[i].id != clusters[j].nodes[l].id
    {
      UniqueAcross(clusters, j, j, i, l);
    }
    forall j, k, p, q | 0 <= j < k < |clusters| && p in clusters[j].nodes && q in clusters[k].nodes
      ensures p.id != q.id
    {
      var i :| 0 <= i < |clusters[j].nodes| && clusters[j].nodes[i] == p;
      var l :| 0 <= l < |clusters[k].nodes| && clusters[k].nodes[l] == q;
      UniqueAcross(clusters, j, k, i, l);
    }
  }

  // ---- What a clustering of the whole network gives --------------------------------------

  /** At least 4 nodes with distinct IDs: a partition into non-empty clusters with distinct members. */
  lemma {:induction false} ClusteredNetwork(clusters: seq<Cluster>, nodes: seq<Point>)
    requires Clustered(clusters, nodes) && UniqueIds(nodes) && |nodes| >= 4
    ensures clusters != [] && Numbered(clusters) && MembersDistinct(clusters)
    ensures multiset(Flatten(clusters)) == multiset(nodes)
    ensures forall j :: 0 <= j < |clusters| ==> |clusters[j].nodes| >= 4
  {
    var n :| AreDimensions(|nodes|, n, |clusters|)
             && (|clusters| > 0 ==> IsAssignment(clusters, nodes, n) && Balanced(clusters, |nodes|, n));
    SomeCluster(|nodes|, n, |clusters|);
    AssignmentIsPartition(clusters, nodes, n);
    AssignmentIsNumbered(clusters, nodes, n);
    RearrangedIdsUnique(Flatten(clusters), nodes);
    FlattenedMembersDistinct(clusters);
  }

  lemma {:induction false} SomeCluster(p: nat, n: nat, m: nat)
    requires AreDimensions(p, n, m) && p >= 4
    ensures m > 0
  {
    if p < 16 && n > MINSIZE {
      SquareMonotone(MINSIZE + 1, n);
    }
    if m == 0 && n > MINSIZE {
      TimesMonotone(1, n, n);
    }
  }

  lemma {:induction false} LeaderIsMember(clusters: seq<Cluster>, leaders: map<nat, Point>, k: nat)
    requires Elected(leaders, clusters) && k < |clusters| && k in leaders
    ensures leaders[k] in clusters[k].nodes
  {
    assert LeadsCluster(leaders[k], clusters[k]);
  }

  lemma {:induction false} MemberIsNode(clusters: seq<Cluster>, nodes: seq<Point>, k: nat, p: Point)
    requires multiset(Flatten(clusters)) == multiset(nodes) && k < |clusters| && p in clusters[k].nodes
    ensures p in nodes
  {
    var i :| 0 <= i < |clusters[k].nodes| && p == clusters[k].nodes[i];
    FlattenedAt(clusters, k, i);
    assert p in multiset(Flatten(clusters));
  }

  lemma {:induction false} LeadersApart(clusters: seq<Cluster>, leaders: map<nat, Point>, j: nat, k: nat)
    requires MembersDistinct(clusters) && Elected(leaders, clusters) && j in leaders && k in leaders && j != k
    ensures leaders[j].id != leaders[k].id
  {
    LeaderIsMember(clusters, leaders, j);
    LeaderIsMember(clusters, leaders, k);
  }

  /** There is a leader for every cluster, and no two clusters share one. */
  lemma {:induction false} LeadersOfNetwork(clusters: seq<Cluster>, nodes: seq<Point>, leaders: map<nat, Point>)
    requires Clustered(clusters, nodes) && UniqueIds(nodes) && |nodes| >= 4 && Elected(leaders, clusters)
    ensures forall k: nat :: k in leaders <==> k < |clusters|
    ensures forall j: nat, k: nat :: j in leaders && k in leaders && j != k ==> leaders[j].id != leaders[k].id
    ensures forall k: nat :: k in leaders ==> leaders[k] in nodes
  {
    ClusteredNetwork(clusters, nodes);
    forall k: nat
      ensures k in leaders <==> k < |clusters|
    {
      assert k < |clusters| ==> |clusters[k].nodes| >= 4;
    }
    forall j: nat, k: nat | j in leaders && k in leaders && j != k
      ensures leaders[j].id != leaders[k].id
    {
      LeadersApart(clusters, leaders, j, k);
    }
    forall k: nat | k in leaders
      ensures leaders[k] in nodes
    {
      LeaderIsMember(clusters, leaders, k);
      MemberIsNode(clusters, nodes, k, leaders[k]);
    }
  }
}
