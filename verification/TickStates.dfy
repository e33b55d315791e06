/**
 What one tick makes of the network (dynamic/clustering.go:171-268), on values: positions move, new
 nodes are admitted, and the network is clustered afresh.
 */
module TickStates {
  import opened Prelude
  import opened Geometry
  import opened Seeding
  import opened Assignment
  import opened Election
  import opened KMeans
  import opened Membership
  import opened ServiceQueue

  datatype Tick = Tick(newNodes: seq<Point>, moved: map<string, Point>)

  datatype Network = Network(points: seq<Point>, clusters: seq<Cluster>, leaders: map<nat, Point>)

  /** Every moved node's new position is filed under the node's own ID. */
  ghost predicate WellFormed(t: Tick) {
    forall id :: id in t.moved ==> t.moved[id].id == id
  }

  function MovedPoint(p: Point, moved: map<string, Point>): Point {
    if p.id in moved then moved[p.id] else p
  }

  function Moved(points: seq<Point>, moved: map<string, Point>): (r: seq<Point>)
    ensures |r| == |points| && forall i :: 0 <= i < |points| ==> r[i] == MovedPoint(points[i], moved)
  {
    seq(|points|, i requires 0 <= i < |points| => MovedPoint(points[i], moved))
  }

  predicate HasNode(points: seq<Point>, id: string) {
    exists i :: 0 <= i < |points| && points[i].id == id
  }

  /** Newcomers whose ID is not taken yet, by the network or by an earlier newcomer. */
  function Admitted(points: seq<Point>, add: seq<Point>): seq<Point> {
    if add == [] then points
    else
      var before, last := Admitted(points, add[..|add| - 1]), add[|add| - 1];
      if HasNode(before, last.id) then before else before + [last]
  }

  function FirstFew(add: seq<Point>, max: nat): seq<Point> {
    if |add| > max then add[..max] else add
  }

  /** The positions after the moves and admissions of a tick. */
  function NextPoints(points: seq<Point>, t: Tick, max: nat): seq<Point> {
    Admitted(Moved(points, t.moved), FirstFew(t.newNodes, max))
  }

  // ---- Admission -------------------------------------------------------------------------

  lemma {:induction false} MovingKeepsIds(points: seq<Point>, t: Tick)
    requires WellFormed(t)
    ensures forall i :: 0 <= i < |points| ==> Moved(points, t.moved)[i].id == points[i].id
    ensures UniqueIds(points) ==> UniqueIds(Moved(points, t.moved))
    ensures PointIds(Moved(points, t.moved)) == PointIds(points)
  {
    var moved := Moved(points, t.moved);
    forall id
      ensures id in PointIds(moved) <==> id in PointIds(points)
    {
      if id in PointIds(points) {
        var i :| 0 <= i < |points| && points[i].id == id;
        assert moved[i] in moved;
      }
      if id in PointIds(moved) {
        var i :| 0 <= i < |moved| && moved[i].id == id;
        assert points[i] in points;
      }
    }
  }

  /** Exactly the new distinct IDs are added, behind the nodes that were there. */
  lemma {:induction false} AdmissionAddsNewIds(points: seq<Point>, add: seq<Point>)
    requires UniqueIds(points)
    ensures UniqueIds(Admitted(points, add))
    ensures points <= Admitted(points, add)
    ensures PointIds(Admitted(points, add)) == PointIds(points) + PointIds(add)
  {
    if add != [] {
      var n := |add| - 1;
      var before := Admitted(points, add[..n]);
      AdmissionAddsNewIds(points, add[..n]);
      assert add == add[..n] + [add[n]];
      assert PointIds(add) == PointIds(add[..n]) + {add[n].id};
      HasNodeIsMember(before, add[n].id);
      assert PointIds(before + [add[n]]) == PointIds(before) + {add[n].id};
    }
  }

  lemma {:induction false} HasNodeIsMember(points: seq<Point>, id: string)
    ensures HasNode(points, id) <==> id in PointIds(points)
  {
    if HasNode(points, id) {
      var i :| 0 <= i < |points| && points[i].id == id;
      assert points[i] in points;
    }
  }

  lemma {:induction false} UniqueIdsCount(points: seq<Point>)
    requires UniqueIds(points)
    ensures |PointIds(points)| == |points|
  {
    IdsOf(points);
  }

  // ---- Where the nodes stand -------------------------------------------------------------

  /** The nodes that were there stand at their new position if they moved, and where they were if not. */
  ghost predicate Stand(before: seq<Point>, now: seq<Point>, moved: map<string, Point>) {
    && |before| <= |now|
    && forall i :: 0 <= i < |before| ==>
         now[i] == if before[i].id in moved then moved[before[i].id] else before[i]
  }

  /** Candidate j is admitted: nobody has its ID, neither before the tick nor among the earlier candidates. */
  ghost predicate IsNew(points: seq<Point>, add: seq<Point>, j: nat) {
    && j < |add|
    && (forall p :: p in points ==> p.id != add[j].id)
    && forall l :: 0 <= l < j ==> add[l].id != add[j].id
  }

  ghost predicate Increasing(picks: seq<nat>) {
    forall k, l :: 0 <= k < l < |picks| ==> picks[k] < picks[l]
  }

  function PointsAt(add: seq<Point>, picks: seq<nat>): (r: seq<Point>)
    requires forall k :: 0 <= k < |picks| ==> picks[k] < |add|
    ensures |r| == |picks| && forall k :: 0 <= k < |picks| ==> r[k] == add[picks[k]]
  {
    seq(|picks|, k requires 0 <= k < |picks| => add[picks[k]])
  }

  lemma {:induction false} LastIsNew(points: seq<Point>, add: seq<Point>)
    requires UniqueIds(points) && add != []
    ensures var n := |add| - 1;
            HasNode(Admitted(points, add[..n]), add[n].id) <==> !IsNew(points, add, n)
  {
    var n := |add| - 1;
    AdmissionAddsNewIds(points, add[..n]);
    HasNodeIsMember(Admitted(points, add[..n]), add[n].id);
    if add[n].id in PointIds(add[..n]) {
      var l :| 0 <= l < n && add[..n][l].id == add[n].id;
      assert add[l].id == add[n].id;
    }
    forall l | 0 <= l < n && add[l].id == add[n].id
      ensures add[n].id in PointIds(add[..n])
    {
      assert add[..n][l] in add[..n];
    }
  }

  /** The picks are the indices of the admitted candidates, in order. */
  ghost predicate ArePicks(points: seq<Point>, add: seq<Point>, picks: seq<nat>) {
    && (forall k :: 0 <= k < |picks| ==> picks[k] < |add|)
    && Increasing(picks)
    && forall j: nat :: j in picks <==> IsNew(points, add, j)
  }

  lemma {:induction false} NewInPrefix(points: seq<Point>, add: seq<Point>, n: nat, j: nat)
    requires j < n <= |add|
    ensures IsNew(points, add, j) <==> IsNew(points, add[..n], j)
  {
    assert forall l :: 0 <= l <= j ==> add[..n][l] == add[l];
  }

  lemma {:induction false} OneMorePick(points: seq<Point>, add: seq<Point>, before: seq<nat>, picks: seq<nat>)
    requires add != [] && ArePicks(points, add[..|add| - 1], before)
    requires picks == if IsNew(points, add, |add| - 1) then before + [|add| - 1] else before
    ensures ArePicks(points, add, picks)
  {
    var n := |add| - 1;
    forall j: nat
      ensures j in picks <==> IsNew(points, add, j)
    {
      if j < n {
        NewInPrefix(points, add, n, j);
      }
      assert j in before <==> IsNew(points, add[..n], j);
    }
  }

  /** The newcomers follow the nodes that were there, at the positions and in the order they were announced in. */
  lemma {:induction false} NewcomersInOrder(points: seq<Point>, add: seq<Point>) returns (picks: seq<nat>)
    requires UniqueIds(points)
    ensures ArePicks(points, add, picks)
    ensures Admitted(points, add) == points + PointsAt(add, picks)
  {
    picks := [];
    if add != [] {
      var n := |add| - 1;
      var before := NewcomersInOrder(points, add[..n]);
      LastIsNew(points, add);
      picks := if IsNew(points, add, n) then before + [n] else before;
      OneMorePick(points, add, before, picks);
      assert PointsAt(add, picks) == PointsAt(add[..n], before) + (if IsNew(points, add, n) then [add[n]] else []);
    }
  }

  lemma {:induction false} FirstOnes(points: seq<Point>, add: seq<Point>, max: nat, j: nat)
    ensures IsNew(points, FirstFew(add, max), j) <==> j < max && IsNew(points, add, j)
  {
    if j < |FirstFew(add, max)| {
      assert forall l :: 0 <= l <= j ==> FirstFew(add, max)[l] == add[l];
    }
  }

  lemma {:induction false} SameIdsSameNews(points: seq<Point>, other: seq<Point>, add: seq<Point>, j: nat)
    requires PointIds(points) == PointIds(other)
    ensures IsNew(points, add, j) <==> IsNew(other, add, j)
  {
    if j < |add| {
      assert (forall p :: p in points ==> p.id != add[j].id) <==> add[j].id !in PointIds(points);
      assert (forall p :: p in other ==> p.id != add[j].id) <==> add[j].id !in PointIds(other);
    }
  }

  lemma {:induction false} NextPointsStand(points: seq<Point>, t: Tick, max: nat)
    requires UniqueIds(points) && WellFormed(t)
    ensures Stand(points, NextPoints(points, t, max), t.moved)
  {
    MovingKeepsIds(points, t);
    AdmissionAddsNewIds(Moved(points, t.moved), FirstFew(t.newNodes, max));
  }

  /** After a tick every old node stands where its move put it, or where it stood. */
  lemma {:induction false} TickMoves(net: Network, t: Tick, max: nat, next: Network)
    requires UniqueIds(net.points) && WellFormed(t) && TickStep(net, t, max, next)
    ensures Stand(net.points, next.points, t.moved)
  {
    NextPointsStand(net.points, t, max);
  }

  /** Behind them stand, as announced and in that order, exactly the new ones among the first `max` candidates. */
  lemma {:induction false} TickAdmits(net: Network, t: Tick, max: nat, next: Network) returns (picks: seq<nat>)
    requires UniqueIds(net.points) && WellFormed(t) && TickStep(net, t, max, next)
    ensures Increasing(picks) && forall k :: 0 <= k < |picks| ==> picks[k] < |t.newNodes|
    ensures forall j: nat :: j in picks <==> j < max && IsNew(net.points, t.newNodes, j)
    ensures |net.points| <= |next.points| && next.points[|net.points|..] == PointsAt(t.newNodes, picks)
  {
    var moved, add := Moved(net.points, t.moved), FirstFew(t.newNodes, max);
    MovingKeepsIds(net.points, t);
    picks := NewcomersInOrder(moved, add);
    forall j: nat
      ensures j in picks <==> j < max && IsNew(net.points, t.newNodes, j)
    {
      FirstOnes(net.points, t.newNodes, max, j);
      SameIdsSameNews(moved, net.points, add, j);
    }
    assert PointsAt(add, picks) == PointsAt(t.newNodes, picks);
  }

  // ---- The invariant ---------------------------------------------------------------------

  /** IDs are unique; from 4 nodes on, the clusters partition the nodes and each has its leader. */
  ghost predicate Coherent(net: Network) {
    && UniqueIds(net.points)
    && Numbered(net.clusters) && Elected(net.leaders, net.clusters)
    && (|net.points| >= 4 ==>
          && net.clusters != [] && MembersDistinct(net.clusters)
          && multiset(Flatten(net.clusters)) == multiset(net.points)
          && forall k: nat :: k in net.leaders <==> k < |net.clusters|)
  }

  /** Clusters to start from: numbered in order, without a repeated ID, and none of them empty. */
  ghost predicate Founding(clusters: seq<Cluster>) {
    && Numbered(clusters) && UniqueIds(Flatten(clusters))
    && forall k :: 0 <= k < |clusters| ==> clusters[k].nodes != []
  }

  /** The invariant holds at the start. */
  lemma {:induction false} FoundingIsCoherent(clusters: seq<Cluster>, leaders: map<nat, Point>)
    requires Founding(clusters) && ElectedFrom(leaders, clusters)
    ensures Coherent(Network(Flatten(clusters), clusters, leaders))
  {
    NumberedElection(leaders, clusters);
    FlattenedMembersDistinct(clusters);
  }

  /** What ProcessTick guarantees about the new state, given the old one. */
  ghost predicate TickStep(net: Network, t: Tick, max: nat, next: Network) {
    && next.points == NextPoints(net.points, t, max)
    && Clustered(next.clusters, next.points)
    && Elected(next.leaders, next.clusters)
  }

  /** With fewer than 4 nodes there is no cluster; K-Means numbers its clusters in any case. */
  lemma {:induction false} ClusteredIsNumbered(clusters: seq<Cluster>, nodes: seq<Point>)
    requires Clustered(clusters, nodes)
    ensures Numbered(clusters)
  {}

  lemma {:induction false} TickKeepsCoherent(net: Network, t: Tick, max: nat, next: Network)
    requires Coherent(net) && WellFormed(t) && TickStep(net, t, max, next)
    ensures Coherent(next)
  {
    MovingKeepsIds(net.points, t);
    AdmissionAddsNewIds(Moved(net.points, t.moved), FirstFew(t.newNodes, max));
    ClusteredIsNumbered(next.clusters, next.points);
    if |next.points| >= 4 {
      ClusteredNetwork(next.clusters, next.points);
      LeadersOfNetwork(next.clusters, next.points, next.leaders);
    }
  }

  // ---- Runs of ticks ---------------------------------------------------------------------

  /** `history[i+1]` results from `history[i]` by tick i. */
  ghost predicate TickRun(history: seq<Network>, ticks: seq<Tick>, max: nat) {
    && |history| == |ticks| + 1
    && forall i :: 0 <= i < |ticks| ==> WellFormed(ticks[i]) && TickStep(history[i], ticks[i], max, history[i + 1])
  }

  function Newcomers(ticks: seq<Tick>, max: nat): set<string> {
    if ticks == [] then {}
    else Newcomers(ticks[..|ticks| - 1], max) + PointIds(FirstFew(ticks[|ticks| - 1].newNodes, max))
  }

  lemma {:induction false} TickAddsNewcomers(net: Network, t: Tick, max: nat, next: Network)
    requires UniqueIds(net.points) && WellFormed(t) && TickStep(net, t, max, next)
    ensures PointIds(next.points) == PointIds(net.points) + PointIds(FirstFew(t.newNodes, max))
  {
    MovingKeepsIds(net.points, t);
    AdmissionAddsNewIds(Moved(net.points, t.moved), FirstFew(t.newNodes, max));
  }

  lemma {:induction false} EarlierRun(history: seq<Network>, ticks: seq<Tick>, max: nat)
    requires TickRun(history, ticks, max) && ticks != []
    ensures TickRun(history[..|ticks|], ticks[..|ticks| - 1], max)
    ensures WellFormed(ticks[|ticks| - 1]) && TickStep(history[|ticks| - 1], ticks[|ticks| - 1], max, history[|ticks|])
  {
    assert TickStep(history[|ticks| - 1], ticks[|ticks| - 1], max, history[|ticks| - 1 + 1]);
  }

  /** Every run of ticks keeps the invariant. */
  lemma {:induction false} RunsStayCoherent(history: seq<Network>, ticks: seq<Tick>, max: nat)
    requires TickRun(history, ticks, max) && Coherent(history[0])
    ensures Coherent(history[|ticks|])
  {
    var n := |ticks|;
    if n > 0 {
      EarlierRun(history, ticks, max);
      RunsStayCoherent(history[..n], ticks[..n - 1], max);
      TickKeepsCoherent(history[n - 1], ticks[n - 1], max, history[n]);
    }
  }

  /**
   After any run of ticks the network consists of exactly the initial nodes and the distinct IDs
   among the first `max` newcomers of each tick, once each.
   */
  lemma {:induction false} RunsAdmitExactly(history: seq<Network>, ticks: seq<Tick>, max: nat)
    requires TickRun(history, ticks, max) && Coherent(history[0])
    ensures PointIds(history[|ticks|].points) == PointIds(history[0].points) + Newcomers(ticks, max)
    ensures |history[|ticks|].points| == |PointIds(history[0].points) + Newcomers(ticks, max)|
  {
    var n := |ticks|;
    RunsStayCoherent(history, ticks, max);
    if n > 0 {
      EarlierRun(history, ticks, max);
      RunsAdmitExactly(history[..n], ticks[..n - 1], max);
      RunsStayCoherent(history[..n], ticks[..n - 1], max);
      TickAddsNewcomers(history[n - 1], ticks[n - 1], max, history[n]);
    }
    UniqueIdsCount(history[n].points);
  }

  /** A node that stood at `p` stands at `q` after these ticks: where the last of them that moved it put it. */
  ghost predicate StandsAfter(p: Point, ticks: seq<Tick>, q: Point) {
    || (q == p && forall a :: 0 <= a < |ticks| ==> p.id !in ticks[a].moved)
    || exists a :: LastMove(p, ticks, a, q)
  }

  ghost predicate LastMove(p: Point, ticks: seq<Tick>, a: nat, q: Point) {
    && a < |ticks| && p.id in ticks[a].moved && q == ticks[a].moved[p.id]
    && forall b :: a < b < |ticks| ==> p.id !in ticks[b].moved
  }

  lemma {:induction false} OneMoreTick(p: Point, ticks: seq<Tick>, t: Tick, q: Point, r: Point)
    requires StandsAfter(p, ticks, q) && q.id == p.id && r == if q.id in t.moved then t.moved[q.id] else q
    ensures StandsAfter(p, ticks + [t], r)
  {
    var more := ticks + [t];
    if q.id in t.moved {
      assert LastMove(p, more, |ticks|, r);
    } else if a: nat :| LastMove(p, ticks, a, q) {
      assert LastMove(p, more, a, r);
    }
  }

  /**
   Positions over runs: the i-th node of the network after `e` ticks is still the i-th node at the end of
   the run, and stands where the last tick since then that moved it put it, or where it stood.
   */
  lemma {:induction false} NodesStandWhereLastMoved(history: seq<Network>, ticks: seq<Tick>, max: nat, e: nat, i: nat)
    requires TickRun(history, ticks, max) && Coherent(history[0]) && e <= |ticks| && i < |history[e].points|
    ensures i < |history[|ticks|].points| && history[|ticks|].points[i].id == history[e].points[i].id
    ensures StandsAfter(history[e].points[i], ticks[e..], history[|ticks|].points[i])
  {
    var n := |ticks|;
    if e < n {
      EarlierRun(history, ticks, max);
      NodesStandWhereLastMoved(history[..n], ticks[..n - 1], max, e, i);
      RunsStayCoherent(history[..n], ticks[..n - 1], max);
      TickMoves(history[n - 1], ticks[n - 1], max, history[n]);
      assert ticks[..n - 1][e..] + [ticks[n - 1]] == ticks[e..];
      OneMoreTick(history[e].points[i], ticks[..n - 1][e..], ticks[n - 1],
                  history[n - 1].points[i], history[n].points[i]);
    } else {
      assert ticks[e..] == [];
    }
  }

  /** Every queue filed under a cluster of the old network has an heir in the new one. */
  lemma {:induction false} CoherentNetworksInherit(net: Network, next: Network, q: Queue)
    requires Coherent(net) && Coherent(next) && |net.points| >= 4 && |next.points| >= 4
    requires forall k: nat :: k in q && q[k] != [] ==> k < |net.clusters|
    ensures AllInherited(q, Context(net.leaders, next.clusters))
  {
    forall k: nat | k in q && q[k] != []
      ensures HasHeir(Context(net.leaders, next.clusters), k)
    {
      assert k in net.leaders;
    }
  }
}
