/**
 The live simulation (tick_rate/simulation.go:97-168, 252-275): the tick manager starts from running
 instances, and every tick is followed by rewiring the nodes and swapping the coordinator.
 */
module Simulation {
  import opened Prelude
  import opened Messages
  import opened Quorum
  import opened NodeModel
  import opened NodeObject
  import opened Round
  import opened Epochs
  import opened Engine
  import opened PbftInstance
  import Sets = QuorumSets
  import opened Runs
  import opened LinkedRounds
  import opened Geometry
  import opened Dimensions
  import Seeding
  import opened Assignment
  import opened Election
  import opened KMeans
  import opened Membership
  import opened TickStates
  import opened TickManager
  import opened Rebuild
  import opened RebuiltNetwork
  import opened GlobalOutcomes
  import opened GlobalTransition

  // ---- The start -------------------------------------------------------------------------

  /** All members of all instances, leaders first. */
  ghost function Crew(instances: seq<PBFTInstance>): seq<Node> {
    if instances == [] then [] else Crew(instances[..|instances| - 1]) + instances[|instances| - 1].all
  }

  method PositionsOf(members: seq<Node>) returns (points: seq<Point>)
    ensures |points| == |members| && forall i :: 0 <= i < |members| ==> points[i] == members[i].location
  {
    points := [];
    for i := 0 to |members|
      invariant |points| == i && forall k :: 0 <= k < i ==> points[k] == members[k].location
    {
      points := points + [members[i].location];
    }
  }

  ghost predicate Positions(points: seq<Point>, members: seq<Node>)
    reads members`location
  {
    |points| == |members| && forall i :: 0 <= i < |members| ==> points[i] == members[i].location
  }

  /** Lines 252-275: one numbered cluster per instance, and all node objects in the same order. */
  method ExtractDynamicState(instances: seq<PBFTInstance>) returns (clusters: seq<Cluster>, allNodes: seq<Node>)
    ensures |clusters| == |instances| && Numbered(clusters) && allNodes == Crew(instances)
    ensures forall k :: 0 <= k < |clusters| ==> clusters[k].nodes != []
    ensures Positions(Flatten(clusters), allNodes) && forall n :: n in allNodes ==> !fresh(n)
  {
    clusters, allNodes := [], [];
    for k := 0 to |instances|
      invariant |clusters| == k && Numbered(clusters) && allNodes == Crew(instances[..k])
      invariant forall j :: 0 <= j < k ==> clusters[j].nodes != []
      invariant Positions(Flatten(clusters), allNodes) && forall n :: n in allNodes ==> !fresh(n)
    {
      assert instances[..k + 1][..k] == instances[..k];
      var members := instances[k].AllNodes();
      var points := PositionsOf(members);
      ghost var before := clusters;
      clusters := clusters + [Cluster(k, instances[k].leader.location, points)];
      assert clusters[..k] == before;
      allNodes := allNodes + members;
    }
    assert instances[..|instances|] == instances;
  }

  /** A network whose nodes have distinct IDs and know where they are starts in the tick manager's invariant. */
  method StartTicking(instances: seq<PBFTInstance>, maxPerTick: nat) returns (tm: TickMode)
    requires DistinctNodes(Crew(instances))
    requires forall n :: n in Crew(instances) ==> n.location.id == n.id
    ensures fresh(tm) && tm.Valid() && tm.nodes == Crew(instances) && tm.maxPerTick == maxPerTick
  {
    var clusters, allNodes := ExtractDynamicState(instances);
    forall i | 0 <= i < |allNodes|
      ensures allNodes[i].id == Flatten(clusters)[i].id
    {
      assert allNodes[i] in Crew(instances) && Flatten(clusters)[i] == allNodes[i].location;
    }
    tm := new TickMode(clusters, allNodes, maxPerTick);
  }

  // ---- From a tick to instances ----------------------------------------------------------

  /** What a tick leaves behind is what the rewiring needs. */
  lemma {:induction false} CoherentIsRebuildable(net: Network)
    requires Coherent(net) && |net.points| >= 4
    ensures net.clusters != [] && MembersDistinct(net.clusters) && HasLeaders(net.clusters, net.leaders)
  {
    forall k | 0 <= k < |net.clusters|
      ensures k in net.leaders && net.leaders[k] in net.clusters[k].nodes
    {
      LeaderIsMember(net.clusters, net.leaders, k);
    }
  }

  lemma {:induction false} MembersHaveObjects(net: Network, nodes: seq<Node>, k: nat, p: Point)
    requires Coherent(net) && |net.points| >= 4 && AlignedWith(nodes, net.points)
    requires k < |net.clusters| && p in net.clusters[k].nodes
    ensures exists n :: n in nodes && n.id == p.id
  {
    MemberIsNode(net.clusters, net.points, k, p);
    var i :| 0 <= i < |net.points| && net.points[i] == p;
    assert nodes[i] in nodes && nodes[i].id == p.id;
  }

  /** Node objects that can verify themselves, all in the one view there is. */
  ghost predicate AtHome(nodes: seq<Node>)
    reads nodes`knownKeys, nodes`view
  {
    forall n :: n in nodes ==> KnowsItself(n) && n.view == 0
  }

  /** The network still has the clusters' worth of nodes that f_local and f_global were computed for. */
  ghost predicate Sized(points: seq<Point>, p: nat, n: nat, m: nat) {
    p >= 4 && AreDimensions(p, n, m) && |points| >= m * n
  }

  lemma {:induction false} SizedBounds(points: seq<Point>, p: nat, n: nat, m: nat)
    requires Sized(points, p, n, m)
    ensures |points| >= 4 && FaultyThreshold(p) < |points|
  {
    SomeCluster(p, n, m);
    TimesMonotone(1, m, n);
    assert (m + 1) * n == m * n + n;
  }

  // ---- A network that answers ------------------------------------------------------------

  /** Every site is linked, led, and large enough for its fault bound; no node serves at two. */
  ghost predicate Serving(sites: seq<Site>, f: int) {
    && (forall k :: 0 <= k < |sites| ==> Linked(sites[k], f) && Enough(|sites[k].nodes|, f))
    && forall k, l, s, t :: 0 <= k < l < |sites| && s in sites[k].nodes && t in sites[l].nodes ==> s.id != t.id
  }

  ghost predicate ServedAt(sites: seq<Site>, id: string) {
    exists k :: 0 <= k < |sites| && id in Ids(sites[k].nodes)
  }

  lemma {:induction false} CollectedSomewhere(outcomes: seq<Outcome>, k: nat, r: Reply)
    requires k < |outcomes| && r in RepliesIn(outcomes[k])
    ensures r in AllReplies(outcomes)
  {
    if k < |outcomes| - 1 {
      CollectedSomewhere(outcomes[..|outcomes| - 1], k, r);
    }
  }

  lemma {:induction false} NamedInAnyOrder(outcomes: seq<Outcome>, order: seq<nat>, k: nat, r: Reply)
    requires ArrivalOrder(order, |outcomes|) && k < |outcomes| && r in RepliesIn(outcomes[k])
    ensures r.nodeId in Sets.NodeIds(AllReplies(InOrder(outcomes, order)))
  {
    CollectedSomewhere(outcomes, k, r);
    ArrivalOrderIrrelevant(outcomes, order);
    assert r in multiset(AllReplies(outcomes));
    var all := AllReplies(InOrder(outcomes, order));
    assert r in multiset(all);
    var j :| 0 <= j < |all| && all[j] == r;
    assert Sets.NodeIds(all)[j] == r.nodeId;
  }

  lemma {:induction false} MemberAnswers(site: Site, call: Call, f: int, id: string) returns (r: Reply)
    requires Linked(site, f) && Enough(|site.nodes|, f) && Sets.Uncancelled(call) && id in Ids(site.nodes)
    ensures r in RepliesIn(OutcomeAt(site, call)) && r.nodeId == id
  {
    var i :| 0 <= i < |site.nodes| && site.nodes[i].id == id;
    LinkedRoundAnswered(site.nodes, call, f);
    r := OutcomeAt(site, call).replies[i];
  }

  /** Every node of a serving network replies in a transition that nobody cancels. */
  lemma {:induction false} NodeAnswers(sites: seq<Site>, calls: seq<Call>, order: seq<nat>, f: int, id: string)
    requires Serving(sites, f) && |calls| == |sites| && ArrivalOrder(order, |sites|)
    requires forall k :: 0 <= k < |calls| ==> Sets.Uncancelled(calls[k])
    requires ServedAt(sites, id)
    ensures id in Sets.NodeIds(AllReplies(InOrder(Outcomes(sites, calls), order)))
  {
    var k :| 0 <= k < |sites| && id in Ids(sites[k].nodes);
    var r := MemberAnswers(sites[k], calls[k], f, id);
    NamedInAnyOrder(Outcomes(sites, calls), order, k, r);
  }

  lemma {:induction false} CoveredCount(replies: seq<Reply>, ids: set<string>)
    requires forall id :: id in ids ==> id in Sets.NodeIds(replies)
    ensures |replies| >= |ids|
  {
    var named := Sets.NodeIds(replies);
    SubsetSize(ids, set x | x in named);
    ElementCount(named);
  }

  lemma {:induction false} ElementCount(s: seq<string>)
    ensures |set x | x in s| <= |s|
  {
    if s != [] {
      var n := |s| - 1;
      ElementCount(s[..n]);
      assert s == s[..n] + [s[n]];
      assert (set x | x in s) == (set x | x in s[..n]) + {s[n]};
    }
  }

  /**
   A serving network with more nodes than f_global commits every transition that nobody cancels, with
   exactly one reply from each node, in whatever order the results arrive.
   */
  lemma {:induction false} ServingNetworkCommits(
      sites: seq<Site>, calls: seq<Call>, order: seq<nat>, f: int, fGlobal: int, ids: set<string>)
    requires Serving(sites, f) && |calls| == |sites| && ArrivalOrder(order, |sites|)
    requires forall k :: 0 <= k < |calls| ==> Sets.Uncancelled(calls[k])
    requires (forall id :: id in ids ==> ServedAt(sites, id)) && 0 <= fGlobal < |ids|
    ensures var verdict := Judge(InOrder(Outcomes(sites, calls), order), fGlobal);
            && verdict.Succeeded? && NoRepeats(Sets.NodeIds(verdict.replies))
            && forall id :: id in ids ==> id in Sets.NodeIds(verdict.replies)
  {
    var replies := AllReplies(InOrder(Outcomes(sites, calls), order));
    forall id | id in ids
      ensures id in Sets.NodeIds(replies)
    {
      NodeAnswers(sites, calls, order, f, id);
    }
    CoveredCount(replies, ids);
    assert Apart(sites, calls);
    RepliersAreDistinct(sites, calls, order);
  }

  // ---- Rewired instances -----------------------------------------------------------------

  ghost predicate Answers(inst: PBFTInstance, f: int)
    reads inst, inst.all
  {
    && inst.fLocal == f && !inst.useReputation && DistinctNodes(inst.all)
    && FullyLinked(States(inst.all)) && inst.all[0].role == Leader && Enough(|inst.all|, f)
  }

  ghost function CrewIds(inst: PBFTInstance): set<string> {
    set n | n in inst.all :: n.id
  }

  /** The instance's members are the nodes of the cluster. */
  ghost predicate Staffs(inst: PBFTInstance, c: Cluster) {
    CrewIds(inst) == PointIds(c.nodes)
  }

  lemma {:induction false} CoversStaffs(
      inst: PBFTInstance, c: Cluster, leaderId: string, fLocal: int, index: map<string, Node>)
    requires Indexed(c.nodes, index) && Covers(inst, c, leaderId, fLocal, index)
    ensures Staffs(inst, c)
  {
    var crew, points := CrewIds(inst), PointIds(c.nodes);
    forall id | id in crew
      ensures id in points
    {
      var n :| n in inst.all && n.id == id;
      var i :| 0 <= i < |c.nodes| && Members(c.nodes, index)[i] == n;
      assert c.nodes[i] in c.nodes && c.nodes[i].id == id;
    }
    forall id | id in points
      ensures id in crew
    {
      var i :| 0 <= i < |c.nodes| && c.nodes[i].id == id;
      assert Members(c.nodes, index)[i] in inst.all;
    }
    assert crew == points;
  }

  lemma {:induction false} InstanceAnswers(
      clusters: seq<Cluster>, points: seq<Point>, p: nat, n: nat, m: nat, k: nat,
      inst: PBFTInstance, leaderId: string, index: map<string, Node>, nodes: seq<Node>)
    requires Clustered(clusters, points) && Sized(points, p, n, m) && k < |clusters|
    requires Indexed(clusters[k].nodes, index) && Covers(inst, clusters[k], leaderId, FaultyThreshold(n), index)
    requires AllSettled(clusters[k], leaderId, index) && IndexOf(index, nodes) && AtHome(nodes) && !inst.useReputation
    ensures Answers(inst, FaultyThreshold(n)) && Staffs(inst, clusters[k])
  {
    SizedBounds(points, p, n, m);
    MembersAreNodes(clusters[k], index, nodes);
    assert inst.leader in inst.all;
    forall x | x in inst.all
      ensures KnowsItself(x) && x.view == 0
    {
      assert x in Members(clusters[k].nodes, index);
    }
    RebuiltAnswers(clusters, points, p, n, m, k, inst, leaderId, index);
    CoversStaffs(inst, clusters[k], leaderId, FaultyThreshold(n), index);
  }

  /** A settled node stands where its point says. */
  lemma {:induction false} SettledAtPoint(
      c: Cluster, leaderId: string, index: map<string, Node>, nodes: seq<Node>, i: nat, p: Point)
    requires Indexed(c.nodes, index) && AllSettled(c, leaderId, index) && IndexOf(index, nodes)
    requires DistinctNodes(nodes) && i < |nodes| && p in c.nodes && nodes[i].id == p.id
    ensures nodes[i].location == p
  {
    var j :| 0 <= j < |c.nodes| && c.nodes[j] == p;
    var n := Members(c.nodes, index)[j];
    assert Settled(n, p, c, leaderId, index);
    assert n in nodes;
    var x :| 0 <= x < |nodes| && nodes[x] == n;
    assert nodes[x].id == nodes[i].id;
  }

  ghost predicate AllSettledIn(
      clusters: seq<Cluster>, leaders: map<nat, Point>, index: map<string, Node>, nodes: seq<Node>)
    requires FullyIndexed(clusters, index) && HasLeaders(clusters, leaders) && IndexOf(index, nodes)
    reads nodes
  {
    forall k :: 0 <= k < |clusters| ==> SettledAt(clusters, leaders, index, nodes, k)
  }

  ghost predicate SettledAt(
      clusters: seq<Cluster>, leaders: map<nat, Point>, index: map<string, Node>, nodes: seq<Node>, k: nat)
    requires FullyIndexed(clusters, index) && HasLeaders(clusters, leaders) && IndexOf(index, nodes) && k < |clusters|
    reads nodes
  {
    MembersAreNodes(clusters[k], index, nodes);
    AllSettled(clusters[k], leaders[k].id, index)
  }

  /** After the rewiring every node object still stands at its point. */
  lemma {:induction false} StillAligned(net: Network, index: map<string, Node>, nodes: seq<Node>, i: nat)
    requires Coherent(net) && |net.points| >= 4 && HasLeaders(net.clusters, net.leaders)
    requires FullyIndexed(net.clusters, index) && IndexOf(index, nodes)
             && AllSettledIn(net.clusters, net.leaders, index, nodes)
    requires DistinctNodes(nodes) && |nodes| == |net.points| && i < |nodes| && nodes[i].id == net.points[i].id
    ensures nodes[i].location == net.points[i]
  {
    var p := net.points[i];
    assert p in multiset(net.points);
    var k := FlattenedSomewhere(net.clusters, p);
    assert SettledAt(net.clusters, net.leaders, index, nodes, k);
    SettledAtPoint(net.clusters[k], net.leaders[k].id, index, nodes, i, p);
  }

  // ---- The rewiring ----------------------------------------------------------------------

  ghost predicate WorksFor(inst: PBFTInstance, nodes: seq<Node>, c: Cluster, f: int)
    reads inst, nodes
  {
    (forall i :: 0 <= i < |inst.all| ==> inst.all[i] in nodes) && Answers(inst, f) && Staffs(inst, c)
  }

  ghost predicate AllWork(instances: seq<PBFTInstance>, nodes: seq<Node>, clusters: seq<Cluster>, f: int)
    reads instances, nodes
  {
    && |instances| == |clusters|
    && forall k :: 0 <= k < |clusters| ==> WorksFor(instances[k], nodes, clusters[k], f)
  }

  ghost predicate AllHaveObjects(clusters: seq<Cluster>, nodes: seq<Node>) {
    forall k, q :: 0 <= k < |clusters| && q in clusters[k].nodes ==> exists x :: x in nodes && x.id == q.id
  }

  lemma {:induction false} PointsHaveObjects(net: Network, nodes: seq<Node>)
    requires Coherent(net) && |net.points| >= 4 && AlignedWith(nodes, net.points)
    ensures AllHaveObjects(net.clusters, nodes)
  {
    forall k, q | 0 <= k < |net.clusters| && q in net.clusters[k].nodes
      ensures exists x :: x in nodes && x.id == q.id
    {
      MembersHaveObjects(net, nodes, k, q);
    }
  }

  lemma {:induction false} AlignedAreDistinct(points: seq<Point>, nodes: seq<Node>)
    requires Seeding.UniqueIds(points) && AlignedWith(nodes, points)
    ensures DistinctNodes(nodes)
  {}

  lemma {:induction false} DrawnFromNodes(
      inst: PBFTInstance, c: Cluster, leaderId: string, f: int, index: map<string, Node>, nodes: seq<Node>)
    requires Indexed(c.nodes, index) && Covers(inst, c, leaderId, f, index) && IndexOf(index, nodes)
    ensures forall i :: 0 <= i < |inst.all| ==> inst.all[i] in nodes
  {
    MembersAreNodes(c, index, nodes);
    forall i | 0 <= i < |inst.all|
      ensures inst.all[i] in nodes
    {
      assert inst.all[i] in Members(c.nodes, index);
    }
  }

  /** What RebuildInstances leaves behind, and what follows from it. */
  ghost predicate Rebuilt(
      net: Network, f: int, instances: seq<PBFTInstance>, index: map<string, Node>, nodes: seq<Node>)
    reads instances, nodes
  {
    && HasLeaders(net.clusters, net.leaders) && FullyIndexed(net.clusters, index) && IndexOf(index, nodes)
    && |instances| == |net.clusters|
    && forall k :: 0 <= k < |net.clusters| ==>
         && SettledAt(net.clusters, net.leaders, index, nodes, k) && !instances[k].useReputation
         && Covers(instances[k], net.clusters[k], net.leaders[k].id, f, index)
  }

  lemma {:induction false} RebuiltWorks(
      net: Network, p: nat, n: nat, m: nat, instances: seq<PBFTInstance>, index: map<string, Node>, nodes: seq<Node>)
    requires Clustered(net.clusters, net.points) && Sized(net.points, p, n, m) && AtHome(nodes)
    requires Rebuilt(net, FaultyThreshold(n), instances, index, nodes)
    ensures AllWork(instances, nodes, net.clusters, FaultyThreshold(n))
  {
    forall k | 0 <= k < |net.clusters|
      ensures WorksFor(instances[k], nodes, net.clusters[k], FaultyThreshold(n))
    {
      var c, leaderId := net.clusters[k], net.leaders[k].id;
      assert SettledAt(net.clusters, net.leaders, index, nodes, k);
      DrawnFromNodes(instances[k], c, leaderId, FaultyThreshold(n), index, nodes);
      InstanceAnswers(net.clusters, net.points, p, n, m, k, instances[k], leaderId, index, nodes);
    }
  }

  lemma {:induction false} RebuiltAligned(
      net: Network, f: int, instances: seq<PBFTInstance>, index: map<string, Node>, nodes: seq<Node>)
    requires Coherent(net) && |net.points| >= 4 && DistinctNodes(nodes) && |nodes| == |net.points|
    requires forall i :: 0 <= i < |nodes| ==> nodes[i].id == net.points[i].id
    requires Rebuilt(net, f, instances, index, nodes)
    ensures AlignedWith(nodes, net.points)
  {
    forall i | 0 <= i < |nodes|
      ensures nodes[i].location == net.points[i]
    {
      StillAligned(net, index, nodes, i);
    }
  }

  lemma {:induction false} SettledEverywhere(
      net: Network, index: map<string, Node>, nodes: seq<Node>, k: nat)
    requires HasLeaders(net.clusters, net.leaders) && FullyIndexed(net.clusters, index) && IndexOf(index, nodes)
    requires SettledBelow(net.clusters, net.leaders, index, |net.clusters|) && k < |net.clusters|
    ensures SettledAt(net.clusters, net.leaders, index, nodes, k)
  {
    assert ClusterSettled(net.clusters, net.leaders, index, k);
  }

  method RewireNetwork(net: Network, nodes: seq<Node>, fLocal: int, tuning: Tuning)
    returns (instances: seq<PBFTInstance>, ghost index: map<string, Node>)
    requires MembersDistinct(net.clusters) && HasLeaders(net.clusters, net.leaders)
             && AllHaveObjects(net.clusters, nodes)
    requires AtHome(nodes)
    modifies nodes`role, nodes`clusterIdx, nodes`location, nodes`knownKeys
    ensures Rebuilt(net, fLocal, instances, index, nodes) && AtHome(nodes)
    ensures forall k :: 0 <= k < |instances| ==> fresh(instances[k])
  {
    instances, index := RebuildInstances(net.clusters, net.leaders, nodes, fLocal, tuning);
    forall k | 0 <= k < |net.clusters|
      ensures SettledAt(net.clusters, net.leaders, index, nodes, k)
    {
      SettledEverywhere(net, index, nodes, k);
    }
  }

  // ---- The coordinator -------------------------------------------------------------------

  lemma {:induction false} NoNodeWorksTwice(
      instances: seq<PBFTInstance>, nodes: seq<Node>, clusters: seq<Cluster>, f: int, k: nat, l: nat, x: Node, y: Node)
    requires MembersDistinct(clusters) && AllWork(instances, nodes, clusters, f)
    requires k < |clusters| && l < |clusters| && k != l && x in instances[k].all && y in instances[l].all
    ensures x.id != y.id
  {
    assert WorksFor(instances[k], nodes, clusters[k], f) && WorksFor(instances[l], nodes, clusters[l], f);
    assert x.id in CrewIds(instances[k]) && y.id in CrewIds(instances[l]);
    var p :| p in clusters[k].nodes && p.id == x.id;
    var q :| q in clusters[l].nodes && q.id == y.id;
  }

  lemma {:induction false} WorkersAreSeparate(
      coord: GlobalCoordinator, nodes: seq<Node>, clusters: seq<Cluster>, f: int)
    requires MembersDistinct(clusters) && AllWork(coord.clusters, nodes, clusters, f)
    ensures coord.Separate()
    ensures forall k :: 0 <= k < |coord.clusters| ==> coord.clusters[k].Valid()
  {
    forall k, l, n | 0 <= k < |clusters| && 0 <= l < |clusters| && k != l && n in coord.clusters[k].all
      ensures n !in coord.clusters[l].all
    {
      if n in coord.clusters[l].all {
        NoNodeWorksTwice(coord.clusters, nodes, clusters, f, k, l, n, n);
      }
    }
    forall k | 0 <= k < |clusters|
      ensures coord.clusters[k].Valid() && coord.clusters[k].leader in coord.clusters[k].all
    {
      assert WorksFor(coord.clusters[k], nodes, clusters[k], f);
    }
  }

  lemma {:induction false} WorkersServe(coord: GlobalCoordinator, nodes: seq<Node>, clusters: seq<Cluster>, f: int)
    requires MembersDistinct(clusters) && AllWork(coord.clusters, nodes, clusters, f)
    ensures Serving(coord.Starts(), f)
  {
    var sites := coord.Starts();
    forall k | 0 <= k < |sites|
      ensures Linked(sites[k], f) && Enough(|sites[k].nodes|, f)
    {
      assert WorksFor(coord.clusters[k], nodes, clusters[k], f);
    }
    forall k, l, s, t | 0 <= k < l < |sites| && s in sites[k].nodes && t in sites[l].nodes
      ensures s.id != t.id
    {
      var i :| 0 <= i < |sites[k].nodes| && sites[k].nodes[i] == s;
      var j :| 0 <= j < |sites[l].nodes| && sites[l].nodes[j] == t;
      var x, y := coord.clusters[k].all[i], coord.clusters[l].all[j];
      assert x in coord.clusters[k].all && y in coord.clusters[l].all;
      NoNodeWorksTwice(coord.clusters, nodes, clusters, f, k, l, x, y);
    }
  }

  lemma {:induction false} MemberObject(inst: PBFTInstance, c: Cluster, p: Point)
    requires Staffs(inst, c) && p in c.nodes
    ensures p.id in Ids(States(inst.all))
  {
    assert p.id in CrewIds(inst);
    var n :| n in inst.all && n.id == p.id;
    var i :| 0 <= i < |inst.all| && inst.all[i] == n;
    assert States(inst.all)[i] in States(inst.all);
  }

  lemma {:induction false} EveryPointIsServed(
      coord: GlobalCoordinator, nodes: seq<Node>, net: Network, f: int, id: string)
    requires AllWork(coord.clusters, nodes, net.clusters, f) && id in PointIds(net.points)
    requires multiset(Flatten(net.clusters)) == multiset(net.points)
    ensures ServedAt(coord.Starts(), id)
  {
    var p :| p in net.points && p.id == id;
    assert p in multiset(net.points);
    var k := FlattenedSomewhere(net.clusters, p);
    assert Staffs(coord.clusters[k], net.clusters[k]) by {
      assert WorksFor(coord.clusters[k], nodes, net.clusters[k], f);
    }
    MemberObject(coord.clusters[k], net.clusters[k], p);
    assert coord.Starts()[k] == coord.SiteOf(coord.clusters[k]);
  }

  /** All instances draw their members from these nodes. */
  ghost predicate Within(instances: seq<PBFTInstance>, nodes: seq<Node>) {
    forall k, i :: 0 <= k < |instances| && 0 <= i < |instances[k].all| ==> instances[k].all[i] in nodes
  }

  lemma {:induction false} WorkersWithin(instances: seq<PBFTInstance>, nodes: seq<Node>, clusters: seq<Cluster>, f: int)
    requires AllWork(instances, nodes, clusters, f)
    ensures Within(instances, nodes)
  {
    forall k, i | 0 <= k < |instances| && 0 <= i < |instances[k].all|
      ensures instances[k].all[i] in nodes
    {
      assert WorksFor(instances[k], nodes, clusters[k], f);
    }
  }

  /** Everything a coordinator over a rewired network offers. */
  ghost predicate ReadyFor(coord: GlobalCoordinator, points: seq<Point>, f: int)
    reads coord.clusters, coord.Nodes()
  {
    && coord.Separate() && (forall k :: 0 <= k < |coord.clusters| ==> InstanceValid(coord, k))
    && Serving(coord.Starts(), f)
    && forall id :: id in PointIds(points) ==> ServedAt(coord.Starts(), id)
  }

  ghost predicate InstanceValid(coord: GlobalCoordinator, k: nat)
    requires k < |coord.clusters|
    reads coord.clusters
  {
    coord.clusters[k].Valid()
  }

  lemma {:induction false} WorkersAreReady(coord: GlobalCoordinator, nodes: seq<Node>, net: Network, f: int)
    requires Coherent(net) && |net.points| >= 4 && AllWork(coord.clusters, nodes, net.clusters, f)
    ensures ReadyFor(coord, net.points, f)
  {
    WorkersAreSeparate(coord, nodes, net.clusters, f);
    WorkersServe(coord, nodes, net.clusters, f);
    forall id | id in PointIds(net.points)
      ensures ServedAt(coord.Starts(), id)
    {
      EveryPointIsServed(coord, nodes, net, f, id);
    }
  }

  // ---- Tick, rewire, commit --------------------------------------------------------------

  /** The tick manager's invariant, with node objects that can serve in any cluster. */
  ghost predicate Live(tm: TickMode, p: nat, n: nat, m: nat)
    reads tm, tm.nodes
  {
    tm.Valid() && AtHome(tm.nodes) && Sized(tm.nodePoints, p, n, m)
  }

  lemma {:induction false} NetworksOnlyGrow(net: Network, t: Tick, max: nat, next: Network)
    requires Coherent(net) && WellFormed(t) && TickStep(net, t, max, next)
    ensures |net.points| <= |next.points|
  {
    MovingKeepsIds(net.points, t);
    AdmissionAddsNewIds(Moved(net.points, t.moved), FirstFew(t.newNodes, max));
  }

  /** Lines 149-156: the tick. */
  method TickLive(tm: TickMode, t: Tick, oracle: Oracle, ghost p: nat, ghost n: nat, ghost m: nat)
    requires Live(tm, p, n, m) && WellFormed(t) && FairOracle(oracle)
    modifies tm, tm.nodes`location
    ensures Live(tm, p, n, m) && Clustered(tm.currentClusters, tm.nodePoints)
    ensures TickStep(old(tm.Current()), t, tm.maxPerTick, tm.Current())
    ensures old(tm.nodes) <= tm.nodes && forall i :: |old(tm.nodes)| <= i < |tm.nodes| ==> fresh(tm.nodes[i])
  {
    ghost var before, objects := tm.Current(), tm.nodes;
    var _, _, _ := tm.ProcessTick(t, oracle);
    NetworksOnlyGrow(before, t, tm.maxPerTick, tm.Current());
    forall x | x in tm.nodes
      ensures KnowsItself(x) && x.view == 0
    {
      var i :| 0 <= i < |tm.nodes| && tm.nodes[i] == x;
      if i < |objects| {
        assert x == objects[i];
      }
    }
  }

  lemma {:induction false} BeforeRewiring(net: Network, nodes: seq<Node>, p: nat, n: nat, m: nat)
    requires Coherent(net) && AlignedWith(nodes, net.points) && Sized(net.points, p, n, m)
    ensures |net.points| >= 4 && DistinctNodes(nodes)
    ensures MembersDistinct(net.clusters) && HasLeaders(net.clusters, net.leaders)
            && AllHaveObjects(net.clusters, nodes)
  {
    SizedBounds(net.points, p, n, m);
    CoherentIsRebuildable(net);
    PointsHaveObjects(net, nodes);
    AlignedAreDistinct(net.points, nodes);
  }

  ghost predicate SameOrder(nodes: seq<Node>, points: seq<Point>) {
    |nodes| == |points| && forall i :: 0 <= i < |nodes| ==> nodes[i].id == points[i].id
  }

  lemma {:induction false} AfterRewiring(
      net: Network, p: nat, n: nat, m: nat, instances: seq<PBFTInstance>, index: map<string, Node>, nodes: seq<Node>)
    requires Coherent(net) && Clustered(net.clusters, net.points) && Sized(net.points, p, n, m) && AtHome(nodes)
    requires DistinctNodes(nodes) && SameOrder(nodes, net.points)
    requires Rebuilt(net, FaultyThreshold(n), instances, index, nodes)
    ensures AlignedWith(nodes, net.points) && AllWork(instances, nodes, net.clusters, FaultyThreshold(n))
  {
    SizedBounds(net.points, p, n, m);
    RebuiltAligned(net, FaultyThreshold(n), instances, index, nodes);
    RebuiltWorks(net, p, n, m, instances, index, nodes);
  }

  method Coordinate(
      instances: seq<PBFTInstance>, ghost nodes: seq<Node>, ghost net: Network, ghost f: int, fGlobal: int)
    returns (coord: GlobalCoordinator)
    requires Coherent(net) && |net.points| >= 4 && AllWork(instances, nodes, net.clusters, f)
    ensures coord.clusters == instances && coord.fGlobal == fGlobal && ReadyFor(coord, net.points, f)
  {
    coord := new GlobalCoordinator(instances, fGlobal);
    WorkersAreReady(coord, nodes, net, f);
  }

  method RewireOn(
      net: Network, nodes: seq<Node>, fLocal: int, fGlobal: int, tuning: Tuning, ghost p: nat, ghost n: nat,
      ghost m: nat)
    returns (coord: GlobalCoordinator)
    requires Coherent(net) && Clustered(net.clusters, net.points) && Sized(net.points, p, n, m)
    requires AlignedWith(nodes, net.points) && AtHome(nodes) && fLocal == FaultyThreshold(n)
    modifies nodes`role, nodes`clusterIdx, nodes`location, nodes`knownKeys
    ensures AlignedWith(nodes, net.points) && AtHome(nodes)
    ensures coord.fGlobal == fGlobal && ReadyFor(coord, net.points, fLocal)
    ensures Within(coord.clusters, nodes) && forall k :: 0 <= k < |coord.clusters| ==> fresh(coord.clusters[k])
  {
    BeforeRewiring(net, nodes, p, n, m);
    assert SameOrder(nodes, net.points);
    var instances, index := RewireNetwork(net, nodes, fLocal, tuning);
    AfterRewiring(net, p, n, m, instances, index, nodes);
    WorkersWithin(instances, nodes, net.clusters, fLocal);
    coord := Coordinate(instances, nodes, net, fLocal, fGlobal);
  }

  lemma {:induction false} ServedByThese(coord: GlobalCoordinator, nodes: seq<Node>)
    requires Within(coord.clusters, nodes)
    ensures forall x :: x in coord.Nodes() ==> x in nodes
  {
    forall x | x in coord.Nodes()
      ensures x in nodes
    {
      var k :| 0 <= k < |coord.clusters| && x in coord.clusters[k].all;
      var i :| 0 <= i < |coord.clusters[k].all| && coord.clusters[k].all[i] == x;
    }
  }

  /** Lines 158-162: the rewiring and the new coordinator. */
  method RewireLive(tm: TickMode, fLocal: int, fGlobal: int, tuning: Tuning, ghost p: nat, ghost n: nat, ghost m: nat)
    returns (coord: GlobalCoordinator)
    requires Live(tm, p, n, m) && Clustered(tm.currentClusters, tm.nodePoints) && fLocal == FaultyThreshold(n)
    modifies tm.nodes`role, tm.nodes`clusterIdx, tm.nodes`location, tm.nodes`knownKeys
    ensures Live(tm, p, n, m)
    ensures coord.fGlobal == fGlobal && ReadyFor(coord, tm.nodePoints, fLocal)
    ensures Within(coord.clusters, tm.nodes) && forall k :: 0 <= k < |coord.clusters| ==> fresh(coord.clusters[k])
  {
    var net := Network(tm.nodePoints, tm.currentClusters, tm.leaders);
    coord := RewireOn(net, tm.nodes, fLocal, fGlobal, tuning, p, n, m);
  }

  /**
   One tick of the live simulation. Whatever the vehicles did and whatever they executed before, the new
   coordinator's instances are separate and valid, every vehicle serves in one of them, and the network
   can tick again.
   */
  method TickAndRewire(
      tm: TickMode, t: Tick, oracle: Oracle, fLocal: int, fGlobal: int, tuning: Tuning,
      ghost p: nat, ghost n: nat, ghost m: nat)
    returns (coord: GlobalCoordinator)
    requires Live(tm, p, n, m) && WellFormed(t) && FairOracle(oracle) && fLocal == FaultyThreshold(n)
    modifies tm, tm.nodes
    ensures Live(tm, p, n, m) && TickStep(old(tm.Current()), t, tm.maxPerTick, tm.Current())
    ensures old(tm.nodes) <= tm.nodes && forall i :: |old(tm.nodes)| <= i < |tm.nodes| ==> fresh(tm.nodes[i])
    ensures coord.fGlobal == fGlobal && ReadyFor(coord, tm.nodePoints, fLocal)
    ensures Within(coord.clusters, tm.nodes) && forall k :: 0 <= k < |coord.clusters| ==> fresh(coord.clusters[k])
  {
    TickLive(tm, t, oracle, p, n, m);
    coord := RewireLive(tm, fLocal, fGlobal, tuning, p, n, m);
  }

  /** The verdict names every vehicle once. */
  ghost predicate AnsweredByEach(verdict: Verdict, points: seq<Point>) {
    && verdict.Succeeded? && NoRepeats(Sets.NodeIds(verdict.replies))
    && forall id :: id in PointIds(points) ==> id in Sets.NodeIds(verdict.replies)
  }

  lemma {:induction false} TransitionCommits(
      coord: GlobalCoordinator, points: seq<Point>, fLocal: int, calls: seq<Call>, order: seq<nat>)
    requires ReadyFor(coord, points, fLocal) && Seeding.UniqueIds(points) && 0 <= coord.fGlobal < |points|
    requires |calls| == |coord.clusters| && forall k :: 0 <= k < |calls| ==> Sets.Uncancelled(calls[k])
    requires ArrivalOrder(order, |coord.clusters|)
    ensures AnsweredByEach(Judge(InOrder(Outcomes(coord.Starts(), calls), order), coord.fGlobal), points)
  {
    Seeding.IdsOf(points);
    ServingNetworkCommits(coord.Starts(), calls, order, fLocal, coord.fGlobal, PointIds(points));
  }

  /** Any transition of a ready coordinator that nobody cancels commits with one reply from every vehicle. */
  method CommitOperation(
      coord: GlobalCoordinator, call: Call, order: seq<nat>, ghost points: seq<Point>, ghost fLocal: int)
    returns (verdict: Verdict)
    requires ReadyFor(coord, points, fLocal) && Seeding.UniqueIds(points) && 0 <= coord.fGlobal < |points|
    requires Sets.Uncancelled(call) && ArrivalOrder(order, |coord.clusters|)
    modifies coord.clusters, coord.Nodes()
    ensures AnsweredByEach(verdict, points)
  {
    var calls := seq(|coord.clusters|, _ => call);
    TransitionCommits(coord, points, fLocal, calls, order);
    assert forall k :: 0 <= k < |coord.clusters| ==> InstanceValid(coord, k);
    verdict := coord.RunGlobalTransition(order, calls);
  }

  /** A tick and its rewiring, as far as the next transition is concerned. */
  method PrepareTransition(
      tm: TickMode, t: Tick, oracle: Oracle, fLocal: int, fGlobal: int, tuning: Tuning,
      ghost p: nat, ghost n: nat, ghost m: nat)
    returns (coord: GlobalCoordinator)
    requires Live(tm, p, n, m) && WellFormed(t) && FairOracle(oracle)
    requires fLocal == FaultyThreshold(n) && fGlobal == FaultyThreshold(p)
    modifies tm, tm.nodes
    ensures tm.nodePoints == NextPoints(old(tm.nodePoints), t, tm.maxPerTick) && Seeding.UniqueIds(tm.nodePoints)
    ensures 0 <= coord.fGlobal < |tm.nodePoints| && ReadyFor(coord, tm.nodePoints, fLocal)
    ensures old(tm.nodes) <= tm.nodes && forall i :: |old(tm.nodes)| <= i < |tm.nodes| ==> fresh(tm.nodes[i])
    ensures forall k :: 0 <= k < |coord.clusters| ==> fresh(coord.clusters[k])
    ensures forall x :: x in coord.Nodes() ==> x in tm.nodes
  {
    coord := TickAndRewire(tm, t, oracle, fLocal, fGlobal, tuning, p, n, m);
    SizedBounds(tm.nodePoints, p, n, m);
    ServedByThese(coord, tm.nodes);
  }

  /**
   Tick, rewire, commit: from any live network, whatever happened in it before, the operation that
   follows a tick commits, with exactly one reply from each vehicle of the network after the tick.
   */
  method TickThenCommit(
      tm: TickMode, t: Tick, oracle: Oracle, call: Call, orders: nat -> seq<nat>, fLocal: int, fGlobal: int,
      tuning: Tuning,
      ghost p: nat, ghost n: nat, ghost m: nat)
    returns (verdict: Verdict)
    requires Live(tm, p, n, m) && WellFormed(t) && FairOracle(oracle) && Sets.Uncancelled(call)
    requires fLocal == FaultyThreshold(n) && fGlobal == FaultyThreshold(p)
    requires forall k: nat :: ArrivalOrder(orders(k), k)
    modifies tm, tm.nodes
    ensures tm.nodePoints == NextPoints(old(tm.nodePoints), t, tm.maxPerTick)
    ensures AnsweredByEach(verdict, tm.nodePoints)
  {
    var coord := PrepareTransition(tm, t, oracle, fLocal, fGlobal, tuning, p, n, m);
    verdict := CommitOperation(coord, call, orders(|coord.clusters|), tm.nodePoints, fLocal);
  }
}
