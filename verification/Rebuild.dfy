/** Instances rewired after re-clustering (tick_rate/simulation.go:277-323). */
module Rebuild {
  import opened Prelude
  import opened Messages
  import opened Quorum
  import opened NodeModel
  import opened NodeObject
  import opened Epochs
  import opened Engine
  import opened PbftInstance
  import opened Geometry
  import opened Seeding
  import opened Election
  import opened Membership

  // ---- Keys ------------------------------------------------------------------------------

  /** What a node's key table becomes when it is told the keys of its cluster. */
  function Learned(known: map<string, Option<Key>>, self: string, peers: seq<Node>): map<string, Option<Key>> {
    if peers == [] then known
    else
      var last := peers[|peers| - 1];
      var before := Learned(known, self, peers[..|peers| - 1]);
      if last.id != self then before[last.id := Some(last.pubKey)] else before
  }

  lemma {:induction false} LearnedPeer(known: map<string, Option<Key>>, self: string, peers: seq<Node>, j: nat)
    requires DistinctNodes(peers) && j < |peers| && peers[j].id != self
    ensures peers[j].id in Learned(known, self, peers)
            && Learned(known, self, peers)[peers[j].id] == Some(peers[j].pubKey)
  {
    if j < |peers| - 1 {
      LearnedPeer(known, self, peers[..|peers| - 1], j);
    }
  }

  lemma {:induction false} LearnedLeavesOthers(
      known: map<string, Option<Key>>, self: string, peers: seq<Node>, id: string)
    requires id == self || forall j :: 0 <= j < |peers| ==> peers[j].id != id
    ensures id in Learned(known, self, peers) <==> id in known
    ensures id in known ==> Learned(known, self, peers)[id] == known[id]
  {
    if peers != [] {
      LearnedLeavesOthers(known, self, peers[..|peers| - 1], id);
    }
  }

  method LearnPeers(a: Node, peers: seq<Node>)
    modifies a`knownKeys
    ensures a.knownKeys == Learned(old(a.knownKeys), a.id, peers)
  {
    for j := 0 to |peers|
      invariant a.knownKeys == Learned(old(a.knownKeys), a.id, peers[..j])
    {
      assert peers[..j + 1][..j] == peers[..j];
      if a.id != peers[j].id {
        a.knownKeys := a.knownKeys[peers[j].id := Some(peers[j].pubKey)];
      }
    }
    assert peers[..|peers|] == peers;
  }

  /** Lines 308-315: everyone in the cluster learns everyone else's key. */
  method WireKeys(all: seq<Node>)
    requires DistinctNodes(all)
    modifies all`knownKeys
    ensures forall i :: 0 <= i < |all| ==> all[i].knownKeys == Learned(old(all[i].knownKeys), all[i].id, all)
  {
    for i := 0 to |all|
      invariant forall k :: 0 <= k < i ==> all[k].knownKeys == Learned(old(all[k].knownKeys), all[k].id, all)
      invariant forall k :: i <= k < |all| ==> all[k].knownKeys == old(all[k].knownKeys)
    {
      assert forall k :: 0 <= k < |all| && k != i ==> all[k] != all[i];
      LearnPeers(all[i], all);
    }
  }

  /** NewNode registers a node's own key, so that it can verify its own messages. */
  ghost predicate KnowsItself(n: Node)
    reads n`knownKeys
  {
    Holds(n, n.id, n.pubKey)
  }

  ghost predicate Holds(n: Node, id: string, key: Key)
    reads n`knownKeys
  {
    id in n.knownKeys && n.knownKeys[id] == Some(key)
  }

  ghost predicate MutuallyKnown(all: seq<Node>)
    reads all`knownKeys
  {
    forall i, j :: 0 <= i < |all| && 0 <= j < |all| && i != j ==> Holds(all[i], all[j].id, all[j].pubKey)
  }

  method WireCluster(all: seq<Node>)
    requires DistinctNodes(all)
    modifies all`knownKeys
    ensures MutuallyKnown(all)
    ensures forall n :: n in all && old(KnowsItself(n)) ==> KnowsItself(n)
  {
    WireKeys(all);
    forall i, j | 0 <= i < |all| && 0 <= j < |all| && i != j
      ensures Holds(all[i], all[j].id, all[j].pubKey)
    {
      LearnedPeer(old(all[i].knownKeys), all[i].id, all, j);
    }
    forall i | 0 <= i < |all| && old(KnowsItself(all[i]))
      ensures KnowsItself(all[i])
    {
      LearnedLeavesOthers(old(all[i].knownKeys), all[i].id, all, all[i].id);
    }
  }

  // ---- One cluster -----------------------------------------------------------------------

  /** Lines 282-285. */
  method IndexNodes(allNodes: seq<Node>) returns (index: map<string, Node>)
    ensures forall id :: id in index ==> index[id] in allNodes && index[id].id == id
    ensures forall n :: n in allNodes ==> n.id in index
  {
    index := map[];
    for i := 0 to |allNodes|
      invariant forall id :: id in index ==> index[id] in allNodes && index[id].id == id
      invariant forall k :: 0 <= k < i ==> allNodes[k].id in index
    {
      index := index[allNodes[i].id := allNodes[i]];
    }
  }

  ghost predicate Indexed(points: seq<Point>, index: map<string, Node>) {
    forall i :: 0 <= i < |points| ==> points[i].id in index && index[points[i].id].id == points[i].id
  }

  function Members(points: seq<Point>, index: map<string, Node>): (r: seq<Node>)
    requires forall i :: 0 <= i < |points| ==> points[i].id in index
    ensures |r| == |points| && forall i :: 0 <= i < |points| ==> r[i] == index[points[i].id]
  {
    seq(|points|, i requires 0 <= i < |points| => index[points[i].id])
  }

  ghost predicate Placed(n: Node, p: Point, clusterId: int, leaderId: string)
    reads n`location, n`clusterIdx, n`role
  {
    && n.id == p.id && n.location == p && n.clusterIdx == clusterId
    && n.role == if p.id == leaderId then Leader else Replica
  }

  method PlaceOne(node: Node, p: Point, clusterId: int, leaderId: string)
    requires node.id == p.id
    modifies node`role, node`clusterIdx, node`location
    ensures Placed(node, p, clusterId, leaderId)
  {
    node.clusterIdx := clusterId;
    node.location := p;
    node.role := if p.id == leaderId then Leader else Replica;
  }

  /** Lines 292-305: roles, positions and cluster index of one cluster's nodes. */
  method PlaceMembers(c: Cluster, leaderId: string, index: map<string, Node>)
    returns (leader: Node?, replicas: seq<Node>, ghost l: nat)
    requires Indexed(c.nodes, index) && UniqueIds(c.nodes)
    requires exists i :: 0 <= i < |c.nodes| && c.nodes[i].id == leaderId
    modifies Members(c.nodes, index)`role, Members(c.nodes, index)`clusterIdx, Members(c.nodes, index)`location
    ensures forall i :: 0 <= i < |c.nodes| ==> Placed(index[c.nodes[i].id], c.nodes[i], c.id, leaderId)
    ensures l < |c.nodes| && c.nodes[l].id == leaderId
    ensures leader == index[leaderId] && replicas == RemoveAt(Members(c.nodes, index), l)
  {
    ghost var members := Members(c.nodes, index);
    leader, replicas := null, [];
    ghost var found := -1;
    for i := 0 to |c.nodes|
      invariant forall k :: 0 <= k < i ==> Placed(members[k], c.nodes[k], c.id, leaderId)
      invariant -1 <= found < i
      invariant found == -1 ==> (forall k :: 0 <= k < i ==> c.nodes[k].id != leaderId) && replicas == members[..i]
      invariant found >= 0 ==>
                c.nodes[found].id == leaderId && leader == members[found]
                  && replicas == members[..found] + members[found + 1..i]
    {
      var node := index[c.nodes[i].id];
      assert node == members[i] && forall k :: 0 <= k < |members| && k != i ==> members[k] != node;
      PlaceOne(node, c.nodes[i], c.id, leaderId);
      if c.nodes[i].id == leaderId {
        leader := node;
        found := i;
      } else {
        replicas := replicas + [node];
      }
    }
    l := found;
  }

  /** Node n holds the keys of everyone else in cluster c. */
  ghost predicate KeysHeld(n: Node, c: Cluster, index: map<string, Node>)
    reads n`knownKeys
  {
    forall q :: q in c.nodes && q.id != n.id ==> q.id in index && Holds(n, q.id, index[q.id].pubKey)
  }

  /** Node n sits at p in cluster c, with its role there and the keys of all its peers. */
  ghost predicate Settled(n: Node, p: Point, c: Cluster, leaderId: string, index: map<string, Node>)
    reads n`location, n`clusterIdx, n`role, n`knownKeys
  {
    Placed(n, p, c.id, leaderId) && KeysHeld(n, c, index)
  }

  ghost predicate AllSettled(c: Cluster, leaderId: string, index: map<string, Node>)
    requires Indexed(c.nodes, index)
    reads Members(c.nodes, index)
  {
    forall i :: 0 <= i < |c.nodes| ==> Settled(Members(c.nodes, index)[i], c.nodes[i], c, leaderId, index)
  }

  /** The instance has the leader and consists of exactly the node objects of the cluster, once each. */
  ghost predicate Covers(inst: PBFTInstance, c: Cluster, leaderId: string, fLocal: int, index: map<string, Node>)
    requires Indexed(c.nodes, index)
  {
    && inst.fLocal == fLocal && inst.leader.id == leaderId
    && |inst.all| == |c.nodes| && DistinctNodes(inst.all)
    && (forall n :: n in inst.all ==> n in Members(c.nodes, index))
    && forall n :: n in Members(c.nodes, index) ==> n in inst.all
  }

  /** The leader moved to the front: the same nodes, still distinct. */
  lemma {:induction false} LeaderFirst(members: seq<Node>, l: nat)
    requires DistinctNodes(members) && l < |members|
    ensures var all := [members[l]] + RemoveAt(members, l);
            |all| == |members| && DistinctNodes(all) && forall n :: n in all <==> n in members
  {
    var rest := RemoveAt(members, l);
    assert members == members[..l] + [members[l]] + members[l + 1..];
    forall i | 0 <= i < |rest|
      ensures rest[i] == members[if i < l then i else i + 1]
    {}
  }

  /** Lines 287-307: the nodes of a cluster, placed, with the leader in front. */
  method ArrangeCluster(c: Cluster, leaderId: string, index: map<string, Node>)
    returns (leader: Node, replicas: seq<Node>)
    requires Indexed(c.nodes, index) && UniqueIds(c.nodes)
    requires exists i :: 0 <= i < |c.nodes| && c.nodes[i].id == leaderId
    modifies Members(c.nodes, index)`role, Members(c.nodes, index)`clusterIdx, Members(c.nodes, index)`location
    ensures leader.id == leaderId && DistinctNodes([leader] + replicas) && |[leader] + replicas| == |c.nodes|
    ensures forall i :: 0 <= i < |c.nodes| ==> Placed(Members(c.nodes, index)[i], c.nodes[i], c.id, leaderId)
    ensures forall n :: n in [leader] + replicas <==> n in Members(c.nodes, index)
  {
    var found, others, l := PlaceMembers(c, leaderId, index);
    leader, replicas := found, others;
    LeaderFirst(Members(c.nodes, index), l);
  }

  /** Lines 308-315 for the arranged nodes of a cluster. */
  method WireMembers(c: Cluster, index: map<string, Node>, all: seq<Node>)
    requires Indexed(c.nodes, index) && DistinctNodes(all)
    requires forall n :: n in all <==> n in Members(c.nodes, index)
    modifies Members(c.nodes, index)`knownKeys
    ensures forall i :: 0 <= i < |c.nodes| ==> KeysHeld(Members(c.nodes, index)[i], c, index)
    ensures forall n :: n in Members(c.nodes, index) && old(KnowsItself(n)) ==> KnowsItself(n)
  {
    assert forall k :: 0 <= k < |all| ==> all[k] in Members(c.nodes, index);
    WireCluster(all);
    forall i, q | 0 <= i < |c.nodes| && q in c.nodes && q.id != Members(c.nodes, index)[i].id
      ensures q.id in index && Holds(Members(c.nodes, index)[i], q.id, index[q.id].pubKey)
    {
      var j :| 0 <= j < |c.nodes| && c.nodes[j] == q;
      var a, b := Members(c.nodes, index)[i], Members(c.nodes, index)[j];
      assert a in all && b in all;
      var x :| 0 <= x < |all| && all[x] == a;
      var y :| 0 <= y < |all| && all[y] == b;
    }
  }

  /** The whole iteration for one cluster, short of constructing the instance. */
  method SettleCluster(c: Cluster, leaderId: string, index: map<string, Node>)
    returns (leader: Node, replicas: seq<Node>)
    requires Indexed(c.nodes, index) && UniqueIds(c.nodes)
    requires exists i :: 0 <= i < |c.nodes| && c.nodes[i].id == leaderId
    modifies Members(c.nodes, index)`role, Members(c.nodes, index)`clusterIdx,
             Members(c.nodes, index)`location, Members(c.nodes, index)`knownKeys
    ensures leader.id == leaderId && DistinctNodes([leader] + replicas) && |[leader] + replicas| == |c.nodes|
    ensures forall n :: n in [leader] + replicas <==> n in Members(c.nodes, index)
    ensures AllSettled(c, leaderId, index)
    ensures forall n :: n in Members(c.nodes, index) && old(KnowsItself(n)) ==> KnowsItself(n)
  {
    leader, replicas := ArrangeCluster(c, leaderId, index);
    WireMembers(c, index, [leader] + replicas);
  }

  method BuildInstance(c: Cluster, leaderId: string, index: map<string, Node>, fLocal: int, tuning: Tuning)
    returns (inst: PBFTInstance)
    requires Indexed(c.nodes, index) && UniqueIds(c.nodes)
    requires exists i :: 0 <= i < |c.nodes| && c.nodes[i].id == leaderId
    modifies Members(c.nodes, index)`role, Members(c.nodes, index)`clusterIdx,
             Members(c.nodes, index)`location, Members(c.nodes, index)`knownKeys
    ensures fresh(inst) && Covers(inst, c, leaderId, fLocal, index) && !inst.useReputation
    ensures AllSettled(c, leaderId, index)
    ensures forall n :: n in Members(c.nodes, index) && old(KnowsItself(n)) ==> KnowsItself(n)
  {
    var leader, replicas := SettleCluster(c, leaderId, index);
    inst := new PBFTInstance(leader, replicas, fLocal, map[], tuning);
    assert inst.all == [leader] + replicas;
  }

  // ---- All clusters ----------------------------------------------------------------------

  /** Every clustered point has its node object. */
  ghost predicate FullyIndexed(clusters: seq<Cluster>, index: map<string, Node>) {
    forall k :: 0 <= k < |clusters| ==> Indexed(clusters[k].nodes, index)
  }

  ghost predicate HasLeaders(clusters: seq<Cluster>, leaders: map<nat, Point>) {
    forall k :: 0 <= k < |clusters| ==> k in leaders && leaders[k] in clusters[k].nodes
  }

  lemma {:induction false} OtherMembers(clusters: seq<Cluster>, index: map<string, Node>, j: nat, k: nat)
    requires MembersDistinct(clusters) && FullyIndexed(clusters, index) && j < |clusters| && k < |clusters| && j != k
    ensures forall x, y :: 0 <= x < |clusters[j].nodes| && 0 <= y < |clusters[k].nodes| ==>
              Members(clusters[j].nodes, index)[x] != Members(clusters[k].nodes, index)[y]
  {
    forall x, y | 0 <= x < |clusters[j].nodes| && 0 <= y < |clusters[k].nodes|
      ensures Members(clusters[j].nodes, index)[x] != Members(clusters[k].nodes, index)[y]
    {
      assert clusters[j].nodes[x] in clusters[j].nodes && clusters[k].nodes[y] in clusters[k].nodes;
    }
  }

  /** The first m clusters are settled. */
  ghost predicate SettledBelow(clusters: seq<Cluster>, leaders: map<nat, Point>, index: map<string, Node>, m: nat)
    requires FullyIndexed(clusters, index) && HasLeaders(clusters, leaders) && m <= |clusters|
    reads index.Values
  {
    forall j :: 0 <= j < m ==> ClusterSettled(clusters, leaders, index, j)
  }

  ghost predicate ClusterSettled(clusters: seq<Cluster>, leaders: map<nat, Point>, index: map<string, Node>, j: nat)
    requires FullyIndexed(clusters, index) && HasLeaders(clusters, leaders) && j < |clusters|
    reads index.Values
  {
    assert forall i :: 0 <= i < |clusters[j].nodes| ==> Members(clusters[j].nodes, index)[i] in index.Values;
    AllSettled(clusters[j], leaders[j].id, index)
  }

  /** One iteration: cluster k is built, and nobody else's node is touched. */
  method BuildNext(
      clusters: seq<Cluster>, leaders: map<nat, Point>, index: map<string, Node>, k: nat, fLocal: int, tuning: Tuning)
    returns (inst: PBFTInstance)
    requires MembersDistinct(clusters) && FullyIndexed(clusters, index) && HasLeaders(clusters, leaders)
             && k < |clusters|
    requires SettledBelow(clusters, leaders, index, k)
    modifies Members(clusters[k].nodes, index)`role, Members(clusters[k].nodes, index)`clusterIdx,
             Members(clusters[k].nodes, index)`location, Members(clusters[k].nodes, index)`knownKeys
    ensures Covers(inst, clusters[k], leaders[k].id, fLocal, index)
    ensures fresh(inst) && !inst.useReputation
    ensures SettledBelow(clusters, leaders, index, k + 1)
    ensures forall n :: n in Members(clusters[k].nodes, index) && old(KnowsItself(n)) ==> KnowsItself(n)
  {
    var leaderId := leaders[k].id;
    assert exists i :: 0 <= i < |clusters[k].nodes| && clusters[k].nodes[i].id == leaderId by {
      assert leaders[k] in clusters[k].nodes;
    }
    inst := BuildInstance(clusters[k], leaderId, index, fLocal, tuning);
    forall j | 0 <= j < k
      ensures ClusterSettled(clusters, leaders, index, j)
    {
      OtherMembers(clusters, index, j, k);
      assert old(ClusterSettled(clusters, leaders, index, j));
    }
  }

  /** The index draws only on `allNodes`. */
  ghost predicate IndexOf(index: map<string, Node>, allNodes: seq<Node>) {
    forall id :: id in index ==> index[id] in allNodes && index[id].id == id
  }

  lemma {:induction false} MembersAreNodes(c: Cluster, index: map<string, Node>, allNodes: seq<Node>)
    requires Indexed(c.nodes, index) && IndexOf(index, allNodes)
    ensures forall i :: 0 <= i < |c.nodes| ==> Members(c.nodes, index)[i] in allNodes
  {}

  /** The first m instances are those of the first m clusters. */
  ghost predicate CoveredBelow(
      instances: seq<PBFTInstance>, clusters: seq<Cluster>, leaders: map<nat, Point>, fLocal: int,
      index: map<string, Node>, m: nat)
    requires FullyIndexed(clusters, index) && HasLeaders(clusters, leaders) && m <= |clusters| && m <= |instances|
  {
    forall j :: 0 <= j < m ==> Covers(instances[j], clusters[j], leaders[j].id, fLocal, index)
  }

  lemma {:induction false} OneMoreCovered(
      instances: seq<PBFTInstance>, inst: PBFTInstance, clusters: seq<Cluster>, leaders: map<nat, Point>, fLocal: int,
      index: map<string, Node>)
    requires FullyIndexed(clusters, index) && HasLeaders(clusters, leaders) && |instances| < |clusters|
    requires CoveredBelow(instances, clusters, leaders, fLocal, index, |instances|)
    requires Covers(inst, clusters[|instances|], leaders[|instances|].id, fLocal, index)
    ensures CoveredBelow(instances + [inst], clusters, leaders, fLocal, index, |instances| + 1)
  {}

  /** Lines 287-320, cluster by cluster. */
  method BuildAll(
      clusters: seq<Cluster>, leaders: map<nat, Point>, index: map<string, Node>, fLocal: int, tuning: Tuning,
      ghost allNodes: seq<Node>)
    returns (instances: seq<PBFTInstance>)
    requires MembersDistinct(clusters) && FullyIndexed(clusters, index) && HasLeaders(clusters, leaders)
             && IndexOf(index, allNodes)
    modifies allNodes`role, allNodes`clusterIdx, allNodes`location, allNodes`knownKeys
    ensures |instances| == |clusters|
    ensures CoveredBelow(instances, clusters, leaders, fLocal, index, |clusters|)
    ensures SettledBelow(clusters, leaders, index, |clusters|)
    ensures forall k :: 0 <= k < |clusters| ==> fresh(instances[k]) && !instances[k].useReputation
    ensures forall n :: n in allNodes && old(KnowsItself(n)) ==> KnowsItself(n)
  {
    instances := [];
    for k := 0 to |clusters|
      invariant |instances| == k
      invariant CoveredBelow(instances, clusters, leaders, fLocal, index, k)
      invariant SettledBelow(clusters, leaders, index, k)
      invariant forall j :: 0 <= j < k ==> fresh(instances[j]) && !instances[j].useReputation
      invariant forall n :: n in allNodes && old(KnowsItself(n)) ==> KnowsItself(n)
    {
      MembersAreNodes(clusters[k], index, allNodes);
      var inst := BuildNext(clusters, leaders, index, k, fLocal, tuning);
      OneMoreCovered(instances, inst, clusters, leaders, fLocal, index);
      instances := instances + [inst];
    }
  }

  /**
   One instance per cluster. Each consists of exactly its cluster's node objects, all nodes are
   settled where they belong, and no node loses its own key.
   */
  method RebuildInstances(
      clusters: seq<Cluster>, leaders: map<nat, Point>, allNodes: seq<Node>, fLocal: int, tuning: Tuning)
    returns (instances: seq<PBFTInstance>, ghost index: map<string, Node>)
    requires MembersDistinct(clusters) && HasLeaders(clusters, leaders)
    requires forall k, p :: 0 <= k < |clusters| && p in clusters[k].nodes ==> exists n :: n in allNodes && n.id == p.id
    modifies allNodes`role, allNodes`clusterIdx, allNodes`location, allNodes`knownKeys
    ensures FullyIndexed(clusters, index) && IndexOf(index, allNodes) && |instances| == |clusters|
    ensures forall k :: 0 <= k < |clusters| ==> Covers(instances[k], clusters[k], leaders[k].id, fLocal, index)
    ensures SettledBelow(clusters, leaders, index, |clusters|)
    ensures forall k :: 0 <= k < |clusters| ==> fresh(instances[k]) && !instances[k].useReputation
    ensures forall n :: n in allNodes && old(KnowsItself(n)) ==> KnowsItself(n)
  {
    var byId := IndexNodes(allNodes);
    forall k, i | 0 <= k < |clusters| && 0 <= i < |clusters[k].nodes|
      ensures clusters[k].nodes[i].id in byId
    {
      assert clusters[k].nodes[i] in clusters[k].nodes;
    }
    index := byId;
    instances := BuildAll(clusters, leaders, byId, fLocal, tuning, allNodes);
  }
}
