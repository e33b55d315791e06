/**
 A re-clustered network is ready to run: with f_local taken from its own dimensions, every rebuilt
 instance completes every round that nobody cancels.
 */
module RebuiltNetwork {
  import opened Prelude
  import opened Quorum
  import opened NodeModel
  import opened NodeObject
  import opened Round
  import opened Engine
  import opened PbftInstance
  import Sets = QuorumSets
  import opened Runs
  import opened LinkedRounds
  import opened Geometry
  import opened Dimensions
  import opened Seeding
  import opened Assignment
  import opened KMeans
  import opened Membership
  import opened Rebuild

  /** Exactly the instance's leader holds the leader role; everybody else is a replica. */
  lemma {:induction false} OneLeader(
      inst: PBFTInstance, c: Cluster, leaderId: string, fLocal: int, index: map<string, Node>)
    requires Indexed(c.nodes, index) && Covers(inst, c, leaderId, fLocal, index) && AllSettled(c, leaderId, index)
    ensures forall n :: n in inst.all ==> n.role == if n == inst.leader then Leader else Replica
    ensures forall n :: n in inst.all ==> n.clusterIdx == c.id && n.location in c.nodes && n.location.id == n.id
  {
    forall n | n in inst.all
      ensures n.role == if n == inst.leader then Leader else Replica
      ensures n.clusterIdx == c.id && n.location in c.nodes && n.location.id == n.id
    {
      var i :| 0 <= i < |c.nodes| && Members(c.nodes, index)[i] == n;
      assert Settled(n, c.nodes[i], c, leaderId, index);
      assert inst.leader == inst.all[0];
      var k :| 0 <= k < |inst.all| && inst.all[k] == n;
    }
  }

  ghost predicate AllCovered(
      instances: seq<PBFTInstance>, clusters: seq<Cluster>, leaders: map<nat, Point>, fLocal: int,
      index: map<string, Node>)
    requires FullyIndexed(clusters, index) && HasLeaders(clusters, leaders)
  {
    |instances| == |clusters| && CoveredBelow(instances, clusters, leaders, fLocal, index, |clusters|)
  }

  lemma {:induction false} ServesWhereClustered(
      instances: seq<PBFTInstance>, clusters: seq<Cluster>, leaders: map<nat, Point>, fLocal: int,
      index: map<string, Node>, allNodes: seq<Node>, n: Node, k: nat)
    requires FullyIndexed(clusters, index) && HasLeaders(clusters, leaders)
             && AllCovered(instances, clusters, leaders, fLocal, index)
    requires IndexOf(index, allNodes) && DistinctNodes(allNodes) && n in allNodes && k < |clusters|
    ensures n in instances[k].all <==> exists p :: p in clusters[k].nodes && p.id == n.id
  {
    var c := clusters[k];
    if n in instances[k].all {
      var i :| 0 <= i < |c.nodes| && Members(c.nodes, index)[i] == n;
      assert c.nodes[i] in c.nodes && c.nodes[i].id == n.id;
    }
    if p :| p in c.nodes && p.id == n.id {
      var i :| 0 <= i < |c.nodes| && c.nodes[i] == p;
      var found := Members(c.nodes, index)[i];
      assert found in allNodes && found.id == n.id;
      assert found in Members(c.nodes, index);
    }
  }

  /** The rebuilt instances partition the network: every node serves in exactly one of them. */
  lemma {:induction false} InstancesPartition(
      instances: seq<PBFTInstance>, clusters: seq<Cluster>, leaders: map<nat, Point>, fLocal: int,
      index: map<string, Node>, allNodes: seq<Node>, points: seq<Point>, n: Node) returns (k: nat)
    requires FullyIndexed(clusters, index) && HasLeaders(clusters, leaders)
             && AllCovered(instances, clusters, leaders, fLocal, index)
    requires IndexOf(index, allNodes) && DistinctNodes(allNodes) && n in allNodes
    requires MembersDistinct(clusters) && multiset(Flatten(clusters)) == multiset(points)
    requires exists p :: p in points && p.id == n.id
    ensures k < |instances| && n in instances[k].all
    ensures forall j :: 0 <= j < |instances| && n in instances[j].all ==> j == k
  {
    var p :| p in points && p.id == n.id;
    assert p in multiset(points);
    k := FlattenedSomewhere(clusters, p);
    ServesWhereClustered(instances, clusters, leaders, fLocal, index, allNodes, n, k);
    forall j | 0 <= j < |instances| && n in instances[j].all
      ensures j == k
    {
      ServesWhereClustered(instances, clusters, leaders, fLocal, index, allNodes, n, j);
    }
  }

  lemma {:induction false} PeersTrusted(
      inst: PBFTInstance, c: Cluster, leaderId: string, fLocal: int, index: map<string, Node>, i: nat, j: nat)
    requires Indexed(c.nodes, index) && Covers(inst, c, leaderId, fLocal, index) && AllSettled(c, leaderId, index)
    requires i < |inst.all| && j < |inst.all| && i != j
    ensures Trusts(inst.all[i].State(), inst.all[j].id, inst.all[j].pubKey)
  {
    var a, b := inst.all[i], inst.all[j];
    assert a in inst.all && b in inst.all;
    var x :| 0 <= x < |c.nodes| && Members(c.nodes, index)[x] == a;
    var y :| 0 <= y < |c.nodes| && Members(c.nodes, index)[y] == b;
    assert Settled(a, c.nodes[x], c, leaderId, index);
    assert c.nodes[y] in c.nodes;
    assert a.id != b.id;
  }

  /** Members of one view that hold their own keys form a fully linked cluster. */
  lemma {:induction false} RebuiltIsLinked(
      inst: PBFTInstance, c: Cluster, leaderId: string, fLocal: int, index: map<string, Node>)
    requires Indexed(c.nodes, index) && Covers(inst, c, leaderId, fLocal, index) && AllSettled(c, leaderId, index)
    requires forall n :: n in inst.all ==> KnowsItself(n) && n.view == inst.leader.view
    ensures FullyLinked(States(inst.all))
  {
    var s := States(inst.all);
    forall i, j | 0 <= i < |s| && 0 <= j < |s|
      ensures Trusts(s[i], s[j].id, s[j].pubKey)
    {
      if i == j {
        assert inst.all[i] in inst.all && KnowsItself(inst.all[i]);
      } else {
        PeersTrusted(inst, c, leaderId, fLocal, index, i, j);
      }
    }
    forall i | 0 <= i < |s|
      ensures s[i].view == s[0].view
    {
      assert inst.all[i] in inst.all && inst.all[0] == inst.leader;
    }
  }

  lemma {:induction false} LargerNetworkSuffices(
      clusters: seq<Cluster>, nodes: seq<Point>, p: nat, n: nat, m: nat, k: nat)
    requires Clustered(clusters, nodes) && |nodes| >= 4 && AreDimensions(p, n, m) && p <= |nodes| && k < |clusters|
    ensures Enough(|clusters[k].nodes|, FaultyThreshold(n))
  {
    var n' :| AreDimensions(|nodes|, n', |clusters|)
              && (|clusters| > 0 ==> IsAssignment(clusters, nodes, n') && Balanced(clusters, |nodes|, n'));
    DimensionsMonotone(p, n, m, |nodes|, n', |clusters|);
  }

  /**
   The fault bound of the dimensions of p nodes never asks for more than any cluster of a network has
   that has grown from m clusters of n nodes: the simulation computes f_local once and keeps it.
   */
  lemma {:induction false} SizeSuffices(clusters: seq<Cluster>, nodes: seq<Point>, p: nat, n: nat, m: nat, k: nat)
    requires Clustered(clusters, nodes) && |nodes| >= 4 && AreDimensions(p, n, m) && m * n <= |nodes| && k < |clusters|
    ensures Enough(|clusters[k].nodes|, FaultyThreshold(n))
  {
    DimensionsOfProduct(p, n, m);
    LargerNetworkSuffices(clusters, nodes, m * n, n, m, k);
  }

  /** What makes a rebuilt instance answer. */
  lemma {:induction false} RebuiltAnswers(
      clusters: seq<Cluster>, nodes: seq<Point>, p: nat, n: nat, m: nat, k: nat,
      inst: PBFTInstance, leaderId: string, index: map<string, Node>)
    requires Clustered(clusters, nodes) && |nodes| >= 4 && AreDimensions(p, n, m) && m * n <= |nodes| && k < |clusters|
    requires Indexed(clusters[k].nodes, index) && Covers(inst, clusters[k], leaderId, FaultyThreshold(n), index)
    requires AllSettled(clusters[k], leaderId, index)
    requires forall x :: x in inst.all ==> KnowsItself(x) && x.view == inst.leader.view
    ensures FullyLinked(States(inst.all)) && inst.all[0].role == Leader && Enough(|inst.all|, inst.fLocal)
  {
    OneLeader(inst, clusters[k], leaderId, FaultyThreshold(n), index);
    RebuiltIsLinked(inst, clusters[k], leaderId, FaultyThreshold(n), index);
    SizeSuffices(clusters, nodes, p, n, m, k);
    assert inst.leader in inst.all;
  }

  /**
   After a tick and the rewiring that follows it, a round on any of the instances is answered by every
   member exactly when it is not cancelled, whatever its nodes tallied and executed under earlier
   leaders. Each member's log grows by the operation, except at a member that has already executed the
   number the new leader's counter comes to: it acknowledges the operation without logging it.
   */
  lemma {:induction false} RebuiltRoundSucceeds(
      clusters: seq<Cluster>, nodes: seq<Point>, p: nat, n: nat, m: nat, k: nat,
      inst: PBFTInstance, leaderId: string, index: map<string, Node>, call: Call)
    requires Clustered(clusters, nodes) && |nodes| >= 4 && AreDimensions(p, n, m) && m * n <= |nodes| && k < |clusters|
    requires Indexed(clusters[k].nodes, index) && Covers(inst, clusters[k], leaderId, FaultyThreshold(n), index)
    requires AllSettled(clusters[k], leaderId, index)
    requires forall x :: x in inst.all ==> KnowsItself(x) && x.view == inst.leader.view
    ensures var c, rule := States(inst.all), Counting(inst.fLocal);
            && (RunRound(c, call, rule).progress.outcome.Replies? <==> Sets.Uncancelled(call))
            && (Sets.Uncancelled(call) ==> AnsweredByAll(c, RunRound(c, call, rule).progress.outcome))
            && (Sets.Uncancelled(call) ==>
                  forall i :: 0 <= i < |c| ==>
                    RunRound(c, call, rule).nodes[i].log ==
                    c[i].log + (if c[0].seqId + 1 in c[i].executed then [] else [call.operation]))
  {
    var c := States(inst.all);
    RebuiltAnswers(clusters, nodes, p, n, m, k, inst, leaderId, index);
    LinkedRoundSucceedsIff(c, call, inst.fLocal);
    if Sets.Uncancelled(call) {
      LinkedRoundAnswered(c, call, inst.fLocal);
      forall i | 0 <= i < |c|
        ensures RunRound(c, call, Counting(inst.fLocal)).nodes[i].log ==
                c[i].log + (if c[0].seqId + 1 in c[i].executed then [] else [call.operation])
      {
        LinkedRoundLogs(c, call, inst.fLocal, i);
      }
    }
  }
}
