/** The dynamic clustering manager (dynamic/clustering.go:60-268) as a mutable object. */
module TickManager {
  import opened Prelude
  import opened Messages
  import opened NodeModel
  import opened NodeObject
  import opened Geometry
  import opened Seeding
  import opened Assignment
  import opened Election
  import opened KMeans
  import opened ServiceQueue
  import opened TickStates

  /** The oracle of one tick: its random source and the keys generated for newcomers. */
  datatype Oracle = Oracle(intn: nat -> nat, draws: (nat, real) -> real, keys: string -> Key)

  ghost predicate FairOracle(o: Oracle) {
    Fair(o.draws) && forall k: nat :: k > 0 ==> o.intn(k) < k
  }

  function ForwardSteps(order: seq<nat>): (r: seq<Step>)
    ensures |r| == |order|
  {
    seq(|order|, i requires 0 <= i < |order| => Forward(order[i]))
  }

  /** `queue` is what forwarding `snapshot` cluster by cluster, in that order, leaves behind. */
  ghost predicate ForwardedIn(snapshot: Queue, order: seq<nat>, ctx: Context, queue: Queue) {
    && ValidRun(Snapped(snapshot), ForwardSteps(order), ctx)
    && Run(Snapped(snapshot), ForwardSteps(order), ctx) == QueueState(queue, map[], true)
  }

  /** The queued blocks of the old clusters that cluster j inherits, in the order of their forwarding. */
  ghost function Blocks(snapshot: Queue, order: seq<nat>, ctx: Context, j: nat): seq<string> {
    if order == [] then []
    else
      var k := order[|order| - 1];
      Blocks(snapshot, order[..|order| - 1], ctx, j) + (if Inherits(ctx, k, j) then OpsOf(snapshot, k) else [])
  }

  /**
   Every old queue is taken up once, and each whole queue is then found, in its old order, under the
   cluster whose centroid is nearest to its old leader.
   */
  ghost predicate Rehomed(snapshot: Queue, order: seq<nat>, ctx: Context, queue: Queue) {
    && NoRepeats(order) && (forall k :: k in order <==> k in snapshot)
    && forall j: nat :: OpsOf(queue, j) == Blocks(snapshot, order, ctx, j)
  }

  lemma {:induction false} BlocksArrive(snapshot: Queue, order: seq<nat>, ctx: Context, j: nat)
    ensures Arrivals(snapshot, ForwardSteps(order), ctx, j) == Blocks(snapshot, order, ctx, j)
  {
    if order != [] {
      var n := |order| - 1;
      BlocksArrive(snapshot, order[..n], ctx, j);
      assert ForwardSteps(order)[..n] == ForwardSteps(order[..n]);
    }
  }

  /** What is still pending is what has not been forwarded, and nothing is forwarded twice. */
  lemma {:induction false} ForwardedOnce(snapshot: Queue, order: seq<nat>, ctx: Context)
    requires ValidRun(Snapped(snapshot), ForwardSteps(order), ctx)
    ensures NoRepeats(order)
    ensures forall k :: k in Run(Snapped(snapshot), ForwardSteps(order), ctx).pending <==> k in snapshot && k !in order
    ensures forall k :: k in order ==> k in snapshot
  {
    if order != [] {
      var n := |order| - 1;
      assert ForwardSteps(order)[..n] == ForwardSteps(order[..n]);
      ForwardedOnce(snapshot, order[..n], ctx);
      assert order == order[..n] + [order[n]];
    }
  }

  lemma {:induction false} ForwardingRehomes(snapshot: Queue, order: seq<nat>, ctx: Context, queue: Queue)
    requires ForwardedIn(snapshot, order, ctx, queue)
    ensures Rehomed(snapshot, order, ctx, queue)
  {
    ForwardedOnce(snapshot, order, ctx);
    forall j: nat
      ensures OpsOf(queue, j) == Blocks(snapshot, order, ctx, j)
    {
      QueueIsArrivals(snapshot, ForwardSteps(order), ctx, j);
      BlocksArrive(snapshot, order, ctx, j);
    }
  }

  lemma {:induction false} OneMoreForward(snapshot: Queue, order: seq<nat>, k: nat, ctx: Context)
    requires ValidRun(Snapped(snapshot), ForwardSteps(order), ctx)
    requires Run(Snapped(snapshot), ForwardSteps(order), ctx).snapped
             && k in Run(Snapped(snapshot), ForwardSteps(order), ctx).pending
    ensures ValidRun(Snapped(snapshot), ForwardSteps(order + [k]), ctx)
    ensures Run(Snapped(snapshot), ForwardSteps(order + [k]), ctx) ==
            Take(Run(Snapped(snapshot), ForwardSteps(order), ctx), Forward(k), ctx)
  {
    assert ForwardSteps(order + [k])[..|order|] == ForwardSteps(order);
  }

  lemma {:induction false} ForwardingEnqueuesNothing(order: seq<nat>)
    ensures Enqueued(ForwardSteps(order)) == multiset{}
  {
    if order != [] {
      ForwardingEnqueuesNothing(order[..|order| - 1]);
      assert ForwardSteps(order)[..|order| - 1] == ForwardSteps(order[..|order| - 1]);
    }
  }

  /** A tick on its own keeps all queued operations exactly when every cluster that has some has an heir. */
  lemma {:induction false} ForwardingConservesIff(snapshot: Queue, order: seq<nat>, ctx: Context, queue: Queue)
    requires ForwardedIn(snapshot, order, ctx, queue)
    ensures Contents(queue) == Contents(snapshot) <==> AllInherited(snapshot, ctx)
  {
    ForwardingEnqueuesNothing(order);
    ConservedIffAllInherited(snapshot, ForwardSteps(order), ctx);
    assert Contents(snapshot) + multiset{} == Contents(snapshot);
  }

  /** The node objects in the order of the points, each with the ID and the position of its point. */
  ghost predicate AlignedWith(nodes: seq<Node>, points: seq<Point>)
    reads nodes`location
  {
    && |nodes| == |points|
    && forall i :: 0 <= i < |nodes| ==> nodes[i].id == points[i].id && nodes[i].location == points[i]
  }

  /** A node object as NewNode makes it for a newcomer. */
  ghost predicate Newcomer(n: Node)
    reads n`role, n`clusterIdx, n`knownKeys, n`view
  {
    n.role == Replica && n.clusterIdx == -1 && n.view == 0 && n.knownKeys == map[n.id := Some(n.pubKey)]
  }

  /** Steps 4 and 5: the clusters of these points and their leaders. */
  method Regroup(points: seq<Point>, first: nat, draws: (nat, real) -> real)
    returns (clusters: seq<Cluster>, leaders: map<nat, Point>)
    requires points != [] ==> first < |points|
    requires Fair(draws)
    ensures Clustered(clusters, points) && ClusteredFrom(clusters, points, first, draws)
    ensures Elected(leaders, clusters)
  {
    clusters := Recluster(points, first, draws);
    ClusteredIsNumbered(clusters, points);
    leaders := ElectAllLeaders(clusters);
    NumberedElection(leaders, clusters);
  }

  class TickMode {
    var currentClusters: seq<Cluster>
    var nodes: seq<Node>
    var nodePoints: seq<Point>
    var leaders: map<nat, Point>
    const maxPerTick: nat
    var serviceQueue: Queue
    var inTickMode: bool
    var seed: int

    ghost function Current(): Network
      reads this
    {
      Network(nodePoints, currentClusters, leaders)
    }

    /** nodes[i] is the vehicle at nodePoints[i]. */
    ghost predicate Aligned()
      reads this, nodes
    {
      AlignedWith(nodes, nodePoints)
    }

    ghost predicate Valid()
      reads this, nodes
    {
      Aligned() && Coherent(Current())
    }

    constructor (clusters: seq<Cluster>, nodes: seq<Node>, maxPerTick: nat)
      ensures currentClusters == clusters && this.nodes == nodes && this.maxPerTick == maxPerTick
      ensures nodePoints == Flatten(clusters) && ElectedFrom(leaders, clusters)
      ensures serviceQueue == map[] && !inTickMode && seed == 42
      ensures Founding(clusters) && AlignedWith(nodes, Flatten(clusters)) ==> Valid()
    {
      var points := FlattenPoints(clusters);
      var elected := ElectAllLeaders(clusters);
      currentClusters, this.nodes, nodePoints, leaders := clusters, nodes, points, elected;
      this.maxPerTick := maxPerTick;
      serviceQueue, inTickMode, seed := map[], false, 42;
      new;
      if Founding(clusters) {
        FoundingIsCoherent(clusters, leaders);
      }
    }

    static method FlattenPoints(clusters: seq<Cluster>) returns (points: seq<Point>)
      ensures points == Flatten(clusters)
    {
      points := [];
      for i := 0 to |clusters|
        invariant points == Flatten(clusters[..i])
      {
        assert clusters[..i + 1][..i] == clusters[..i];
        points := points + clusters[i].nodes;
      }
      assert clusters[..|clusters|] == clusters;
    }

    method EnqueueOperation(clusterId: nat, op: string)
      modifies this`serviceQueue
      ensures serviceQueue == Appended(old(serviceQueue), clusterId, [op])
    {
      serviceQueue :=
        serviceQueue[clusterId := (if clusterId in serviceQueue then serviceQueue[clusterId] else []) + [op]];
    }

    method HasNodeWith(id: string) returns (r: bool)
      ensures r == HasNode(nodePoints, id)
    {
      for i := 0 to |nodePoints|
        invariant forall k :: 0 <= k < i ==> nodePoints[k].id != id
      {
        if nodePoints[i].id == id {
          return true;
        }
      }
      r := false;
    }

    // ---- Step 2: movements ---------------------------------------------------------------

    /** The first node object with the given ID learns its new position. */
    method Relocate(id: string, p: Point)
      modifies nodes`location
      ensures forall i :: 0 <= i < |nodes| && (forall k :: 0 <= k < i ==> nodes[k].id != id) && nodes[i].id == id ==>
              nodes[i].location == p
      ensures forall n :: n in nodes && n.id != id ==> n.location == old(n.location)
    {
      for i := 0 to |nodes|
        invariant forall k :: 0 <= k < i ==> nodes[k].id != id
        invariant forall n :: n in nodes ==> n.location == old(n.location)
      {
        if nodes[i].id == id {
          nodes[i].location := p;
          return;
        }
      }
    }

    method ApplyMoves(t: Tick)
      requires Aligned() && UniqueIds(nodePoints) && WellFormed(t)
      modifies this`nodePoints, nodes`location
      ensures nodePoints == Moved(old(nodePoints), t.moved)
      ensures forall i :: 0 <= i < |old(nodePoints)| ==>
                var id := old(nodePoints)[i].id;
                nodes[i].location == nodePoints[i] == if id in t.moved then t.moved[id] else old(nodePoints)[i]
      ensures Aligned()
    {
      ghost var before := nodePoints;
      for i := 0 to |nodePoints|
        invariant |nodePoints| == |before| == |nodes|
        invariant forall k :: 0 <= k < i ==> nodePoints[k] == MovedPoint(before[k], t.moved)
        invariant forall k :: i <= k < |before| ==> nodePoints[k] == before[k]
        invariant Aligned()
      {
        var p := nodePoints[i];
        if p.id in t.moved {
          var q := t.moved[p.id];
          nodePoints := nodePoints[i := q];
          Relocate(p.id, q);
        }
      }
    }

    // ---- Step 3: admissions --------------------------------------------------------------

    method AdmitNodes(add: seq<Point>, keys: string -> Key)
      requires Aligned()
      modifies this`nodePoints, this`nodes
      ensures nodePoints == Admitted(old(nodePoints), add)
      ensures Aligned() && old(nodes) <= nodes
      ensures forall i :: |old(nodes)| <= i < |nodes| ==> fresh(nodes[i]) && Newcomer(nodes[i])
    {
      ghost var points, objects := nodePoints, nodes;
      for i := 0 to |add|
        invariant nodePoints == Admitted(points, add[..i])
        invariant Aligned() && objects <= nodes
        invariant forall k :: |objects| <= k < |nodes| ==> fresh(nodes[k]) && Newcomer(nodes[k])
      {
        assert add[..i + 1][..i] == add[..i];
        var known := HasNodeWith(add[i].id);
        if !known {
          var node := new Node(add[i].id, Replica, -1, add[i], keys(add[i].id));
          nodePoints := nodePoints + [add[i]];
          nodes := nodes + [node];
          assert node.State().role == Replica && node.State().view == 0;
          assert node.State().knownKeys == map[node.id := Some(node.pubKey)];
        }
      }
      assert add[..|add|] == add;
    }

    /** Steps 2 and 3. */
    method UpdateVehicles(t: Tick, keys: string -> Key)
      requires Aligned() && UniqueIds(nodePoints) && WellFormed(t)
      modifies this`nodePoints, this`nodes, nodes`location
      ensures nodePoints == NextPoints(old(nodePoints), t, maxPerTick) && Aligned()
      ensures Stand(old(nodePoints), nodePoints, t.moved)
      ensures old(nodes) <= nodes
      ensures forall i :: |old(nodes)| <= i < |nodes| ==> fresh(nodes[i]) && Newcomer(nodes[i])
    {
      NextPointsStand(nodePoints, t, maxPerTick);
      ApplyMoves(t);
      AdmitNodes(if |t.newNodes| > maxPerTick then t.newNodes[..maxPerTick] else t.newNodes, keys);
    }

    // ---- Step 6: the service queue -------------------------------------------------------

    /** One old cluster's operations; its leader is still the one before the tick. */
    method ForwardOne(k: nat, ops: seq<string>, newClusters: seq<Cluster>, ghost pending: Queue)
      requires k in pending && pending[k] == ops
      modifies this`serviceQueue
      ensures QueueState(serviceQueue, pending - {k}, true) ==
              Take(QueueState(old(serviceQueue), pending, true), Forward(k), Context(leaders, newClusters))
    {
      if ops == [] || k !in leaders {
        return;
      }
      var target := FindClosestCluster(leaders[k], newClusters);
      if target < 0 {
        return;
      }
      serviceQueue := serviceQueue[target := (if target in serviceQueue then serviceQueue[target] else []) + ops];
    }

    /** The snapshot is forwarded in whatever order the map is traversed. */
    method ForwardPending(newClusters: seq<Cluster>) returns (ghost order: seq<nat>)
      modifies this`serviceQueue
      ensures ForwardedIn(old(serviceQueue), order, Context(leaders, newClusters), serviceQueue)
      ensures Rehomed(old(serviceQueue), order, Context(leaders, newClusters), serviceQueue)
    {
      ghost var ctx := Context(leaders, newClusters);
      ghost var snapshot := serviceQueue;
      var pending := serviceQueue;
      serviceQueue := map[];
      order := [];
      while pending.Keys != {}
        invariant ValidRun(Snapped(snapshot), ForwardSteps(order), ctx)
        invariant Run(Snapped(snapshot), ForwardSteps(order), ctx) == QueueState(serviceQueue, pending, true)
        decreases |pending|
      {
        var k :| k in pending.Keys;
        ForwardOne(k, pending[k], newClusters, pending);
        OneMoreForward(snapshot, order, k, ctx);
        RemoveShrinks(pending, k);
        pending := pending - {k};
        order := order + [k];
      }
      assert pending == map[];
      ForwardingRehomes(snapshot, order, ctx, serviceQueue);
    }

    // ---- The tick ------------------------------------------------------------------------

    /**
     One tick without concurrent enqueues. The new clusters are a balanced nearest-available
     assignment of all nodes, the leaders are theirs, and the queue is forwarded in some order.
     */
    method ProcessTick(t: Tick, oracle: Oracle)
      returns (newClusters: seq<Cluster>, newLeaders: map<nat, Point>, ghost order: seq<nat>)
      requires Valid() && WellFormed(t) && FairOracle(oracle)
      modifies this, nodes`location
      ensures Valid() && TickStep(old(Current()), t, maxPerTick, Current())
      ensures Stand(old(nodePoints), nodePoints, t.moved)
      ensures forall i :: 0 <= i < |nodes| ==> nodes[i].location == nodePoints[i]
      ensures ClusteredFrom(newClusters, nodePoints, oracle.intn(|nodePoints|), oracle.draws)
      ensures newClusters == currentClusters && newLeaders == leaders
      ensures ForwardedIn(old(serviceQueue), order, Context(old(leaders), currentClusters), serviceQueue)
      ensures Rehomed(old(serviceQueue), order, Context(old(leaders), currentClusters), serviceQueue)
      ensures old(nodes) <= nodes
      ensures forall i :: |old(nodes)| <= i < |nodes| ==> fresh(nodes[i]) && Newcomer(nodes[i])
      ensures seed == old(seed) + 1 && !inTickMode
    {
      inTickMode := true;
      UpdateVehicles(t, oracle.keys);
      newClusters, newLeaders := Regroup(nodePoints, oracle.intn(|nodePoints|), oracle.draws);
      order := ForwardPending(newClusters);
      currentClusters := newClusters;
      leaders := newLeaders;
      seed := seed + 1;
      TickKeepsCoherent(old(Current()), t, maxPerTick, Current());
      inTickMode := false;
    }
  }
}
