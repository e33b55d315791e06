/**
 The service queue during a tick (dynamic/clustering.go:133-156, 231-260, 339-350): enqueues
 interleave freely with the two kinds of critical section in which the tick takes a snapshot and
 then forwards one old cluster's operations at a time, in any order of clusters.
 */
module ServiceQueue {
  import opened Prelude
  import opened Geometry

  type Queue = map<nat, seq<string>>

  function OpsOf(q: Queue, k: nat): seq<string> {
    if k in q then q[k] else []
  }

  function Appended(q: Queue, k: nat, ops: seq<string>): Queue {
    q[k := OpsOf(q, k) + ops]
  }

  // ---- findClosestCluster ----------------------------------------------------------------

  /** Cluster i is nearest to `p`, and no earlier one is as near. */
  ghost predicate IsClosest(p: Point, clusters: seq<Cluster>, i: nat) {
    && i < |clusters|
    && forall k :: 0 <= k < |clusters| ==>
         Dist(p, clusters[i].centroid) < Dist(p, clusters[k].centroid)
         || (Dist(p, clusters[i].centroid) == Dist(p, clusters[k].centroid) && i <= k)
  }

  function ClosestIndex(p: Point, clusters: seq<Cluster>): (i: nat)
    requires clusters != []
    ensures i < |clusters|
  {
    var n := |clusters| - 1;
    if n == 0 then 0
    else
      var before := ClosestIndex(p, clusters[..n]);
      if Dist(p, clusters[n].centroid) < Dist(p, clusters[before].centroid) then n else before
  }

  lemma {:induction false} ClosestIndexIsClosest(p: Point, clusters: seq<Cluster>)
    requires clusters != []
    ensures IsClosest(p, clusters, ClosestIndex(p, clusters))
  {
    var n := |clusters| - 1;
    if n > 0 {
      var before := ClosestIndex(p, clusters[..n]);
      ClosestIndexIsClosest(p, clusters[..n]);
      forall k | 0 <= k < n
        ensures Dist(p, clusters[before].centroid) < Dist(p, clusters[k].centroid)
                || (Dist(p, clusters[before].centroid) == Dist(p, clusters[k].centroid) && before <= k)
      {
        assert clusters[..n][k] == clusters[k];
      }
    }
  }

  /** -1 when there are no clusters, otherwise the ID of the nearest one. */
  method FindClosestCluster(p: Point, clusters: seq<Cluster>) returns (best: int)
    ensures clusters == [] ==> best == -1
    ensures clusters != [] ==>
            best == clusters[ClosestIndex(p, clusters)].id && IsClosest(p, clusters, ClosestIndex(p, clusters))
  {
    best := -1;
    ghost var index := 0;
    var bestDist := 0.0;
    for i := 0 to |clusters|
      invariant i == 0 ==> best == -1
      invariant i > 0 ==> index == ClosestIndex(p, clusters[..i]) && best == clusters[index].id
      invariant i > 0 ==> bestDist == Dist(p, clusters[index].centroid)
    {
      assert clusters[..i + 1][..i] == clusters[..i];
      var d := Dist(p, clusters[i].centroid);
      if best == -1 || d < bestDist {
        best, bestDist, index := clusters[i].id, d, i;
      }
    }
    assert clusters[..|clusters|] == clusters;
    if clusters != [] {
      ClosestIndexIsClosest(p, clusters);
    }
  }

  // ---- What a queue holds ----------------------------------------------------------------

  /** All queued operations, with multiplicity. */
  ghost function Contents(q: Queue): multiset<string>
    decreases |q|
  {
    if q.Keys == {} then multiset{}
    else
      var k :| k in q.Keys;
      RemoveShrinks(q, k);
      multiset(q[k]) + Contents(q - {k})
  }

  lemma {:induction false} RemoveShrinks(q: Queue, k: nat)
    requires k in q
    ensures |q - {k}| < |q|
  {
    assert (q - {k}).Keys == q.Keys - {k};
    assert |(q - {k}).Keys| == |q - {k}| && |q.Keys| == |q|;
  }

  /** The total does not depend on the order in which the map is traversed. */
  lemma {:induction false} ContentsWithout(q: Queue, k: nat)
    requires k in q
    ensures Contents(q) == multiset(q[k]) + Contents(q - {k})
    decreases |q|
  {
    var first: nat :| first in q.Keys && Contents(q) == multiset(q[first]) + Contents(q - {first});
    if first != k {
      RemoveShrinks(q, first);
      RemoveShrinks(q, k);
      var both := q - {first} - {k};
      assert both == q - {k} - {first};
      assert k in q - {first} && first in q - {k};
      ContentsWithout(q - {first}, k);
      ContentsWithout(q - {k}, first);
      assert Contents(q - {first}) == multiset(q[k]) + Contents(both);
    }
  }

  lemma {:induction false} ContentsAppended(q: Queue, k: nat, ops: seq<string>)
    ensures Contents(Appended(q, k, ops)) == Contents(q) + multiset(ops)
  {
    var r := Appended(q, k, ops);
    ContentsWithout(r, k);
    assert r - {k} == q - {k};
    if k in q {
      ContentsWithout(q, k);
    } else {
      assert q - {k} == q;
    }
  }

  /** PendingCount: the number of queued operations. */
  method PendingCount(q: Queue) returns (n: nat)
    ensures n == |Contents(q)|
  {
    n := 0;
    var rest := q;
    while rest.Keys != {}
      invariant n + |Contents(rest)| == |Contents(q)|
      decreases |rest|
    {
      var k :| k in rest.Keys;
      ContentsWithout(rest, k);
      RemoveShrinks(rest, k);
      n := n + |rest[k]|;
      rest := rest - {k};
    }
  }

  // ---- The tick as a machine -------------------------------------------------------------

  /** The leaders before the tick and the clusters after it. */
  datatype Context = Context(leaders: map<nat, Point>, clusters: seq<Cluster>)

  datatype QueueState = QueueState(queue: Queue, pending: Queue, snapped: bool)

  datatype Step = Enqueue(k: nat, op: string) | Snapshot | Forward(k: nat)

  /** The cluster that inherits the operations of old cluster k. */
  function Heir(ctx: Context, k: nat): Option<nat> {
    if k in ctx.leaders && ctx.clusters != [] then
      Some(ctx.clusters[ClosestIndex(ctx.leaders[k], ctx.clusters)].id)
    else None
  }

  lemma {:induction false} ClosestUnique(p: Point, clusters: seq<Cluster>, i: nat, j: nat)
    requires IsClosest(p, clusters, i) && IsClosest(p, clusters, j)
    ensures i == j
  {
    assert Dist(p, clusters[i].centroid) <= Dist(p, clusters[j].centroid) <= Dist(p, clusters[i].centroid);
  }

  /** Cluster j is the one whose centroid is nearest to the old leader of k, the first of those as near. */
  ghost predicate Inherits(ctx: Context, k: nat, j: nat) {
    k in ctx.leaders && exists i: nat :: IsClosest(ctx.leaders[k], ctx.clusters, i) && ctx.clusters[i].id == j
  }

  /** The old cluster had a leader, and there are new clusters. */
  predicate HasHeir(ctx: Context, k: nat) {
    k in ctx.leaders && ctx.clusters != []
  }

  /** The heir is the cluster nearest to the old leader, and there is one exactly if there can be. */
  lemma {:induction false} HeirIff(ctx: Context, k: nat, j: nat)
    ensures Heir(ctx, k) == Some(j) <==> Inherits(ctx, k, j)
    ensures Heir(ctx, k).Some? <==> HasHeir(ctx, k)
  {
    if HasHeir(ctx, k) {
      var closest := ClosestIndex(ctx.leaders[k], ctx.clusters);
      ClosestIndexIsClosest(ctx.leaders[k], ctx.clusters);
      if i: nat :| IsClosest(ctx.leaders[k], ctx.clusters, i) && ctx.clusters[i].id == j {
        ClosestUnique(ctx.leaders[k], ctx.clusters, i, closest);
      }
    }
  }

  predicate Enabled(s: QueueState, step: Step) {
    match step
    case Enqueue(_, _) => true
    case Snapshot => !s.snapped
    case Forward(k) => s.snapped && k in s.pending
  }

  function Take(s: QueueState, step: Step, ctx: Context): QueueState {
    match step
    case Enqueue(k, op) => s.(queue := Appended(s.queue, k, [op]))
    case Snapshot => QueueState(map[], s.queue, true)
    case Forward(k) =>
      var ops := OpsOf(s.pending, k);
      QueueState(
        if ops != [] && Heir(ctx, k).Some? then Appended(s.queue, Heir(ctx, k).value, ops) else s.queue,
        s.pending - {k},
        s.snapped)
  }

  function Run(s: QueueState, steps: seq<Step>, ctx: Context): QueueState {
    if steps == [] then s else Take(Run(s, steps[..|steps| - 1], ctx), steps[|steps| - 1], ctx)
  }

  ghost predicate ValidRun(s: QueueState, steps: seq<Step>, ctx: Context) {
    steps != [] ==>
      ValidRun(s, steps[..|steps| - 1], ctx) && Enabled(Run(s, steps[..|steps| - 1], ctx), steps[|steps| - 1])
  }

  function EnqueuedBy(step: Step): multiset<string> {
    if step.Enqueue? then multiset{step.op} else multiset{}
  }

  function Enqueued(steps: seq<Step>): multiset<string> {
    if steps == [] then multiset{} else Enqueued(steps[..|steps| - 1]) + EnqueuedBy(steps[|steps| - 1])
  }

  /** The queues of clusters nobody inherits from. */
  function Orphans(q: Queue, ctx: Context): Queue {
    map k | k in q && !HasHeir(ctx, k) :: q[k]
  }

  // ---- Conservation ----------------------------------------------------------------------

  lemma {:induction false} OrphansWithout(q: Queue, k: nat, ctx: Context)
    requires k in q
    ensures Contents(Orphans(q, ctx)) ==
            Contents(Orphans(q - {k}, ctx)) + (if !HasHeir(ctx, k) then multiset(q[k]) else multiset{})
  {
    if !HasHeir(ctx, k) {
      ContentsWithout(Orphans(q, ctx), k);
      assert Orphans(q, ctx) - {k} == Orphans(q - {k}, ctx);
    } else {
      assert Orphans(q, ctx) == Orphans(q - {k}, ctx);
    }
  }

  /** How often `op` is held now and not about to be dropped. */
  ghost function Kept(s: QueueState, ctx: Context, op: string): int {
    var dropped: int := Contents(Orphans(s.pending, ctx))[op];
    Contents(s.queue)[op] + Contents(s.pending)[op] - dropped
  }

  lemma {:induction false} AppendedCount(q: Queue, k: nat, ops: seq<string>, op: string)
    ensures Contents(Appended(q, k, ops))[op] == Contents(q)[op] + multiset(ops)[op]
  {
    ContentsAppended(q, k, ops);
  }

  lemma {:induction false} PendingCounts(q: Queue, k: nat, ctx: Context, op: string)
    requires k in q
    ensures Contents(q)[op] == multiset(q[k])[op] + Contents(q - {k})[op]
    ensures Contents(Orphans(q, ctx))[op] ==
            Contents(Orphans(q - {k}, ctx))[op] + (if !HasHeir(ctx, k) then multiset(q[k])[op] else 0)
  {
    ContentsWithout(q, k);
    OrphansWithout(q, k, ctx);
  }

  lemma {:induction false} ForwardConserves(s: QueueState, k: nat, ctx: Context, op: string)
    requires k in s.pending
    ensures Kept(Take(s, Forward(k), ctx), ctx, op) == Kept(s, ctx, op)
  {
    PendingCounts(s.pending, k, ctx, op);
    if HasHeir(ctx, k) {
      AppendedCount(s.queue, Heir(ctx, k).value, s.pending[k], op);
    }
  }

  /** Once the snapshot is taken, every step keeps the count of every operation, apart from enqueues. */
  lemma {:induction false} StepConserves(s: QueueState, step: Step, ctx: Context, op: string)
    requires s.snapped && Enabled(s, step)
    ensures Kept(Take(s, step, ctx), ctx, op) == Kept(s, ctx, op) + EnqueuedBy(step)[op]
    ensures Take(s, step, ctx).snapped
  {
    match step
    case Enqueue(k, o) => AppendedCount(s.queue, k, [o], op);
    case Forward(k) => ForwardConserves(s, k, ctx, op);
  }

  lemma {:induction false} RunConserves(s: QueueState, steps: seq<Step>, ctx: Context, op: string)
    requires s.snapped && ValidRun(s, steps, ctx)
    ensures Kept(Run(s, steps, ctx), ctx, op) == Kept(s, ctx, op) + Enqueued(steps)[op]
    ensures Run(s, steps, ctx).snapped
  {
    if steps != [] {
      RunConserves(s, steps[..|steps| - 1], ctx, op);
      StepConserves(Run(s, steps[..|steps| - 1], ctx), steps[|steps| - 1], ctx, op);
    }
  }

  /** The state right after the snapshot of queue `q`. */
  function Snapped(q: Queue): QueueState {
    QueueState(map[], q, true)
  }

  /** Every snapshotted cluster with operations has a cluster to inherit them. */
  ghost predicate AllInherited(q: Queue, ctx: Context) {
    forall k :: k in q && q[k] != [] ==> HasHeir(ctx, k)
  }

  lemma {:induction false} NothingOrphanedIff(q: Queue, ctx: Context)
    ensures Contents(Orphans(q, ctx)) == multiset{} <==> AllInherited(q, ctx)
  {
    var orphans := Orphans(q, ctx);
    if AllInherited(q, ctx) {
      OnlyEmpty(orphans);
    } else {
      var k :| k in q && q[k] != [] && !HasHeir(ctx, k);
      ContentsWithout(orphans, k);
      assert q[k][0] in Contents(orphans);
    }
  }

  lemma {:induction false} OnlyEmpty(q: Queue)
    requires forall k :: k in q ==> q[k] == []
    ensures Contents(q) == multiset{}
    decreases |q|
  {
    if q.Keys != {} {
      var k :| k in q.Keys;
      ContentsWithout(q, k);
      RemoveShrinks(q, k);
      OnlyEmpty(q - {k});
    }
  }

  lemma {:induction false} FinalCount(q: Queue, steps: seq<Step>, ctx: Context, op: string)
    requires ValidRun(Snapped(q), steps, ctx) && Run(Snapped(q), steps, ctx).pending == map[]
    ensures Contents(Run(Snapped(q), steps, ctx).queue)[op] + Contents(Orphans(q, ctx))[op] ==
            Contents(q)[op] + Enqueued(steps)[op]
  {
    RunConserves(Snapped(q), steps, ctx, op);
    assert Orphans(map[], ctx) == map[];
  }

  /** The orphaned operations, and only those, are missing at the end. */
  lemma {:induction false} OnlyOrphansAreLost(q: Queue, steps: seq<Step>, ctx: Context)
    requires ValidRun(Snapped(q), steps, ctx) && Run(Snapped(q), steps, ctx).pending == map[]
    ensures Contents(Run(Snapped(q), steps, ctx).queue) + Contents(Orphans(q, ctx)) == Contents(q) + Enqueued(steps)
  {
    forall op: string
      ensures (Contents(Run(Snapped(q), steps, ctx).queue) + Contents(Orphans(q, ctx)))[op] ==
              (Contents(q) + Enqueued(steps))[op]
    {
      FinalCount(q, steps, ctx, op);
    }
  }

  lemma {:induction false} EmptyRemainder(a: multiset<string>, b: multiset<string>, c: multiset<string>)
    requires a + b == c
    ensures a == c <==> b == multiset{}
  {
    assert |a| + |b| == |c|;
  }

  /**
   From the snapshot to the end of the tick, under every interleaving with enqueues and every order
   of forwarding: no operation is lost or duplicated exactly when every snapshotted cluster that has
   operations has an heir.
   */
  lemma {:induction false} ConservedIffAllInherited(q: Queue, steps: seq<Step>, ctx: Context)
    requires ValidRun(Snapped(q), steps, ctx) && Run(Snapped(q), steps, ctx).pending == map[]
    ensures Contents(Run(Snapped(q), steps, ctx).queue) == Contents(q) + Enqueued(steps) <==> AllInherited(q, ctx)
  {
    OnlyOrphansAreLost(q, steps, ctx);
    NothingOrphanedIff(q, ctx);
    EmptyRemainder(Contents(Run(Snapped(q), steps, ctx).queue), Contents(Orphans(q, ctx)),
                   Contents(q) + Enqueued(steps));
  }

  // ---- Order -----------------------------------------------------------------------------

  /** What one step adds to the queue of cluster j, for a snapshot `q`. */
  ghost function Arrival(q: Queue, step: Step, ctx: Context, j: nat): seq<string> {
    match step
    case Enqueue(k, op) => if k == j then [op] else []
    case Snapshot => []
    case Forward(k) => if Inherits(ctx, k, j) then OpsOf(q, k) else []
  }

  ghost function Arrivals(q: Queue, steps: seq<Step>, ctx: Context, j: nat): seq<string> {
    if steps == [] then []
    else Arrivals(q, steps[..|steps| - 1], ctx, j) + Arrival(q, steps[|steps| - 1], ctx, j)
  }

  lemma {:induction false} PendingUntouched(q: Queue, steps: seq<Step>, ctx: Context)
    requires ValidRun(Snapped(q), steps, ctx)
    ensures Run(Snapped(q), steps, ctx).snapped
    ensures forall k :: k in Run(Snapped(q), steps, ctx).pending ==>
            k in q && Run(Snapped(q), steps, ctx).pending[k] == q[k]
  {
    if steps != [] {
      PendingUntouched(q, steps[..|steps| - 1], ctx);
    }
  }

  /**
   At every moment after the snapshot the queue of cluster j is the concatenation, in the order of
   the steps, of the operations enqueued under j and of the whole blocks, each in its old order, of
   the old clusters whose leader is nearest to j. In particular an operation enqueued meanwhile keeps
   its key.
   */
  lemma {:induction false} QueueIsArrivals(q: Queue, steps: seq<Step>, ctx: Context, j: nat)
    requires ValidRun(Snapped(q), steps, ctx)
    ensures OpsOf(Run(Snapped(q), steps, ctx).queue, j) == Arrivals(q, steps, ctx, j)
  {
    if steps != [] {
      var last := steps[|steps| - 1];
      QueueIsArrivals(q, steps[..|steps| - 1], ctx, j);
      PendingUntouched(q, steps[..|steps| - 1], ctx);
      if last.Forward? {
        HeirIff(ctx, last.k, j);
      }
    }
  }

  /** Before the snapshot there are only enqueues, and they conserve as well. */
  lemma {:induction false} EnqueuesConserve(s: QueueState, steps: seq<Step>, ctx: Context)
    requires forall i :: 0 <= i < |steps| ==> steps[i].Enqueue?
    ensures Contents(Run(s, steps, ctx).queue) == Contents(s.queue) + Enqueued(steps)
    ensures Run(s, steps, ctx).pending == s.pending && Run(s, steps, ctx).snapped == s.snapped
  {
    if steps != [] {
      EnqueuesConserve(s, steps[..|steps| - 1], ctx);
      var last := steps[|steps| - 1];
      ContentsAppended(Run(s, steps[..|steps| - 1], ctx).queue, last.k, [last.op]);
    }
  }

  // ---- A whole tick ----------------------------------------------------------------------

  lemma {:induction false} LastOfConcat(a: seq<Step>, b: seq<Step>)
    requires b != []
    ensures a + b != [] && (a + b)[|a + b| - 1] == b[|b| - 1]
    ensures (a + b)[..|a + b| - 1] == a + b[..|b| - 1]
  {}

  lemma {:induction false} RunConcat(s: QueueState, a: seq<Step>, b: seq<Step>, ctx: Context)
    ensures Run(s, a + b, ctx) == Run(Run(s, a, ctx), b, ctx)
  {
    if b == [] {
      assert a + b == a;
    } else {
      RunConcat(s, a, b[..|b| - 1], ctx);
      LastOfConcat(a, b);
    }
  }

  lemma {:induction false} EnqueuedConcat(a: seq<Step>, b: seq<Step>)
    ensures Enqueued(a + b) == Enqueued(a) + Enqueued(b)
  {
    if b == [] {
      assert a + b == a;
    } else {
      EnqueuedConcat(a, b[..|b| - 1]);
      LastOfConcat(a, b);
    }
  }

  lemma {:induction false} SnapshotRun(q: Queue, before: seq<Step>, after: seq<Step>, ctx: Context)
    requires forall i :: 0 <= i < |before| ==> before[i].Enqueue?
    ensures var start, steps := QueueState(q, map[], false), before + [Snapshot] + after;
            && Run(start, steps, ctx) == Run(Snapped(Run(start, before, ctx).queue), after, ctx)
            && Enqueued(steps) == Enqueued(before) + Enqueued(after)
  {
    var start := QueueState(q, map[], false);
    RunConcat(start, before + [Snapshot], after, ctx);
    RunConcat(start, before, [Snapshot], ctx);
    EnqueuedConcat(before + [Snapshot], after);
    EnqueuedConcat(before, [Snapshot]);
    EnqueuesConserve(start, before, ctx);
    assert [Snapshot][..0] == [];
    assert Run(Run(start, before, ctx), [Snapshot], ctx) == Snapped(Run(start, before, ctx).queue);
    assert Enqueued([Snapshot]) == multiset{};
  }

  /**
   A whole tick: any enqueues, the snapshot, then forwards and enqueues interleaved until the
   snapshot is used up. All operations, old and new, are still queued exactly when every cluster that
   had operations at the snapshot has an heir.
   */
  lemma {:induction false} TickConservesIff(q: Queue, before: seq<Step>, after: seq<Step>, ctx: Context)
    requires forall i :: 0 <= i < |before| ==> before[i].Enqueue?
    requires var snapshot := Run(QueueState(q, map[], false), before, ctx).queue;
             ValidRun(Snapped(snapshot), after, ctx) && Run(Snapped(snapshot), after, ctx).pending == map[]
    ensures var start, steps := QueueState(q, map[], false), before + [Snapshot] + after;
            Contents(Run(start, steps, ctx).queue) == Contents(q) + Enqueued(steps)
            <==> AllInherited(Run(start, before, ctx).queue, ctx)
  {
    var start := QueueState(q, map[], false);
    SnapshotRun(q, before, after, ctx);
    EnqueuesConserve(start, before, ctx);
    ConservedIffAllInherited(Run(start, before, ctx).queue, after, ctx);
    assert Contents(q) + Enqueued(before) + Enqueued(after) == Contents(q) + (Enqueued(before) + Enqueued(after));
  }

  // ---- An operation that is lost ---------------------------------------------------------

  lemma {:induction false} OneMoreStep(s: QueueState, steps: seq<Step>, step: Step, ctx: Context)
    requires ValidRun(s, steps, ctx) && Enabled(Run(s, steps, ctx), step)
    ensures ValidRun(s, steps + [step], ctx) && Run(s, steps + [step], ctx) == Take(Run(s, steps, ctx), step, ctx)
    ensures Enqueued(steps + [step]) == Enqueued(steps) + EnqueuedBy(step)
  {
    assert (steps + [step])[..|steps|] == steps;
  }

  /** An operation enqueued before the snapshot for a cluster without an heir is in no queue after the tick. */
  lemma {:induction false} OrphanIsLost(ctx: Context, k: nat, op: string)
    requires !HasHeir(ctx, k)
    ensures var start, steps := QueueState(map[], map[], false), [Enqueue(k, op), Snapshot, Forward(k)];
            && ValidRun(start, steps, ctx) && Enqueued(steps) == multiset{op}
            && Run(start, steps, ctx) == QueueState(map[], map[], true)
  {
    var start, steps := QueueState(map[], map[], false), [Enqueue(k, op), Snapshot, Forward(k)];
    var first, second := [Enqueue(k, op)], [Enqueue(k, op), Snapshot];
    OneMoreStep(start, [], Enqueue(k, op), ctx);
    OneMoreStep(start, first, Snapshot, ctx);
    OneMoreStep(start, second, Forward(k), ctx);
    assert [] + [Enqueue(k, op)] == first && first + [Snapshot] == second && second + [Forward(k)] == steps;
    var none: Queue := map[];
    assert Run(start, first, ctx).queue - {k} == none;
  }

  /** For instance in a network whose old cluster 0 was empty, so that it had no leader. */
  lemma {:induction false} LeaderlessClusterLosesOperation(op: string)
    ensures var v := Point("v", 0.0, 0.0);
            var ctx := Context(map[1 := v], [Cluster(0, v, [v])]);
            var start, steps := QueueState(map[], map[], false), [Enqueue(0, op), Snapshot, Forward(0)];
            ValidRun(start, steps, ctx) && Contents(Run(start, steps, ctx).queue) == multiset{} != Enqueued(steps)
  {
    var v := Point("v", 0.0, 0.0);
    OrphanIsLost(Context(map[1 := v], [Cluster(0, v, [v])]), 0, op);
  }
}
