/**
 Clusters that run their calls concurrently (protocol/inter_cluster.go:108-119), turn by turn, over one
 shared store of nodes. Disjoint clusters end the same way under every interleaving.
 */
module Interleaving {
  import opened Prelude
  import opened NodeModel
  import opened Round
  import opened Epochs
  import opened GlobalOutcomes
  import opened GlobalTransition
  import opened ClusterRun

  /** `members[k]` names the nodes of cluster k, leader first; each cluster has its own job. */
  datatype Plan = Plan(members: seq<seq<string>>, jobs: seq<Job>)

  datatype World = World(store: map<string, NodeState>, stages: seq<Stage>)

  ghost predicate Disjoint(members: seq<seq<string>>) {
    forall k, l, id :: 0 <= k < l < |members| && id in members[k] ==> id !in members[l]
  }

  ghost predicate Planned(p: Plan) {
    && |p.members| == |p.jobs|
    && (forall k :: 0 <= k < |p.members| ==> p.members[k] != [] && NoRepeats(p.members[k]))
    && (forall k :: 0 <= k < |p.jobs| ==> p.jobs[k].updates ==> Sound(p.jobs[k].tuning))
    && Disjoint(p.members)
  }

  ghost predicate Houses(w: World, p: Plan) {
    && |w.stages| == |p.members|
    && forall k, id :: 0 <= k < |p.members| && id in p.members[k] ==> id in w.store
  }

  // ---- The shared store ------------------------------------------------------------------

  function Read(store: map<string, NodeState>, ids: seq<string>): (c: seq<NodeState>)
    requires forall id :: id in ids ==> id in store
    ensures |c| == |ids| && forall i :: 0 <= i < |ids| ==> c[i] == store[ids[i]]
  {
    seq(|ids|, i requires 0 <= i < |ids| => store[ids[i]])
  }

  function Write(store: map<string, NodeState>, ids: seq<string>, c: seq<NodeState>): map<string, NodeState>
    requires |ids| == |c|
  {
    if ids == [] then store
    else
      var n := |ids| - 1;
      Write(store, ids[..n], c[..n])[ids[n] := c[n]]
  }

  lemma {:induction false} WriteOutside(store: map<string, NodeState>, ids: seq<string>, c: seq<NodeState>, id: string)
    requires |ids| == |c| && id !in ids
    ensures id in Write(store, ids, c) <==> id in store
    ensures id in store ==> Write(store, ids, c)[id] == store[id]
  {
    if ids != [] {
      WriteOutside(store, ids[..|ids| - 1], c[..|ids| - 1], id);
    }
  }

  lemma {:induction false} WriteInside(store: map<string, NodeState>, ids: seq<string>, c: seq<NodeState>, i: nat)
    requires |ids| == |c| && NoRepeats(ids) && i < |ids|
    ensures ids[i] in Write(store, ids, c) && Write(store, ids, c)[ids[i]] == c[i]
  {
    var n := |ids| - 1;
    if i < n {
      WriteInside(store, ids[..n], c[..n], i);
    }
  }

  lemma {:induction false} WriteEffect(store: map<string, NodeState>, ids: seq<string>, c: seq<NodeState>)
    requires |ids| == |c| && NoRepeats(ids)
    ensures forall i :: 0 <= i < |ids| ==> ids[i] in Write(store, ids, c) && Write(store, ids, c)[ids[i]] == c[i]
    ensures forall id :: id !in ids ==> (id in Write(store, ids, c) <==> id in store)
    ensures forall id :: id !in ids && id in store ==> Write(store, ids, c)[id] == store[id]
  {
    forall i | 0 <= i < |ids|
      ensures ids[i] in Write(store, ids, c) && Write(store, ids, c)[ids[i]] == c[i]
    {
      WriteInside(store, ids, c, i);
    }
    forall id | id !in ids
      ensures id in Write(store, ids, c) <==> id in store
      ensures id in store ==> Write(store, ids, c)[id] == store[id]
    {
      WriteOutside(store, ids, c, id);
    }
  }

  // ---- Runs ------------------------------------------------------------------------------

  function View(w: World, p: Plan, k: nat): Local
    requires k < |p.members| && Houses(w, p)
  {
    Local(Read(w.store, p.members[k]), w.stages[k])
  }

  /** Cluster k goes through its next phase or its epoch; it reads and writes its own members in the store. */
  ghost function Turn(w: World, p: Plan, k: nat): (next: World)
    requires Planned(p) && Houses(w, p) && k < |p.members|
    ensures Houses(next, p)
  {
    var l := Move(View(w, p, k), p.jobs[k]);
    WriteEffect(w.store, p.members[k], l.nodes);
    World(Write(w.store, p.members[k], l.nodes), w.stages[k := l.stage])
  }

  /** A schedule names, turn by turn, the cluster that moves. */
  ghost predicate IsSchedule(schedule: seq<nat>, p: Plan) {
    forall i :: 0 <= i < |schedule| ==> schedule[i] < |p.members|
  }

  ghost function Follow(w: World, p: Plan, schedule: seq<nat>): (final: World)
    requires Planned(p) && Houses(w, p) && IsSchedule(schedule, p)
    ensures Houses(final, p)
  {
    if schedule == [] then w
    else
      Turn(Follow(w, p, schedule[..|schedule| - 1]), p, schedule[|schedule| - 1])
  }

  lemma {:induction false} TurnViews(w: World, p: Plan, k: nat, l: nat)
    requires Planned(p) && Houses(w, p) && k < |p.members| && l < |p.members|
    ensures View(Turn(w, p, k), p, l) == if l == k then Move(View(w, p, k), p.jobs[k]) else View(w, p, l)
  {
    var r := Move(View(w, p, k), p.jobs[k]);
    WriteEffect(w.store, p.members[k], r.nodes);
    var after := View(Turn(w, p, k), p, l);
    if l == k {
      assert after.nodes == r.nodes;
    } else {
      assert forall id :: id in p.members[l] ==> id !in p.members[k];
      assert after.nodes == Read(w.store, p.members[l]);
    }
  }

  /** No turn changes where a cluster's call will end. */
  lemma {:induction false} EndIsFixed(w: World, p: Plan, schedule: seq<nat>, k: nat)
    requires Planned(p) && Houses(w, p) && IsSchedule(schedule, p) && k < |p.members|
    ensures MoveToEnd(View(Follow(w, p, schedule), p, k), p.jobs[k]) == MoveToEnd(View(w, p, k), p.jobs[k])
  {
    if schedule != [] {
      var before, last := schedule[..|schedule| - 1], schedule[|schedule| - 1];
      EndIsFixed(w, p, before, k);
      TurnViews(Follow(w, p, before), p, last, k);
    }
  }

  lemma {:induction false} OutsidersStay(w: World, p: Plan, schedule: seq<nat>, id: string)
    requires Planned(p) && Houses(w, p) && IsSchedule(schedule, p)
    requires forall k :: 0 <= k < |p.members| ==> id !in p.members[k]
    ensures id in Follow(w, p, schedule).store <==> id in w.store
    ensures id in w.store ==> Follow(w, p, schedule).store[id] == w.store[id]
  {
    if schedule != [] {
      var before, last := schedule[..|schedule| - 1], schedule[|schedule| - 1];
      OutsidersStay(w, p, before, id);
      var v := Follow(w, p, before);
      WriteEffect(v.store, p.members[last], Move(View(v, p, last), p.jobs[last]).nodes);
    }
  }

  function Turns(schedule: seq<nat>, k: nat): nat {
    if schedule == [] then 0
    else Turns(schedule[..|schedule| - 1], k) + (if schedule[|schedule| - 1] == k then 1 else 0)
  }

  ghost predicate AllFinished(w: World) {
    forall k :: 0 <= k < |w.stages| ==> w.stages[k].Finished?
  }

  function Minus(a: nat, b: nat): nat {
    if a >= b then a - b else 0
  }

  lemma {:induction false} MoveShortens(l: Local, job: Job)
    requires CanMove(l, job)
    ensures TurnsLeft(Move(l, job).stage) <= Minus(TurnsLeft(l.stage), 1)
  {}

  lemma {:induction false} TurnShortens(v: World, p: Plan, last: nat, k: nat)
    requires Planned(p) && Houses(v, p) && last < |p.members| && k < |p.members|
    ensures TurnsLeft(Turn(v, p, last).stages[k]) <= Minus(TurnsLeft(v.stages[k]), if last == k then 1 else 0)
  {
    if last == k {
      MoveShortens(View(v, p, k), p.jobs[k]);
    }
  }

  lemma {:induction false} TurnsRunOut(w: World, p: Plan, schedule: seq<nat>, k: nat)
    requires Planned(p) && Houses(w, p) && IsSchedule(schedule, p) && k < |p.members|
    ensures TurnsLeft(Follow(w, p, schedule).stages[k]) <= Minus(TurnsLeft(w.stages[k]), Turns(schedule, k))
  {
    if schedule != [] {
      var before, last := schedule[..|schedule| - 1], schedule[|schedule| - 1];
      TurnsRunOut(w, p, before, k);
      TurnShortens(Follow(w, p, before), p, last, k);
    }
  }

  /** Five turns each are enough, however they are interleaved. */
  lemma {:induction false} FiveTurnsSuffice(w: World, p: Plan, schedule: seq<nat>)
    requires Planned(p) && Houses(w, p) && IsSchedule(schedule, p)
    requires forall k :: 0 <= k < |p.members| ==> Turns(schedule, k) >= 5
    ensures AllFinished(Follow(w, p, schedule))
  {
    forall k | 0 <= k < |p.members|
      ensures Follow(w, p, schedule).stages[k].Finished?
    {
      TurnsRunOut(w, p, schedule, k);
    }
  }

  /** A finished cluster is where running it alone, without interruption, would have left it. */
  lemma {:induction false} FinishedAsIfAlone(w: World, p: Plan, schedule: seq<nat>, k: nat)
    requires Planned(p) && Houses(w, p) && IsSchedule(schedule, p) && k < |p.members|
    requires Follow(w, p, schedule).stages[k].Finished?
    ensures View(Follow(w, p, schedule), p, k) == MoveToEnd(View(w, p, k), p.jobs[k])
  {
    EndIsFixed(w, p, schedule, k);
  }

  /**
   Started together, every cluster that has had its five turns ends with the nodes and the outcome of
   its own undisturbed RunPBFT call, epoch included.
   */
  lemma {:induction false} RoundsAsIfAlone(w: World, p: Plan, schedule: seq<nat>, k: nat)
    requires Planned(p) && Houses(w, p) && IsSchedule(schedule, p) && k < |p.members|
    requires w.stages[k] == STARTING && Turns(schedule, k) >= 5
    ensures var site := SiteOf(Read(w.store, p.members[k]), p.jobs[k]);
            View(Follow(w, p, schedule), p, k) ==
            Local(Finish(site, p.jobs[k].call), Finished(OutcomeAt(site, p.jobs[k].call)))
  {
    TurnsRunOut(w, p, schedule, k);
    FinishedAsIfAlone(w, p, schedule, k);
    TurnsAreTheCall(Read(w.store, p.members[k]), p.jobs[k]);
  }

  /** Any two interleavings that finish leave the same nodes and the same outcomes. */
  lemma {:induction false} EveryInterleavingAgrees(w: World, p: Plan, a: seq<nat>, b: seq<nat>)
    requires Planned(p) && Houses(w, p) && IsSchedule(a, p) && IsSchedule(b, p)
    requires AllFinished(Follow(w, p, a)) && AllFinished(Follow(w, p, b))
    ensures Follow(w, p, a) == Follow(w, p, b)
  {
    var u, v := Follow(w, p, a), Follow(w, p, b);
    forall k | 0 <= k < |p.members|
      ensures View(u, p, k) == View(v, p, k)
    {
      FinishedAsIfAlone(w, p, a, k);
      FinishedAsIfAlone(w, p, b, k);
    }
    assert forall k :: 0 <= k < |p.members| ==>
           View(u, p, k).stage == u.stages[k] && View(v, p, k).stage == v.stages[k];
    assert u.stages == v.stages;
    forall id
      ensures id in u.store <==> id in v.store
      ensures id in u.store ==> u.store[id] == v.store[id]
    {
      SameEntry(w, p, a, b, id);
    }
    assert u.store == v.store;
  }

  lemma {:induction false} SameEntry(w: World, p: Plan, a: seq<nat>, b: seq<nat>, id: string)
    requires Planned(p) && Houses(w, p) && IsSchedule(a, p) && IsSchedule(b, p)
    requires forall k :: 0 <= k < |p.members| ==> View(Follow(w, p, a), p, k) == View(Follow(w, p, b), p, k)
    ensures id in Follow(w, p, a).store <==> id in Follow(w, p, b).store
    ensures id in Follow(w, p, a).store ==> Follow(w, p, a).store[id] == Follow(w, p, b).store[id]
  {
    if k :| 0 <= k < |p.members| && id in p.members[k] {
      var i :| 0 <= i < |p.members[k]| && p.members[k][i] == id;
      assert View(Follow(w, p, a), p, k).nodes[i] == View(Follow(w, p, b), p, k).nodes[i];
    } else {
      OutsidersStay(w, p, a, id);
      OutsidersStay(w, p, b, id);
    }
  }

  // ---- The verdict -----------------------------------------------------------------------

  ghost function Starts(w: World, p: Plan): (r: seq<Site>)
    requires Planned(p) && Houses(w, p)
    ensures |r| == |p.members|
    ensures forall k :: 0 <= k < |r| ==> r[k] == SiteOf(Read(w.store, p.members[k]), p.jobs[k]) && |r[k].nodes| > 0
  {
    seq(|p.members|, k requires 0 <= k < |p.members| => SiteOf(Read(w.store, p.members[k]), p.jobs[k]))
  }

  function Calls(p: Plan): (r: seq<Call>)
    ensures |r| == |p.jobs| && forall k :: 0 <= k < |r| ==> r[k] == p.jobs[k].call
  {
    seq(|p.jobs|, k requires 0 <= k < |p.jobs| => p.jobs[k].call)
  }

  ghost function Results(w: World): (r: seq<Outcome>)
    requires AllFinished(w)
    ensures |r| == |w.stages| && forall k :: 0 <= k < |r| ==> r[k] == w.stages[k].outcome
  {
    seq(|w.stages|, k requires 0 <= k < |w.stages| => w.stages[k].outcome)
  }

  /**
   Under every interleaving that finishes, the clusters hold the nodes and outcomes that the coordinator
   computes by running them one after another.
   */
  lemma {:induction false} AsIfOneAfterAnother(w: World, p: Plan, schedule: seq<nat>, k: nat)
    requires Planned(p) && Houses(w, p) && IsSchedule(schedule, p) && k < |p.members|
    requires w.stages[k] == STARTING && AllFinished(Follow(w, p, schedule))
    ensures var end := Follow(w, p, schedule);
            && Read(end.store, p.members[k]) == Finishes(Starts(w, p), Calls(p))[k]
            && Results(end)[k] == Outcomes(Starts(w, p), Calls(p))[k]
  {
    FinishedAsIfAlone(w, p, schedule, k);
    TurnsAreTheCall(Read(w.store, p.members[k]), p.jobs[k]);
    assert View(Follow(w, p, schedule), p, k).nodes == Read(Follow(w, p, schedule).store, p.members[k]);
  }

  /**
   Neither the interleaving nor the order in which results arrive shows in a global transition: under
   any schedule that finishes and any arrival order, the clusters end with the nodes, and the
   transition with the kind of verdict and the replies, of the clusters run one after another.
   */
  lemma {:induction false} EveryTransitionAgrees(
      w: World, p: Plan, schedule: seq<nat>, order: seq<nat>, other: seq<nat>, fGlobal: int)
    requires Planned(p) && Houses(w, p) && IsSchedule(schedule, p)
    requires (forall k :: 0 <= k < |p.members| ==> w.stages[k] == STARTING) && AllFinished(Follow(w, p, schedule))
    requires ArrivalOrder(order, |p.members|) && ArrivalOrder(other, |p.members|)
    ensures var end := Follow(w, p, schedule);
            && (forall k :: 0 <= k < |p.members| ==>
                Read(end.store, p.members[k]) == Finishes(Starts(w, p), Calls(p))[k])
            && Alike(Judge(InOrder(Results(end), order), fGlobal),
                     Judge(InOrder(Outcomes(Starts(w, p), Calls(p)), other), fGlobal))
  {
    var end, outcomes := Follow(w, p, schedule), Outcomes(Starts(w, p), Calls(p));
    forall k | 0 <= k < |p.members|
      ensures Read(end.store, p.members[k]) == Finishes(Starts(w, p), Calls(p))[k] && Results(end)[k] == outcomes[k]
    {
      AsIfOneAfterAnother(w, p, schedule, k);
    }
    assert Results(end) == outcomes;
    VerdictIgnoresArrival(outcomes, order, fGlobal);
    VerdictIgnoresArrival(outcomes, other, fGlobal);
  }
}
