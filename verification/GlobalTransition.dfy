/** The coordinator of a global transition (protocol/inter_cluster.go:32-153) over its instances. */
module GlobalTransition {
  import opened Prelude
  import opened Messages
  import opened Quorum
  import opened NodeModel
  import opened NodeObject
  import opened Round
  import opened Epochs
  import opened Engine
  import opened PbftInstance
  import opened GlobalOutcomes

  /** The nodes of a cluster after its RunPBFT call. */
  ghost function Finish(site: Site, call: Call): seq<NodeState> {
    if site.nodes != [] && (site.updates ==> Sound(site.tuning))
    then RoundThenEpoch(site.nodes, call, site.rule, site.updates, site.tuning)
    else site.nodes
  }

  ghost function Finishes(sites: seq<Site>, calls: seq<Call>): (r: seq<seq<NodeState>>)
    requires |sites| == |calls|
    ensures |r| == |sites| && forall k :: 0 <= k < |sites| ==> r[k] == Finish(sites[k], calls[k])
  {
    seq(|sites|, k requires 0 <= k < |sites| => Finish(sites[k], calls[k]))
  }

  class GlobalCoordinator {
    const clusters: seq<PBFTInstance>
    const fGlobal: int

    constructor (clusters: seq<PBFTInstance>, fGlobal: int)
      ensures this.clusters == clusters && this.fGlobal == fGlobal
    {
      this.clusters, this.fGlobal := clusters, fGlobal;
    }

    ghost function Nodes(): (r: set<Node>)
      ensures forall k, n :: 0 <= k < |clusters| && n in clusters[k].all ==> n in r
    {
      set k, n | 0 <= k < |clusters| && n in clusters[k].all :: n
    }

    /** No instance and no node serves two clusters. */
    ghost predicate Separate() {
      && (forall k, l :: 0 <= k < |clusters| && 0 <= l < |clusters| && k != l ==> clusters[k] != clusters[l])
      && (forall k, l, n :: 0 <= k < |clusters| && 0 <= l < |clusters| && k != l && n in clusters[k].all ==>
          n !in clusters[l].all)
    }

    ghost function SiteOf(inst: PBFTInstance): Site
      reads inst, inst.all
    {
      Site(States(inst.all), inst.CurrentRule(), inst.UpdatesReputation(), inst.tuning)
    }

    ghost function Starts(): (r: seq<Site>)
      reads clusters, Nodes()
      ensures |r| == |clusters| && forall k :: 0 <= k < |clusters| ==> r[k] == SiteOf(clusters[k])
    {
      StartsBelow(|clusters|)
    }

    ghost function StartsBelow(m: nat): (r: seq<Site>)
      requires m <= |clusters|
      reads clusters, Nodes()
      ensures |r| == m && forall k :: 0 <= k < m ==> r[k] == SiteOf(clusters[k])
    {
      if m == 0 then []
      else
        assert forall n :: n in clusters[m - 1].all ==> n in Nodes();
        StartsBelow(m - 1) + [SiteOf(clusters[m - 1])]
    }

    /** The instance has not run since the coordinator saw it as `site`. */
    ghost predicate Waiting(inst: PBFTInstance, site: Site)
      reads inst, inst.all
    {
      inst.Valid() && SiteOf(inst) == site
    }

    method RunCluster(inst: PBFTInstance, call: Call, ghost site: Site) returns (outcome: Outcome)
      requires Waiting(inst, site)
      modifies inst, inst.all
      ensures site.nodes != [] && outcome == OutcomeAt(site, call)
      ensures States(inst.all) == Finish(site, call)
    {
      assert site == SiteOf(inst) && |site.nodes| == |inst.all|;
      ghost var deliveries;
      outcome, deliveries := inst.RunPBFT(call);
      assert States(inst.all) == RoundThenEpoch(site.nodes, call, site.rule, site.updates, site.tuning);
    }

    ghost predicate Underway(order: seq<nat>, i: nat, starts: seq<Site>, ends: seq<seq<NodeState>>)
      requires |starts| == |ends| == |clusters| && ArrivalOrder(order, |clusters|)
      reads clusters, Nodes()
    {
      && (forall j :: i <= j < |order| ==> WaitingAt(order[j], starts))
      && (forall j :: 0 <= j < i && j < |order| ==> RanAt(order[j], ends))
    }

    ghost predicate WaitingAt(k: nat, starts: seq<Site>)
      requires k < |clusters| == |starts|
      reads clusters[k], clusters[k].all
    {
      Waiting(clusters[k], starts[k])
    }

    ghost predicate RanAt(k: nat, ends: seq<seq<NodeState>>)
      requires k < |clusters| == |ends|
      reads clusters[k].all
    {
      States(clusters[k].all) == ends[k]
    }

    method RunNext(order: seq<nat>, i: nat, calls: seq<Call>, ghost starts: seq<Site>, ghost ends: seq<seq<NodeState>>)
      returns (outcome: Outcome)
      requires Separate() && |calls| == |starts| == |ends| == |clusters|
      requires ArrivalOrder(order, |clusters|) && i < |order| && Underway(order, i, starts, ends)
      requires ends[order[i]] == Finish(starts[order[i]], calls[order[i]])
      modifies clusters[order[i]], clusters[order[i]].all
      ensures Underway(order, i + 1, starts, ends)
      ensures starts[order[i]].nodes != [] && outcome == OutcomeAt(starts[order[i]], calls[order[i]])
    {
      var k := order[i];
      assert WaitingAt(order[i], starts);
      label Before:
      outcome := RunCluster(clusters[k], calls[k], starts[k]);
      forall j | 0 <= j < |order| && j != i
        ensures j > i ==> WaitingAt(order[j], starts)
        ensures j < i ==> RanAt(order[j], ends)
      {
        Untouched(k, order[j]);
        assert j > i ==> old@Before(WaitingAt(order[j], starts));
        assert j < i ==> old@Before(RanAt(order[j], ends));
      }
    }

    lemma {:induction false} Untouched(k: nat, l: nat)
      requires Separate() && k < |clusters| && l < |clusters| && k != l
      ensures clusters[l] != clusters[k]
      ensures forall x, y :: 0 <= x < |clusters[l].all| && 0 <= y < |clusters[k].all| ==>
              clusters[l].all[x] != clusters[k].all[y]
    {
      forall x, y | 0 <= x < |clusters[l].all| && 0 <= y < |clusters[k].all|
        ensures clusters[l].all[x] != clusters[k].all[y]
      {
        assert clusters[l].all[x] in clusters[l].all && clusters[k].all[y] in clusters[k].all;
      }
    }

    method RunAll(order: seq<nat>, calls: seq<Call>, ghost starts: seq<Site>)
      returns (allReplies: seq<Reply>, errs: seq<Failure>)
      requires Separate() && |calls| == |starts| == |clusters| && ArrivalOrder(order, |clusters|)
      requires forall k :: 0 <= k < |starts| ==> |starts[k].nodes| > 0
      requires Underway(order, 0, starts, Finishes(starts, calls))
      modifies clusters, Nodes()
      ensures Underway(order, |order|, starts, Finishes(starts, calls))
      ensures allReplies == AllReplies(InOrder(Outcomes(starts, calls), order))
      ensures errs == AllFailures(InOrder(Outcomes(starts, calls), order))
    {
      ghost var ends, outcomes := Finishes(starts, calls), InOrder(Outcomes(starts, calls), order);
      allReplies, errs := [], [];
      for i := 0 to |order|
        invariant Underway(order, i, starts, ends)
        invariant allReplies == AllReplies(outcomes[..i])
        invariant errs == AllFailures(outcomes[..i])
      {
        CollectOne(outcomes, i);
        var outcome := RunNext(order, i, calls, starts, ends);
        if outcome.Replies? {
          allReplies := allReplies + outcome.replies;
        } else {
          errs := errs + [outcome.why];
        }
      }
      assert outcomes[..|order|] == outcomes;
    }

    /**
     The clusters' results arrive in the order `order`. Running each call when its result is due is one
     of the possible interleavings. Interleaving.dfy shows that every other one, epochs included, ends
     with the same nodes and outcomes, so that neither it nor the arrival order shows in the verdict,
     except in the order of the replies and in which failure comes first.
     */
    method RunGlobalTransition(order: seq<nat>, calls: seq<Call>) returns (verdict: Verdict)
      requires Separate() && forall k :: 0 <= k < |clusters| ==> clusters[k].Valid()
      requires |calls| == |clusters| && ArrivalOrder(order, |clusters|)
      modifies clusters, Nodes()
      ensures verdict == Judge(InOrder(Outcomes(old(Starts()), calls), order), fGlobal)
      ensures Alike(verdict, Judge(Outcomes(old(Starts()), calls), fGlobal))
      ensures forall k :: 0 <= k < |clusters| ==> RanAt(k, Finishes(old(Starts()), calls))
    {
      VerdictIgnoresArrival(Outcomes(Starts(), calls), order, fGlobal);
      if |clusters| == 0 {
        return NoClusters;
      }
      ghost var starts := Starts();
      AllWaiting(order, starts, Finishes(starts, calls));
      var allReplies, errs := RunAll(order, calls, starts);
      AllHaveRun(order, starts, Finishes(starts, calls));
      if allReplies == [] {
        return if errs != [] then AllFailed(errs[0]) else NoReplies;
      }
      verdict := if HasQuorumGlobal(|allReplies|, fGlobal) then Succeeded(allReplies) else QuorumNotMet(allReplies);
    }

    lemma {:induction false} AllWaiting(order: seq<nat>, starts: seq<Site>, ends: seq<seq<NodeState>>)
      requires |starts| == |ends| == |clusters| && ArrivalOrder(order, |clusters|) && starts == Starts()
      requires forall k :: 0 <= k < |clusters| ==> clusters[k].Valid()
      ensures Underway(order, 0, starts, ends)
    {}

    lemma {:induction false} AllHaveRun(order: seq<nat>, starts: seq<Site>, ends: seq<seq<NodeState>>)
      requires |starts| == |ends| == |clusters| && ArrivalOrder(order, |clusters|)
      requires Underway(order, |order|, starts, ends)
      ensures forall k :: 0 <= k < |clusters| ==> RanAt(k, ends)
    {
      forall k | 0 <= k < |clusters|
        ensures RanAt(k, ends)
      {
        AllBelow(order, k);
        var j :| 0 <= j < |order| && order[j] == k;
      }
    }
  }
}
