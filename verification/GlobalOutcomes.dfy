/** What a global transition makes of its clusters' results (protocol/inter_cluster.go:121-152). */
module GlobalOutcomes {
  import opened Prelude
  import opened Messages
  import opened Quorum
  import opened NodeModel
  import opened Round
  import opened Epochs
  import opened PbftInstance
  import opened QuorumSets
  import opened Runs
  import opened LinkedRounds

  datatype Verdict =
    | NoClusters
    | AllFailed(first: Failure)
    | NoReplies
    | QuorumNotMet(replies: seq<Reply>)
    | Succeeded(replies: seq<Reply>)

  // ---- Collecting ------------------------------------------------------------------------

  function AllReplies(outcomes: seq<Outcome>): seq<Reply> {
    if outcomes == [] then [] else AllReplies(outcomes[..|outcomes| - 1]) + RepliesIn(outcomes[|outcomes| - 1])
  }

  function AllFailures(outcomes: seq<Outcome>): seq<Failure> {
    if outcomes == [] then []
    else
      var last := outcomes[|outcomes| - 1];
      AllFailures(outcomes[..|outcomes| - 1]) + (if last.Failed? then [last.why] else [])
  }

  /** Collecting one more result. */
  lemma {:induction false} CollectOne(outcomes: seq<Outcome>, i: nat)
    requires i < |outcomes|
    ensures AllReplies(outcomes[..i + 1]) == AllReplies(outcomes[..i]) + RepliesIn(outcomes[i])
    ensures AllFailures(outcomes[..i + 1]) ==
            AllFailures(outcomes[..i]) + (if outcomes[i].Failed? then [outcomes[i].why] else [])
  {
    assert outcomes[..i + 1][..i] == outcomes[..i];
  }

  function Judge(outcomes: seq<Outcome>, fGlobal: int): Verdict {
    var replies, failures := AllReplies(outcomes), AllFailures(outcomes);
    if outcomes == [] then NoClusters
    else if replies == [] then (if failures != [] then AllFailed(failures[0]) else NoReplies)
    else if HasQuorumGlobal(|replies|, fGlobal) then Succeeded(replies)
    else QuorumNotMet(replies)
  }

  /** Every cluster's result arrives once. */
  ghost predicate ArrivalOrder(order: seq<nat>, m: nat) {
    && |order| == m
    && NoRepeats(order)
    && forall i :: 0 <= i < |order| ==> order[i] < m
  }

  function InOrder(outcomes: seq<Outcome>, order: seq<nat>): (r: seq<Outcome>)
    requires forall i :: 0 <= i < |order| ==> order[i] < |outcomes|
    ensures |r| == |order| && forall i :: 0 <= i < |order| ==> r[i] == outcomes[order[i]]
  {
    seq(|order|, i requires 0 <= i < |order| => outcomes[order[i]])
  }

  // ---- Arrival order does not matter -----------------------------------------------------

  lemma {:induction false} AllRepliesConcat(a: seq<Outcome>, b: seq<Outcome>)
    ensures AllReplies(a + b) == AllReplies(a) + AllReplies(b)
  {
    if b == [] {
      assert a + b == a;
    } else {
      var n := |b| - 1;
      assert (a + b)[..|a + b| - 1] == a + b[..n];
      AllRepliesConcat(a, b[..n]);
    }
  }

  lemma {:induction false} AllRepliesAround(a: seq<Outcome>, x: Outcome, b: seq<Outcome>)
    ensures AllReplies(a + [x] + b) == AllReplies(a) + RepliesIn(x) + AllReplies(b)
  {
    AllRepliesConcat(a + [x], b);
    assert (a + [x])[..|a|] == a;
  }

  lemma {:induction false} MiddleOut(p: seq<Reply>, q: seq<Reply>, r: seq<Reply>)
    ensures multiset(p + q + r) == multiset(p + r) + multiset(q)
  {}

  lemma {:induction false} AllRepliesSplit(a: seq<Outcome>, x: Outcome, b: seq<Outcome>)
    ensures multiset(AllReplies(a + [x] + b)) == multiset(AllReplies(a + b)) + multiset(RepliesIn(x))
  {
    AllRepliesConcat(a, b);
    AllRepliesAround(a, x, b);
    MiddleOut(AllReplies(a), RepliesIn(x), AllReplies(b));
  }

  lemma {:induction false} SplitAt(outcomes: seq<Outcome>, k: nat)
    requires k < |outcomes|
    ensures outcomes == outcomes[..k] + [outcomes[k]] + outcomes[k + 1..]
  {}

  lemma {:induction false} AllRepliesWithout(outcomes: seq<Outcome>, k: nat)
    requires k < |outcomes|
    ensures multiset(AllReplies(outcomes)) ==
            multiset(AllReplies(RemoveAt(outcomes, k))) + multiset(RepliesIn(outcomes[k]))
  {
    AllRepliesSplit(outcomes[..k], outcomes[k], outcomes[k + 1..]);
    SplitAt(outcomes, k);
  }

  lemma {:induction false} WithoutLast(order: seq<nat>, p: nat)
    requires ArrivalOrder(order, |order|) && p < |order| && order[p] == |order| - 1
    ensures ArrivalOrder(RemoveAt(order, p), |order| - 1)
  {
    RemoveAtElements(order, p);
    var shorter := RemoveAt(order, p);
    forall i | 0 <= i < |shorter|
      ensures shorter[i] < |order| - 1
    {
      assert shorter[i] in shorter;
    }
  }

  lemma {:induction false} InOrderWithoutLast(outcomes: seq<Outcome>, order: seq<nat>, p: nat)
    requires ArrivalOrder(order, |outcomes|) && p < |order| && order[p] == |order| - 1
    ensures ArrivalOrder(RemoveAt(order, p), |outcomes| - 1)
    ensures InOrder(outcomes[..|outcomes| - 1], RemoveAt(order, p)) == RemoveAt(InOrder(outcomes, order), p)
  {
    WithoutLast(order, p);
  }

  /** Whatever the order in which results arrive, the same replies are collected. */
  lemma {:induction false} ArrivalOrderIrrelevant(outcomes: seq<Outcome>, order: seq<nat>)
    requires ArrivalOrder(order, |outcomes|)
    ensures multiset(AllReplies(InOrder(outcomes, order))) == multiset(AllReplies(outcomes))
    decreases |outcomes|
  {
    if outcomes != [] {
      var n := |outcomes| - 1;
      AllBelow(order, n);
      var p :| 0 <= p < |order| && order[p] == n;
      InOrderWithoutLast(outcomes, order, p);
      ArrivalOrderIrrelevant(outcomes[..n], RemoveAt(order, p));
      AllRepliesWithout(InOrder(outcomes, order), p);
    }
  }

  lemma {:induction false} SomeFailure(outcomes: seq<Outcome>)
    ensures AllFailures(outcomes) != [] <==> exists o :: o in outcomes && o.Failed?
  {
    if outcomes != [] {
      var n := |outcomes| - 1;
      SomeFailure(outcomes[..n]);
      assert outcomes == outcomes[..n] + [outcomes[n]];
    }
  }

  /** The first failure listed is that of the first failed cluster. */
  lemma {:induction false} FirstFailure(outcomes: seq<Outcome>) returns (i: nat)
    requires AllFailures(outcomes) != []
    ensures i < |outcomes| && outcomes[i] == Failed(AllFailures(outcomes)[0])
    ensures forall j :: 0 <= j < i ==> outcomes[j].Replies?
  {
    var n := |outcomes| - 1;
    SomeFailure(outcomes[..n]);
    if AllFailures(outcomes[..n]) == [] {
      i := n;
      assert forall j :: 0 <= j < n ==> outcomes[..n][j] in outcomes[..n];
    } else {
      i := FirstFailure(outcomes[..n]);
    }
  }

  /**
   What a verdict says about the outcomes in the order of their arrival: success is f_global+1 replies,
   all of which are returned; a failure with no reply at all names the failure that arrived first.
   */
  lemma {:induction false} VerdictSays(outcomes: seq<Outcome>, fGlobal: int)
    ensures var v := Judge(outcomes, fGlobal);
            && (v.NoClusters? <==> outcomes == [])
            && (v.Succeeded? <==> AllReplies(outcomes) != [] && |AllReplies(outcomes)| >= fGlobal + 1)
            && (v.QuorumNotMet? <==> AllReplies(outcomes) != [] && |AllReplies(outcomes)| < fGlobal + 1)
            && Delivered(v) == AllReplies(outcomes)
            && (v.AllFailed? <==> AllReplies(outcomes) == [] && exists o :: o in outcomes && o.Failed?)
            && (v.AllFailed? ==>
                  exists i :: 0 <= i < |outcomes| && outcomes[i] == Failed(v.first)
                              && forall j :: 0 <= j < i ==> outcomes[j].Replies?)
  {
    SomeFailure(outcomes);
    if outcomes == [] {
      assert AllReplies(outcomes) == [];
    } else if AllReplies(outcomes) == [] && AllFailures(outcomes) != [] {
      var i := FirstFailure(outcomes);
    }
  }

  lemma {:induction false} FailureArrives(outcomes: seq<Outcome>, order: seq<nat>)
    requires ArrivalOrder(order, |outcomes|)
    ensures AllFailures(InOrder(outcomes, order)) != [] <==> AllFailures(outcomes) != []
  {
    var arrived := InOrder(outcomes, order);
    SomeFailure(outcomes);
    SomeFailure(arrived);
    if o :| o in outcomes && o.Failed? {
      var k :| 0 <= k < |outcomes| && outcomes[k] == o;
      AllBelow(order, k);
      var i :| 0 <= i < |order| && order[i] == k;
      assert arrived[i] in arrived;
    }
    if o :| o in arrived && o.Failed? {
      var i :| 0 <= i < |arrived| && arrived[i] == o;
      assert outcomes[order[i]] in outcomes;
    }
  }

  function Delivered(v: Verdict): seq<Reply> {
    if v.Succeeded? || v.QuorumNotMet? then v.replies else []
  }

  /** The same kind of verdict, with the same replies up to their order. */
  ghost predicate Alike(v: Verdict, w: Verdict) {
    && (v.NoClusters? <==> w.NoClusters?) && (v.AllFailed? <==> w.AllFailed?)
    && (v.NoReplies? <==> w.NoReplies?) && (v.Succeeded? <==> w.Succeeded?)
    && multiset(Delivered(v)) == multiset(Delivered(w))
  }

  lemma {:induction false} SameReplyCount(a: seq<Reply>, b: seq<Reply>)
    requires multiset(a) == multiset(b)
    ensures |a| == |b|
  {
    assert |multiset(a)| == |a| && |multiset(b)| == |b|;
  }

  /** Whatever the order in which results arrive, the verdict is the same and carries the same replies. */
  lemma {:induction false} VerdictIgnoresArrival(outcomes: seq<Outcome>, order: seq<nat>, fGlobal: int)
    requires ArrivalOrder(order, |outcomes|)
    ensures Alike(Judge(InOrder(outcomes, order), fGlobal), Judge(outcomes, fGlobal))
  {
    ArrivalOrderIrrelevant(outcomes, order);
    SameReplyCount(AllReplies(InOrder(outcomes, order)), AllReplies(outcomes));
    FailureArrives(outcomes, order);
  }

  // ---- Who replies -----------------------------------------------------------------------

  /** A cluster at the start of its round. */
  datatype Site = Site(nodes: seq<NodeState>, rule: Rule, updates: bool, tuning: Tuning)

  /** Non-empty clusters of pairwise distinct nodes, with any past. */
  ghost predicate Apart(sites: seq<Site>, calls: seq<Call>) {
    && |calls| == |sites|
    && (forall k :: 0 <= k < |sites| ==> |sites[k].nodes| > 0 && DistinctIds(sites[k].nodes))
    && forall k, l, s, t :: 0 <= k < l < |sites| && s in sites[k].nodes && t in sites[l].nodes ==> s.id != t.id
  }

  ghost function OutcomeAt(site: Site, call: Call): Outcome
    requires |site.nodes| > 0
  {
    RunRound(site.nodes, call, site.rule).progress.outcome
  }

  ghost function Outcomes(sites: seq<Site>, calls: seq<Call>): (r: seq<Outcome>)
    requires |calls| == |sites| && forall k :: 0 <= k < |sites| ==> |sites[k].nodes| > 0
    ensures |r| == |sites| && forall k :: 0 <= k < |sites| ==> r[k] == OutcomeAt(sites[k], calls[k])
  {
    seq(|sites|, k requires 0 <= k < |sites| => OutcomeAt(sites[k], calls[k]))
  }

  ghost predicate SomewhereIn(id: string, members: seq<set<string>>) {
    exists k :: 0 <= k < |members| && id in members[k]
  }

  lemma {:induction false} DistinctReplies(outcomes: seq<Outcome>, members: seq<set<string>>)
    requires |outcomes| == |members|
    requires forall k :: 0 <= k < |outcomes| ==> NoRepeats(NodeIds(RepliesIn(outcomes[k])))
    requires forall k, id :: 0 <= k < |outcomes| && id in NodeIds(RepliesIn(outcomes[k])) ==> id in members[k]
    requires forall k, l, id :: 0 <= k < l < |members| && id in members[k] ==> id !in members[l]
    ensures NoRepeats(NodeIds(AllReplies(outcomes)))
    ensures forall id :: id in NodeIds(AllReplies(outcomes)) ==> SomewhereIn(id, members)
  {
    if outcomes != [] {
      var n := |outcomes| - 1;
      DistinctReplies(outcomes[..n], members[..n]);
      var before, last := NodeIds(AllReplies(outcomes[..n])), NodeIds(RepliesIn(outcomes[n]));
      assert NodeIds(AllReplies(outcomes)) == before + last;
      forall id | id in before
        ensures SomewhereIn(id, members) && id !in members[n]
      {
        var k :| 0 <= k < n && id in members[..n][k];
        assert members[k] == members[..n][k];
      }
      NoRepeatsConcat(before, last);
    }
  }

  ghost function MemberIds(sites: seq<Site>, order: seq<nat>): (r: seq<set<string>>)
    requires ArrivalOrder(order, |sites|)
    ensures |r| == |sites| && forall i :: 0 <= i < |sites| ==> r[i] == Ids(sites[order[i]].nodes)
  {
    seq(|sites|, i requires 0 <= i < |sites| => Ids(sites[order[i]].nodes))
  }

  lemma {:induction false} NobodyTwice(sites: seq<Site>, calls: seq<Call>, k: nat, l: nat, id: string)
    requires Apart(sites, calls) && k < |sites| && l < |sites| && k != l && id in Ids(sites[k].nodes)
    ensures id !in Ids(sites[l].nodes)
  {
    var s :| s in sites[k].nodes && s.id == id;
    assert forall t :: t in sites[l].nodes ==> t.id != s.id;
  }

  /**
   Disjoint clusters, whatever their nodes went through before: in every arrival order, every collected
   reply comes from a different node.
   */
  lemma {:induction false} RepliersAreDistinct(sites: seq<Site>, calls: seq<Call>, order: seq<nat>)
    requires Apart(sites, calls) && ArrivalOrder(order, |sites|)
    ensures NoRepeats(NodeIds(AllReplies(InOrder(Outcomes(sites, calls), order))))
  {
    var arrived, members := InOrder(Outcomes(sites, calls), order), MemberIds(sites, order);
    forall i | 0 <= i < |arrived|
      ensures var ids := NodeIds(RepliesIn(arrived[i]));
              NoRepeats(ids) && forall id :: id in ids ==> id in members[i]
    {
      RepliersAreMembers(sites[order[i]].nodes, calls[order[i]], sites[order[i]].rule);
    }
    forall i, j, id | 0 <= i < j < |members| && id in members[i]
      ensures id !in members[j]
    {
      NobodyTwice(sites, calls, order[i], order[j], id);
    }
    DistinctReplies(arrived, members);
  }

  lemma {:induction false} DistinctRepliesOutside(replies: seq<Reply>, fGlobal: int, faulty: set<string>)
    requires NoRepeats(NodeIds(replies)) && HasQuorumGlobal(|replies|, fGlobal) && |faulty| <= fGlobal
    ensures exists r :: r in replies && r.nodeId !in faulty
  {
    var ids := NodeIds(replies);
    DistinctElements(ids);
    GlobalQuorumHasCorrectMember((set id | id in ids), faulty, fGlobal);
    var i :| 0 <= i < |ids| && ids[i] !in faulty;
    assert replies[i] in replies;
  }

  /** A committed global transition returns a reply from outside any f_global nodes. */
  lemma {:induction false} SomeReplierIsCorrect(
      sites: seq<Site>, calls: seq<Call>, order: seq<nat>, fGlobal: int, faulty: set<string>)
    requires Apart(sites, calls) && ArrivalOrder(order, |sites|) && |faulty| <= fGlobal
    requires Judge(InOrder(Outcomes(sites, calls), order), fGlobal).Succeeded?
    ensures exists r :: r in Judge(InOrder(Outcomes(sites, calls), order), fGlobal).replies && r.nodeId !in faulty
  {
    RepliersAreDistinct(sites, calls, order);
    DistinctRepliesOutside(AllReplies(InOrder(Outcomes(sites, calls), order)), fGlobal, faulty);
  }

  // ---- Equal, fully linked clusters ------------------------------------------------------

  function CompletedCount(outcomes: seq<Outcome>): nat {
    if outcomes == [] then 0
    else CompletedCount(outcomes[..|outcomes| - 1]) + (if outcomes[|outcomes| - 1].Replies? then 1 else 0)
  }

  /**
   A fully linked cluster that is large enough for its fault bound or, when it is not, has tallied and
   executed nothing ahead of its leader's counter.
   */
  ghost predicate Linked(site: Site, f: int) {
    && site.rule == Counting(f)
    && FullyLinked(site.nodes) && site.nodes[0].role == Leader
    && (Enough(|site.nodes|, f) || NothingAhead(site.nodes))
  }

  /** Linked clusters of n nodes each. */
  ghost predicate Equal(sites: seq<Site>, n: nat, f: int) {
    forall k :: 0 <= k < |sites| ==> |sites[k].nodes| == n > 0 && Linked(sites[k], f)
  }

  /** In a fully linked cluster a round is answered by everybody or by nobody. */
  lemma {:induction false} AllOrNothing(site: Site, call: Call, f: int)
    requires Linked(site, f)
    ensures OutcomeAt(site, call).Replies? <==> Uncancelled(call) && Enough(|site.nodes|, f)
    ensures |RepliesIn(OutcomeAt(site, call))| == if OutcomeAt(site, call).Replies? then |site.nodes| else 0
  {
    var c := site.nodes;
    if Enough(|c|, f) {
      LinkedRoundSucceedsIff(c, call, f);
      if Uncancelled(call) {
        LinkedRoundAnswered(c, call, f);
      }
    } else {
      LinkedCallSucceeds(c, [call], f, 0);
      assert [call][..0] == [];
    }
  }

  lemma {:induction false} RepliesPerCompletion(outcomes: seq<Outcome>, n: nat)
    requires forall k :: 0 <= k < |outcomes| ==> |RepliesIn(outcomes[k])| == if outcomes[k].Replies? then n else 0
    ensures |AllReplies(outcomes)| == n * CompletedCount(outcomes)
  {
    if outcomes != [] {
      RepliesPerCompletion(outcomes[..|outcomes| - 1], n);
      Distribute(n, CompletedCount(outcomes[..|outcomes| - 1]));
    }
  }

  lemma {:induction false} Distribute(n: nat, c: nat)
    ensures n * (c + 1) == n * c + n
  {}

  /** n*c replies reach floor((n*m - 1) / 3) + 1 exactly when 3c >= m. */
  lemma {:induction false} ThirdOfClusters(n: nat, m: nat, c: nat)
    requires n >= 1 && m >= 1
    ensures HasQuorumGlobal(n * c, FaultyThreshold(n * m)) <==> 3 * c >= m
  {
    assert n * m >= 1;
    if 3 * c >= m {
      assert n * (3 * c) >= n * m;
      assert n * (3 * c) == 3 * (n * c);
    } else {
      assert n * (3 * c + 1) <= n * m;
      assert n * (3 * c + 1) == 3 * (n * c) + n;
    }
  }

  /**
   With m equal, fully linked clusters and f_global computed from all their nodes, the transition
   commits, in whatever order the results arrive, exactly when at least a third of the clusters
   complete their round.
   */
  lemma {:induction false} CommitsIffThirdCompletes(
      sites: seq<Site>, calls: seq<Call>, order: seq<nat>, n: nat, f: int)
    requires |calls| == |sites| > 0 && ArrivalOrder(order, |sites|) && Equal(sites, n, f)
    ensures Judge(InOrder(Outcomes(sites, calls), order), FaultyThreshold(n * |sites|)).Succeeded? <==>
            3 * CompletedCount(Outcomes(sites, calls)) >= |sites|
  {
    forall k | 0 <= k < |sites|
      ensures |RepliesIn(Outcomes(sites, calls)[k])| == if Outcomes(sites, calls)[k].Replies? then n else 0
    {
      AllOrNothing(sites[k], calls[k], f);
    }
    RepliesPerCompletion(Outcomes(sites, calls), n);
    assert |sites[0].nodes| == n;
    ThirdOfClusters(n, |sites|, CompletedCount(Outcomes(sites, calls)));
    VerdictIgnoresArrival(Outcomes(sites, calls), order, FaultyThreshold(n * |sites|));
  }
}
