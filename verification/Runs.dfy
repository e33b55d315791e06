/**
 Any sequence of RunPBFT calls on one instance with a fixed leader, without reputation updates,
 each possibly cancelled at any of the three context checks.
 */
module Runs {
  import opened Prelude
  import opened Messages
  import opened Quorum
  import opened NodeModel
  import opened Round
  import opened QuorumSets

  // ---- What one call can touch -----------------------------------------------------------

  /** `t` is `s` after messages about `seqId` only. */
  ghost predicate TouchedOnly(s: NodeState, t: NodeState, seqId: int) {
    && SameIdentity(s, t)
    && t.seqId == s.seqId && t.knownReputations == s.knownReputations
    && t.reputation == s.reputation && t.baseReputation == s.baseReputation
    && (forall x :: x != seqId ==>
          && Tally(t.prepares, x) == Tally(s.prepares, x)
          && Tally(t.commits, x) == Tally(s.commits, x)
          && (x in t.executed <==> x in s.executed))
  }

  lemma {:induction false} PrepareTouchesOnly(s: NodeState, pp: Envelope, seqId: int)
    requires pp.body.seqId == seqId
    ensures TouchedOnly(s, PrepareNode(s, pp), seqId) && PrepareNode(s, pp).log == s.log
  {
    HandlersKeepIdentity(s, pp, 0, "");
  }

  lemma {:induction false} TallyTouchesOnly(s: NodeState, seqId: int, senders: set<string>)
    ensures TouchedOnly(s, WithPrepares(s, seqId, senders), seqId)
    ensures TouchedOnly(s, WithCommits(s, seqId, senders), seqId)
    ensures TouchedOnly(s, s, seqId)
  {}

  lemma {:induction false} CommitTouchesOnly(s: NodeState, envs: seq<Envelope>, seqId: int, rule: Rule)
    ensures TouchedOnly(s, CommitNode(s, envs, seqId, rule), seqId) && CommitNode(s, envs, seqId, rule).log == s.log
  {
    var t := WithHeardPrepares(s, envs, seqId, rule);
    TallyTouchesOnly(s, seqId, HeardFrom(s, envs, rule));
    TallyTouchesOnly(t, seqId, {s.id});
    TouchedTwice(s, t, CommitNode(s, envs, seqId, rule), seqId);
  }

  lemma {:induction false} ReplyTouchesOnly(
      s: NodeState, envs: seq<Envelope>, seqId: int, operation: string, rule: Rule)
    ensures TouchedOnly(s, ReplyNode(s, envs, seqId, operation, rule), seqId)
  {
    var t := WithHeardCommits(s, envs, seqId, rule);
    TallyTouchesOnly(s, seqId, HeardFrom(s, envs, rule));
    assert TouchedOnly(t, Applied(t, seqId, operation), seqId);
    TallyTouchesOnly(t, seqId, {});
    TouchedTwice(s, t, ReplyNode(s, envs, seqId, operation, rule), seqId);
  }

  lemma {:induction false} TouchedTwice(s: NodeState, t: NodeState, u: NodeState, seqId: int)
    requires TouchedOnly(s, t, seqId) && TouchedOnly(t, u, seqId)
    ensures TouchedOnly(s, u, seqId)
  {}

  /** Every state of the round machine on the way to its end. */
  ghost predicate OnTheWay(c: seq<NodeState>, r: RoundState, seqId: int) {
    && |r.nodes| == |c|
    && (forall i :: 0 <= i < |c| ==> TouchedOnly(c[i], r.nodes[i], seqId))
    && (r.progress.Announced? ==> r.progress.pp.body.seqId == seqId)
    && (r.progress.Prepared? || r.progress.Committed? ==> r.progress.seqId == seqId)
  }

  ghost predicate LogsKept(c: seq<NodeState>, d: seq<NodeState>) {
    |c| == |d| && forall i :: 0 <= i < |c| ==> d[i].log == c[i].log
  }

  lemma {:induction false} AdvanceOnTheWay(c: seq<NodeState>, r: RoundState, call: Call, rule: Rule, seqId: int)
    requires |c| > 0 && OnTheWay(c, r, seqId) && !r.progress.Ready?
    ensures var next := Advance(r, call, rule);
            && OnTheWay(c, next, seqId)
            && (!r.progress.Committed? ==> LogsKept(r.nodes, next.nodes))
  {
    var next := Advance(r, call, rule);
    forall i | 0 <= i < |c|
      ensures TouchedOnly(c[i], next.nodes[i], seqId)
              && (!r.progress.Committed? ==> next.nodes[i].log == r.nodes[i].log)
    {
      match r.progress {
        case Announced(pp) => PrepareTouchesOnly(r.nodes[i], pp, seqId);
        case Prepared(_, envs) => CommitTouchesOnly(r.nodes[i], envs, seqId, rule);
        case Committed(_, envs) => ReplyTouchesOnly(r.nodes[i], envs, seqId, call.operation, rule);
        case Done(_) =>
      }
      TouchedTwice(c[i], r.nodes[i], next.nodes[i], seqId);
    }
  }

  /** A cancelled call changes no log and fails; any call touches its own sequence number only. */
  lemma {:induction false} RoundFootprint(c: seq<NodeState>, r: RoundState, call: Call, rule: Rule, seqId: int)
    requires |c| > 0 && OnTheWay(c, r, seqId) && !r.progress.Ready?
    requires r.progress.Announced? ==> !call.ctx.beforeDelivery
    requires r.progress.Prepared? ==> !call.ctx.beforeDelivery && !call.ctx.afterPrepare
    requires r.progress.Committed? ==> Uncancelled(call)
    requires r.progress.Done? && !Uncancelled(call) ==> r.progress.outcome.Failed?
    ensures var end := RunToEnd(r, call, rule);
            && OnTheWay(c, end, seqId)
            && (!Uncancelled(call) ==> end.progress.outcome.Failed? && LogsKept(r.nodes, end.nodes))
    decreases PhasesLeft(r.progress)
  {
    if !r.progress.Done? {
      AdvanceOnTheWay(c, r, call, rule, seqId);
      RoundFootprint(c, Advance(r, call, rule), call, rule, seqId);
    }
  }

  /** A round touches its own sequence number only; a cancelled one fails and changes no log. */
  lemma {:induction false} RoundTouches(c: seq<NodeState>, call: Call, rule: Rule)
    requires |c| > 0
    ensures var a, r := Announce(c, call).nodes, RunRound(c, call, rule);
            && |r.nodes| == |c|
            && (forall i :: 0 <= i < |c| ==> TouchedOnly(a[i], r.nodes[i], c[0].seqId + 1))
            && (!Uncancelled(call) ==> r.progress.outcome.Failed? && LogsKept(c, r.nodes))
  {
    var a, r1 := Announce(c, call).nodes, Announce(c, call);
    assert RunRound(c, call, rule) == RunToEnd(r1, call, rule);
    RoundFootprint(a, r1, call, rule, c[0].seqId + 1);
  }

  // ---- Runs ------------------------------------------------------------------------------

  ghost function Play(c: seq<NodeState>, calls: seq<Call>, rule: Rule): (r: seq<NodeState>)
    requires |c| > 0
    ensures |r| == |c|
  {
    if calls == [] then c
    else RunRound(Play(c, calls[..|calls| - 1], rule), calls[|calls| - 1], rule).nodes
  }

  /** The operations of the calls that ran to their end, in order. */
  function Completed(calls: seq<Call>): seq<string> {
    if calls == [] then []
    else
      var last := calls[|calls| - 1];
      Completed(calls[..|calls| - 1]) + (if Uncancelled(last) then [last.operation] else [])
  }

  /** Nothing above the leader's counter has been tallied or executed by anyone. */
  ghost predicate NothingAhead(c: seq<NodeState>) {
    |c| > 0 && forall i, x :: 0 <= i < |c| && x > c[0].seqId ==> Fresh(c[i], x)
  }

  ghost predicate Runnable(c: seq<NodeState>, rule: Rule) {
    && |c| > 0 && DistinctIds(c) && c[0].role == Leader && NothingAhead(c)
    && forall i :: 0 <= i < |c| ==> Weighable(c[i], rule)
  }

  lemma {:induction false} RunnableReady(c: seq<NodeState>, rule: Rule)
    requires Runnable(c, rule)
    ensures ReadyFor(c, rule)
  {}

  ghost predicate SameScores(c: seq<NodeState>, d: seq<NodeState>) {
    && |c| == |d|
    && forall i :: 0 <= i < |c| ==> d[i].reputation == c[i].reputation && d[i].baseReputation == c[i].baseReputation
  }

  lemma {:induction false} StillRunnable(c: seq<NodeState>, d: seq<NodeState>, rule: Rule)
    requires Runnable(c, rule) && |d| == |c|
    requires forall i :: 0 <= i < |c| ==> TouchedOnly(Started(c)[i], d[i], c[0].seqId + 1)
    ensures Runnable(d, rule) && SameElectorate(c, d) && SameScores(c, d) && d[0].seqId == c[0].seqId + 1
  {
    var a := Started(c);
    forall i | 0 <= i < |c|
      ensures SameIdentity(c[i], d[i]) && d[i].knownReputations == c[i].knownReputations
      ensures d[i].reputation == c[i].reputation && d[i].baseReputation == c[i].baseReputation
      ensures forall x :: x > c[0].seqId + 1 ==> Fresh(d[i], x)
    {
      assert TouchedOnly(a[i], d[i], c[0].seqId + 1);
      forall x | x > c[0].seqId + 1
        ensures Fresh(d[i], x)
      {
        assert Fresh(c[i], x);
      }
    }
    assert TouchedOnly(a[0], d[0], c[0].seqId + 1);
  }

  lemma {:induction false} OneCall(c: seq<NodeState>, call: Call, rule: Rule)
    requires Runnable(c, rule)
    ensures var r := RunRound(c, call, rule);
            && Runnable(r.nodes, rule) && SameElectorate(c, r.nodes) && SameScores(c, r.nodes)
            && r.nodes[0].seqId == c[0].seqId + 1
            && (!Uncancelled(call) ==> r.progress.outcome.Failed? && LogsKept(c, r.nodes))
  {
    RoundTouches(c, call, rule);
    StillRunnable(c, RunRound(c, call, rule).nodes, rule);
  }

  lemma {:induction false} ElectorateTransitive(c: seq<NodeState>, d: seq<NodeState>, e: seq<NodeState>)
    requires SameElectorate(c, d) && SameElectorate(d, e)
    ensures SameElectorate(c, e)
  {
    forall i | 0 <= i < |c|
      ensures SameIdentity(c[i], e[i])
    {
      assert SameIdentity(c[i], d[i]) && SameIdentity(d[i], e[i]);
    }
  }

  /** Whatever the calls, no sequence number above the leader's counter is ever tallied or executed. */
  lemma {:induction false} RunsStayFresh(c: seq<NodeState>, calls: seq<Call>, rule: Rule)
    requires Runnable(c, rule)
    ensures Runnable(Play(c, calls, rule), rule) && SameElectorate(c, Play(c, calls, rule))
    ensures Play(c, calls, rule)[0].seqId == c[0].seqId + |calls|
  {
    if calls != [] {
      var before := calls[..|calls| - 1];
      RunsStayFresh(c, before, rule);
      OneCall(Play(c, before, rule), calls[|calls| - 1], rule);
      ElectorateTransitive(c, Play(c, before, rule), Play(c, calls, rule));
    }
  }

  lemma {:induction false} OneCallLog(d: seq<NodeState>, call: Call, rule: Rule, i: nat)
    requires Runnable(d, rule) && i < |d|
    ensures RunRound(d, call, rule).nodes[i].log ==
            d[i].log + (if Replying(d, d[i], rule) && Uncancelled(call) then [call.operation] else [])
  {
    if Uncancelled(call) {
      RunnableReady(d, rule);
      RoundLogs(d, call, rule, i);
    } else {
      OneCall(d, call, rule);
    }
  }

  lemma {:induction false} GrowTwice(log: seq<string>, grows: bool, first: seq<string>, second: seq<string>)
    ensures log + (if grows then first else []) + (if grows then second else []) ==
            log + (if grows then first + second else [])
  {}

  /**
   For any key knowledge and any views: the set of nodes that reply is the same in every call, the
   logs of exactly those nodes grow, and they all grow by the operations of the completed calls.
   */
  lemma {:induction false} RunLogs(c: seq<NodeState>, calls: seq<Call>, rule: Rule, i: nat)
    requires Runnable(c, rule) && i < |c|
    ensures Play(c, calls, rule)[i].log == c[i].log + (if Replying(c, c[i], rule) then Completed(calls) else [])
  {
    if calls != [] {
      var before, last := calls[..|calls| - 1], calls[|calls| - 1];
      RunLogs(c, before, rule, i);
      RunsStayFresh(c, before, rule);
      var d := Play(c, before, rule);
      ReplyingStable(c, d, i, rule);
      OneCallLog(d, last, rule, i);
      GrowTwice(c[i].log, Replying(c, c[i], rule), Completed(before),
                if Uncancelled(last) then [last.operation] else []);
    }
  }

  /** The call at position `k` succeeds exactly when it is not cancelled and somebody replies at all. */
  lemma {:induction false} CallSucceeds(c: seq<NodeState>, calls: seq<Call>, rule: Rule, k: nat)
    requires Runnable(c, rule) && k < |calls|
    ensures RunRound(Play(c, calls[..k], rule), calls[k], rule).progress.outcome.Replies? <==>
            Uncancelled(calls[k]) && SomeoneReplies(c, rule)
  {
    RunsStayFresh(c, calls[..k], rule);
    var d := Play(c, calls[..k], rule);
    SomeoneRepliesStable(c, d, rule);
    if Uncancelled(calls[k]) {
      RunnableReady(d, rule);
      RoundOutcome(d, calls[k], rule);
    } else {
      OneCall(d, calls[k], rule);
    }
  }

  lemma {:induction false} SomeoneRepliesStable(c: seq<NodeState>, d: seq<NodeState>, rule: Rule)
    requires SameElectorate(c, d) && |c| > 0
    ensures SomeoneReplies(c, rule) == SomeoneReplies(d, rule)
  {
    forall i | 0 <= i < |c|
      ensures Replying(c, c[i], rule) == Replying(d, d[i], rule)
    {
      ReplyingStable(c, d, i, rule);
    }
  }

  // ---- Fully linked clusters -------------------------------------------------------------

  ghost predicate FullyLinked(c: seq<NodeState>) {
    && |c| > 0 && DistinctIds(c)
    && (forall i, j :: 0 <= i < |c| && 0 <= j < |c| ==> Trusts(c[i], c[j].id, c[j].pubKey))
    && (forall i :: 0 <= i < |c| ==> c[i].view == c[0].view)
  }

  lemma {:induction false} LinkedHears(c: seq<NodeState>, s: NodeState, t: NodeState, f: int)
    requires FullyLinked(c) && s in c && t in c
    ensures Accepting(c, t) && Hears(c, s, t, Counting(f)) == (t.id != s.id)
  {
    var i :| 0 <= i < |c| && c[i] == s;
    var j :| 0 <= j < |c| && c[j] == t;
  }

  lemma {:induction false} LinkedCommitting(c: seq<NodeState>, s: NodeState, f: int)
    requires FullyLinked(c) && s in c
    ensures PrepareTally(c, s, Counting(f)) == Ids(c)
    ensures Committing(c, s, Counting(f)) <==> Enough(|c|, f)
  {
    forall t | t in c
      ensures Accepting(c, t) && Hears(c, s, t, Counting(f)) == (t.id != s.id)
    {
      LinkedHears(c, s, t, f);
    }
    assert PreparesHeard(c, s, Counting(f)) == Ids(c) - {s.id};
    IdCount(c);
  }

  predicate Enough(n: nat, f: int) {
    n >= 2 && n >= 2 * f + 1
  }

  lemma {:induction false} LinkedCommitHeardOne(c: seq<NodeState>, s: NodeState, f: int, id: string)
    requires FullyLinked(c) && s in c
    ensures id in CommitsHeard(c, s, Counting(f)) <==> Enough(|c|, f) && id in Ids(c) && id != s.id
  {
    if id in CommitsHeard(c, s, Counting(f)) {
      var t :| t in c && Committing(c, t, Counting(f)) && Hears(c, s, t, Counting(f)) && t.id == id;
      LinkedCommitting(c, t, f);
      LinkedHears(c, s, t, f);
    }
    if Enough(|c|, f) && id in Ids(c) && id != s.id {
      var t :| t in c && t.id == id;
      LinkedCommitting(c, t, f);
      LinkedHears(c, s, t, f);
    }
  }

  lemma {:induction false} LinkedCommitsHeard(c: seq<NodeState>, s: NodeState, f: int)
    requires FullyLinked(c) && s in c
    ensures CommitsHeard(c, s, Counting(f)) == if Enough(|c|, f) then Ids(c) - {s.id} else {}
  {
    var heard, all := CommitsHeard(c, s, Counting(f)), Ids(c);
    forall id
      ensures id in heard <==> Enough(|c|, f) && id in all && id != s.id
    {
      LinkedCommitHeardOne(c, s, f, id);
    }
  }

  /** With everyone linked and in one view, all nodes reply when n >= max(2, 2f+1), and nobody otherwise. */
  lemma {:induction false} LinkedReplying(c: seq<NodeState>, s: NodeState, f: int)
    requires FullyLinked(c) && s in c
    ensures Replying(c, s, Counting(f)) <==> Enough(|c|, f)
  {
    LinkedCommitsHeard(c, s, f);
    LinkedCommitting(c, s, f);
    IdCount(c);
    if Enough(|c|, f) {
      assert CommitTally(c, s, Counting(f)) == Ids(c);
      assert |Ids(c) - {s.id}| == |c| - 1;
    }
  }

  /**
   On a fully linked instance whose logs start equal, all logs stay equal through any sequence of
   calls and equal the operations of the successful calls in order.
   */
  lemma {:induction false} LinkedLogsAgree(c: seq<NodeState>, calls: seq<Call>, f: int, start: seq<string>)
    requires Runnable(c, Counting(f)) && FullyLinked(c)
    requires forall i :: 0 <= i < |c| ==> c[i].log == start
    ensures forall i :: 0 <= i < |c| ==>
              Play(c, calls, Counting(f))[i].log == start + (if Enough(|c|, f) then Completed(calls) else [])
  {
    forall i | 0 <= i < |c|
      ensures Play(c, calls, Counting(f))[i].log == start + (if Enough(|c|, f) then Completed(calls) else [])
    {
      RunLogs(c, calls, Counting(f), i);
      LinkedReplying(c, c[i], f);
    }
  }

  /** A call that is not cancelled succeeds exactly when the cluster has at least max(2, 2f+1) nodes. */
  lemma {:induction false} LinkedCallSucceeds(c: seq<NodeState>, calls: seq<Call>, f: int, k: nat)
    requires Runnable(c, Counting(f)) && FullyLinked(c) && k < |calls|
    ensures RunRound(Play(c, calls[..k], Counting(f)), calls[k], Counting(f)).progress.outcome.Replies? <==>
            Uncancelled(calls[k]) && Enough(|c|, f)
  {
    CallSucceeds(c, calls, Counting(f), k);
    LinkedReplying(c, c[0], f);
    if SomeoneReplies(c, Counting(f)) {
      var i :| 0 <= i < |c| && Replying(c, c[i], Counting(f));
      LinkedReplying(c, c[i], f);
    }
  }
}
