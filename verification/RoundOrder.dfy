/**
 The delivery loops visit the nodes in the order in which the instance lists them, and messages queue
 up in that order. A round on the same nodes in another order, under the same leader, ends the same way.
 */
module RoundOrder {
  import opened Prelude
  import opened Messages
  import opened NodeModel
  import opened Round
  import opened QuorumSets

  ghost predicate SameMembers<T(!new)>(a: seq<T>, b: seq<T>) {
    forall x :: x in a <==> x in b
  }

  /** The same nodes in possibly another order, with the same leader in front. */
  ghost predicate Reordered(c: seq<NodeState>, d: seq<NodeState>) {
    |c| > 0 && |d| > 0 && DistinctIds(c) && DistinctIds(d) && c[0] == d[0] && SameMembers(c, d)
  }

  /** What `x` holds for a node of `c`, `y` holds for the same node of `d`. */
  ghost predicate Corresponds<T(!new)>(c: seq<NodeState>, d: seq<NodeState>, x: seq<T>, y: seq<T>) {
    && |x| == |c| && |y| == |d|
    && forall i, j :: 0 <= i < |c| && 0 <= j < |d| && c[i] == d[j] ==> x[i] == y[j]
  }

  // ---- One node --------------------------------------------------------------------------

  lemma {:induction false} HeardFromSame(s: NodeState, a: seq<Envelope>, b: seq<Envelope>, rule: Rule)
    requires SameMembers(a, b)
    ensures HeardFrom(s, a, rule) == HeardFrom(s, b, rule)
  {
    forall id
      ensures id in HeardFrom(s, a, rule) <==> id in HeardFrom(s, b, rule)
    {
      if id in HeardFrom(s, a, rule) {
        var e :| e in a && Heard(s, e, rule) && e.sender == id;
        assert e in b;
      }
      if id in HeardFrom(s, b, rule) {
        var e :| e in b && Heard(s, e, rule) && e.sender == id;
        assert e in a;
      }
    }
  }

  lemma {:induction false} CompletesSame(
      s: NodeState, tally: set<string>, a: seq<Envelope>, b: seq<Envelope>, rule: Rule)
    requires SameMembers(a, b) && Weighable(s, rule)
    ensures Completes(s, tally, a, rule) == Completes(s, tally, b, rule)
  {
    HeardFromSame(s, a, b, rule);
    CompletesIffFinalQuorum(s, tally, a, rule);
    CompletesIffFinalQuorum(s, tally, b, rule);
  }

  lemma {:induction false} CommitSame(
      s: NodeState, a: seq<Envelope>, b: seq<Envelope>, seqId: int, operation: string, rule: Rule)
    requires SameMembers(a, b) && Weighable(s, rule)
    ensures CommitNode(s, a, seqId, rule) == CommitNode(s, b, seqId, rule)
    ensures CommitMsg(s, a, seqId, operation, rule) == CommitMsg(s, b, seqId, operation, rule)
  {
    HeardFromSame(s, a, b, rule);
    CompletesSame(s, Tally(s.prepares, seqId), a, b, rule);
  }

  lemma {:induction false} ReplyNodeSame(
      s: NodeState, a: seq<Envelope>, b: seq<Envelope>, seqId: int, operation: string, rule: Rule)
    requires SameMembers(a, b) && Weighable(s, rule)
    ensures ReplyNode(s, a, seqId, operation, rule) == ReplyNode(s, b, seqId, operation, rule)
  {
    HeardFromSame(s, a, b, rule);
    CompletesSame(s, Tally(s.commits, seqId), a, b, rule);
  }

  function IdOf(r: Option<Reply>): Option<string> {
    if r.Some? then Some(r.value.nodeId) else None
  }

  /**
   The reply carries the view of the Commit that completed the quorum. Authenticated Commits are all of
   the node's own view; weighed ones need not be.
   */
  lemma {:induction false} ReplySame(
      s: NodeState, a: seq<Envelope>, b: seq<Envelope>, seqId: int, call: Call, rule: Rule)
    requires SameMembers(a, b) && Weighable(s, rule)
    ensures IdOf(ReplyMsg(s, a, seqId, call, rule)) == IdOf(ReplyMsg(s, b, seqId, call, rule))
    ensures rule.Counting? ==> ReplyMsg(s, a, seqId, call, rule) == ReplyMsg(s, b, seqId, call, rule)
  {
    CompletesSame(s, Tally(s.commits, seqId), a, b, rule);
  }

  // ---- All nodes -------------------------------------------------------------------------

  lemma {:induction false} SlotsWithin<T(!new)>(
      c: seq<NodeState>, d: seq<NodeState>, x: seq<Option<T>>, y: seq<Option<T>>, v: T)
    requires SameMembers(c, d) && Corresponds(c, d, x, y) && v in Gather(x)
    ensures v in Gather(y)
  {
    GatherMembers(x);
    GatherMembers(y);
    var i :| 0 <= i < |x| && x[i] == Some(v);
    assert c[i] in d;
    var j :| 0 <= j < |d| && d[j] == c[i];
    assert y[j] == Some(v);
  }

  lemma {:induction false} CorrespondingMessages<T(!new)>(
      c: seq<NodeState>, d: seq<NodeState>, x: seq<Option<T>>, y: seq<Option<T>>)
    requires SameMembers(c, d) && Corresponds(c, d, x, y)
    ensures SameMembers(Gather(x), Gather(y))
    ensures Gather(x) == [] <==> Gather(y) == []
  {
    forall v
      ensures v in Gather(x) <==> v in Gather(y)
    {
      if v in Gather(x) {
        SlotsWithin(c, d, x, y, v);
      }
      if v in Gather(y) {
        assert Corresponds(d, c, y, x);
        SlotsWithin(d, c, y, x, v);
      }
    }
    if Gather(x) != [] {
      assert Gather(x)[0] in Gather(y);
    }
    if Gather(y) != [] {
      assert Gather(y)[0] in Gather(x);
    }
  }

  ghost predicate SameOutcome(o: Outcome, p: Outcome, rule: Rule) {
    match (o, p)
    case (Failed(why), Failed(other)) => why == other
    case (Replies(a), Replies(b)) => SameMembers(NodeIds(a), NodeIds(b)) && (rule.Counting? ==> SameMembers(a, b))
    case _ => false
  }

  ghost predicate SameProgress(p: Progress, q: Progress, rule: Rule) {
    match (p, q)
    case (Ready, Ready) => true
    case (Announced(pp), Announced(other)) => pp == other
    case (Prepared(seqId, a), Prepared(other, b)) => seqId == other && SameMembers(a, b)
    case (Committed(seqId, a), Committed(other, b)) => seqId == other && SameMembers(a, b)
    case (Done(o), Done(other)) => SameOutcome(o, other, rule)
    case _ => false
  }

  /** Round states on `c` and on `d` that differ by the order of nodes and messages only. */
  ghost predicate Mirrors(c: seq<NodeState>, d: seq<NodeState>, r: RoundState, q: RoundState, rule: Rule) {
    && Corresponds(c, d, r.nodes, q.nodes) && SameProgress(r.progress, q.progress, rule)
    && (forall i :: 0 <= i < |r.nodes| ==> Weighable(r.nodes[i], rule))
  }

  lemma {:induction false} StartMirrors(c: seq<NodeState>, d: seq<NodeState>, call: Call, rule: Rule)
    requires Reordered(c, d) && forall i :: 0 <= i < |c| ==> Weighable(c[i], rule)
    ensures Mirrors(c, d, Announce(c, call), Announce(d, call), rule)
  {
    var r, q := Announce(c, call), Announce(d, call);
    forall i, j | 0 <= i < |c| && 0 <= j < |d| && c[i] == d[j]
      ensures r.nodes[i] == q.nodes[j]
    {
      assert i == 0 <==> j == 0;
    }
  }

  lemma {:induction false} PreparePhaseMirrors(
      c: seq<NodeState>, d: seq<NodeState>, a: seq<NodeState>, b: seq<NodeState>, pp: Envelope, call: Call, rule: Rule)
    requires SameMembers(c, d) && Corresponds(c, d, a, b) && forall i :: 0 <= i < |a| ==> Weighable(a[i], rule)
    ensures Mirrors(c, d, PreparePhase(a, pp, call), PreparePhase(b, pp, call), rule)
  {
    assert Corresponds(c, d, PrepareNodes(a, pp), PrepareNodes(b, pp));
    CorrespondingMessages(c, d, PrepareMsgs(a, pp), PrepareMsgs(b, pp));
  }

  lemma {:induction false} CommitPhaseMirrors(
      c: seq<NodeState>, d: seq<NodeState>, a: seq<NodeState>, b: seq<NodeState>,
      seqId: int, x: seq<Envelope>, y: seq<Envelope>, call: Call, rule: Rule)
    requires SameMembers(c, d) && Corresponds(c, d, a, b) && SameMembers(x, y)
    requires forall i :: 0 <= i < |a| ==> Weighable(a[i], rule)
    ensures Mirrors(c, d, CommitPhase(a, seqId, x, call, rule), CommitPhase(b, seqId, y, call, rule), rule)
  {
    var r, q := CommitPhase(a, seqId, x, call, rule), CommitPhase(b, seqId, y, call, rule);
    var msgs, others := CommitMsgs(a, x, seqId, call.operation, rule), CommitMsgs(b, y, seqId, call.operation, rule);
    forall i, j | 0 <= i < |c| && 0 <= j < |d| && c[i] == d[j]
      ensures r.nodes[i] == q.nodes[j] && msgs[i] == others[j]
    {
      CommitSame(a[i], x, y, seqId, call.operation, rule);
    }
    CorrespondingMessages(c, d, msgs, others);
  }

  function IdSlots(msgs: seq<Option<Reply>>): (r: seq<Option<string>>)
    ensures |r| == |msgs| && forall i :: 0 <= i < |r| ==> r[i] == IdOf(msgs[i])
  {
    seq(|msgs|, i requires 0 <= i < |msgs| => IdOf(msgs[i]))
  }

  lemma {:induction false} RepliesMirror(
      c: seq<NodeState>, d: seq<NodeState>, msgs: seq<Option<Reply>>, others: seq<Option<Reply>>, rule: Rule)
    requires SameMembers(c, d) && Corresponds(c, d, IdSlots(msgs), IdSlots(others))
    requires rule.Counting? ==> Corresponds(c, d, msgs, others)
    ensures SameMembers(NodeIds(Gather(msgs)), NodeIds(Gather(others)))
    ensures Gather(msgs) == [] <==> Gather(others) == []
    ensures rule.Counting? ==> SameMembers(Gather(msgs), Gather(others))
  {
    GatherReplies(msgs, IdSlots(msgs));
    GatherReplies(others, IdSlots(others));
    CorrespondingMessages(c, d, IdSlots(msgs), IdSlots(others));
    assert |NodeIds(Gather(msgs))| == |Gather(msgs)| && |NodeIds(Gather(others))| == |Gather(others)|;
    if rule.Counting? {
      CorrespondingMessages(c, d, msgs, others);
    }
  }

  lemma {:induction false} ReplyPhaseMirrors(
      c: seq<NodeState>, d: seq<NodeState>, a: seq<NodeState>, b: seq<NodeState>,
      seqId: int, x: seq<Envelope>, y: seq<Envelope>, call: Call, rule: Rule)
    requires SameMembers(c, d) && Corresponds(c, d, a, b) && SameMembers(x, y)
    requires forall i :: 0 <= i < |a| ==> Weighable(a[i], rule)
    ensures Mirrors(c, d, ReplyPhase(a, seqId, x, call, rule), ReplyPhase(b, seqId, y, call, rule), rule)
  {
    var r, q := ReplyPhase(a, seqId, x, call, rule), ReplyPhase(b, seqId, y, call, rule);
    var msgs, others := ReplyMsgs(a, x, seqId, call, rule), ReplyMsgs(b, y, seqId, call, rule);
    forall i, j | 0 <= i < |c| && 0 <= j < |d| && c[i] == d[j]
      ensures r.nodes[i] == q.nodes[j] && IdSlots(msgs)[i] == IdSlots(others)[j]
      ensures rule.Counting? ==> msgs[i] == others[j]
    {
      ReplyNodeSame(a[i], x, y, seqId, call.operation, rule);
      ReplySame(a[i], x, y, seqId, call, rule);
    }
    RepliesMirror(c, d, msgs, others, rule);
  }

  lemma {:induction false} AdvanceMirrors(
      c: seq<NodeState>, d: seq<NodeState>, r: RoundState, q: RoundState, call: Call, rule: Rule)
    requires Reordered(c, d) && Mirrors(c, d, r, q, rule) && !r.progress.Ready?
    ensures Mirrors(c, d, Advance(r, call, rule), Advance(q, call, rule), rule)
  {
    match r.progress {
      case Announced(pp) => PreparePhaseMirrors(c, d, r.nodes, q.nodes, pp, call, rule);
      case Prepared(seqId, x) => CommitPhaseMirrors(c, d, r.nodes, q.nodes, seqId, x, q.progress.prepares, call, rule);
      case Committed(seqId, x) => ReplyPhaseMirrors(c, d, r.nodes, q.nodes, seqId, x, q.progress.commits, call, rule);
      case Done(_) =>
    }
  }

  lemma {:induction false} EndMirrors(
      c: seq<NodeState>, d: seq<NodeState>, r: RoundState, q: RoundState, call: Call, rule: Rule)
    requires Reordered(c, d) && Mirrors(c, d, r, q, rule) && !r.progress.Ready?
    ensures Mirrors(c, d, RunToEnd(r, call, rule), RunToEnd(q, call, rule), rule)
    decreases PhasesLeft(r.progress)
  {
    if !r.progress.Done? {
      AdvanceMirrors(c, d, r, q, call, rule);
      EndMirrors(c, d, Advance(r, call, rule), Advance(q, call, rule), call, rule);
    }
  }

  /**
   The order in which an instance lists its replicas does not show: every node ends in the same state,
   the round succeeds or fails alike and for the same reason, and the same nodes reply, with the same
   replies when quorums are counted.
   */
  lemma {:induction false} OrderOfNodesIrrelevant(c: seq<NodeState>, d: seq<NodeState>, call: Call, rule: Rule)
    requires Reordered(c, d) && forall i :: 0 <= i < |c| ==> Weighable(c[i], rule)
    ensures Corresponds(c, d, RunRound(c, call, rule).nodes, RunRound(d, call, rule).nodes)
    ensures SameOutcome(RunRound(c, call, rule).progress.outcome, RunRound(d, call, rule).progress.outcome, rule)
  {
    StartMirrors(c, d, call, rule);
    EndMirrors(c, d, Announce(c, call), Announce(d, call), call, rule);
    OnePhase(RoundState(c, Ready), Announce(c, call), call, rule);
    OnePhase(RoundState(d, Ready), Announce(d, call), call, rule);
  }
}
