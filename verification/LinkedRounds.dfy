/**
 Rounds on nodes with any past: tallies and executed numbers left behind by other leaders, such as
 those of a cluster that re-clustering has just put together. Only the leader's counter decides which
 sequence number such a round uses.
 */
module LinkedRounds {
  import opened Prelude
  import opened Messages
  import opened Quorum
  import opened NodeModel
  import opened Round
  import opened QuorumSets
  import opened Runs

  // ---- Who replies -----------------------------------------------------------------------

  ghost predicate SameIds(c: seq<NodeState>, d: seq<NodeState>) {
    |c| == |d| && forall i :: 0 <= i < |c| ==> c[i].id == d[i].id
  }

  /** If there are replies, they come from pairwise distinct members of `c`. */
  ghost predicate FromMembers(c: seq<NodeState>, o: Outcome) {
    o.Replies? ==> NoRepeats(NodeIds(o.replies)) && forall id :: id in NodeIds(o.replies) ==> id in Ids(c)
  }

  lemma {:induction false} GatheredIds(slots: seq<Option<string>>, c: seq<NodeState>)
    requires |slots| == |c| && DistinctIds(c)
    requires forall i :: 0 <= i < |c| ==> slots[i] == None || slots[i] == Some(c[i].id)
    ensures NoRepeats(Gather(slots))
    ensures forall id :: id in Gather(slots) ==> id in Ids(c)
  {
    if slots != [] {
      var n := |slots| - 1;
      GatheredIds(slots[..n], c[..n]);
      assert c == c[..n] + [c[n]];
      assert c[n].id !in Ids(c[..n]);
    }
  }

  lemma {:induction false} ReplyPhaseFromMembers(
      c: seq<NodeState>, seqId: int, envs: seq<Envelope>, call: Call, rule: Rule)
    requires DistinctIds(c)
    ensures FromMembers(c, ReplyPhase(c, seqId, envs, call, rule).progress.outcome)
  {
    var msgs := ReplyMsgs(c, envs, seqId, call, rule);
    var slots: seq<Option<string>> :=
      seq(|c|, i requires 0 <= i < |c| => if msgs[i].Some? then Some(c[i].id) else None);
    GatherReplies(msgs, slots);
    GatheredIds(slots, c);
  }

  lemma {:induction false} PhasesKeepId(
      s: NodeState, pp: Envelope, envs: seq<Envelope>, seqId: int, operation: string, rule: Rule)
    ensures AfterStart(s).id == PrepareNode(s, pp).id == s.id
    ensures CommitNode(s, envs, seqId, rule).id == ReplyNode(s, envs, seqId, operation, rule).id == s.id
  {}

  lemma {:induction false} AdvanceKeepsIds(r: RoundState, call: Call, rule: Rule)
    requires Staffed(r)
    ensures SameIds(r.nodes, Advance(r, call, rule).nodes)
  {
    var next := Advance(r, call, rule).nodes;
    forall i | 0 <= i < |r.nodes|
      ensures next[i].id == r.nodes[i].id
    {
      match r.progress {
        case Announced(pp) => PhasesKeepId(r.nodes[i], pp, [], 0, "", rule);
        case Prepared(seqId, envs) =>
          PhasesKeepId(r.nodes[i], PrePrepareEnvelope(r.nodes[0], 0, ""), envs, seqId, "", rule);
        case Committed(seqId, envs) =>
          PhasesKeepId(r.nodes[i], PrePrepareEnvelope(r.nodes[0], 0, ""), envs, seqId, call.operation, rule);
        case _ =>
      }
    }
  }

  lemma {:induction false} SameIdsSameMembers(c: seq<NodeState>, d: seq<NodeState>)
    requires SameIds(c, d)
    ensures DistinctIds(c) == DistinctIds(d)
    ensures Ids(c) == Ids(d)
  {
    forall id
      ensures id in Ids(c) <==> id in Ids(d)
    {
      if id in Ids(c) {
        var i :| 0 <= i < |c| && c[i].id == id;
        assert d[i] in d;
      }
      if id in Ids(d) {
        var i :| 0 <= i < |d| && d[i].id == id;
        assert c[i] in c;
      }
    }
  }

  lemma {:induction false} AdvanceFromMembers(r: RoundState, call: Call, rule: Rule)
    requires Staffed(r) && DistinctIds(r.nodes) && !r.progress.Done?
    ensures var next := Advance(r, call, rule);
            next.progress.Done? ==> FromMembers(r.nodes, next.progress.outcome)
  {
    if r.progress.Committed? {
      ReplyPhaseFromMembers(r.nodes, r.progress.seqId, r.progress.commits, call, rule);
    }
  }

  lemma {:induction false} EndFromMembers(r: RoundState, call: Call, rule: Rule)
    requires Staffed(r) && DistinctIds(r.nodes)
    requires r.progress.Done? ==> FromMembers(r.nodes, r.progress.outcome)
    ensures FromMembers(r.nodes, RunToEnd(r, call, rule).progress.outcome)
    decreases PhasesLeft(r.progress)
  {
    if !r.progress.Done? {
      var next := Advance(r, call, rule);
      AdvanceKeepsIds(r, call, rule);
      SameIdsSameMembers(r.nodes, next.nodes);
      AdvanceFromMembers(r, call, rule);
      EndFromMembers(next, call, rule);
    }
  }

  /** Whatever its nodes went through before, a round's replies come from pairwise distinct members. */
  lemma {:induction false} RepliersAreMembers(c: seq<NodeState>, call: Call, rule: Rule)
    requires |c| > 0 && DistinctIds(c)
    ensures FromMembers(c, RunRound(c, call, rule).progress.outcome)
  {
    EndFromMembers(RoundState(c, Ready), call, rule);
  }

  // ---- Fully linked rounds ---------------------------------------------------------------

  lemma {:induction false} StartedLinked(c: seq<NodeState>)
    requires FullyLinked(c)
    ensures FullyLinked(Started(c)) && SameElectorate(c, Started(c))
  {
    var a := Started(c);
    forall i, j | 0 <= i < |a| && 0 <= j < |a|
      ensures Trusts(a[i], a[j].id, a[j].pubKey)
    {
      assert Trusts(c[i], c[j].id, c[j].pubKey);
    }
  }

  /** Everyone but the node itself. */
  lemma {:induction false} OthersHeard(a: seq<NodeState>, s: NodeState, f: int)
    requires FullyLinked(a) && s in a
    ensures PreparesHeard(a, s, Counting(f)) == Ids(a) - {s.id}
  {
    forall t | t in a
      ensures Accepting(a, t) && Hears(a, s, t, Counting(f)) == (t.id != s.id)
    {
      LinkedHears(a, s, t, f);
    }
  }

  /** A tally that holds all members is a quorum, whatever else it holds. */
  lemma {:induction false} AllMembersSuffice(a: seq<NodeState>, s: NodeState, senders: set<string>, f: int)
    requires DistinctIds(a) && s in a && Enough(|a|, f) && Ids(a) <= senders
    ensures QuorumMet(s, senders, Counting(f)) && Ids(a) - {s.id} != {}
  {
    IdCount(a);
    SubsetSize(Ids(a), senders);
    assert |Ids(a) - {s.id}| == |a| - 1;
  }

  /** In phase 3 every node sends its Commit. */
  lemma {:induction false} LinkedCommits(a: seq<NodeState>, pp: Envelope, seqId: int, operation: string, i: nat, f: int)
    requires FullyLinked(a) && Enough(|a|, f) && AnnouncedBy(a, pp, seqId, operation) && i < |a|
    ensures CommitMsg(PrepareNode(a[i], pp), Gather(PrepareMsgs(a, pp)), seqId, operation, Counting(f))
            == Some(CommitOf(a[i], seqId, operation))
  {
    var s, envs, rule := PrepareNode(a[i], pp), Gather(PrepareMsgs(a, pp)), Counting(f);
    PrepareNodeRecords(a[i], pp, seqId);
    PreparesHeardExactly(a, pp, seqId, operation, i, rule);
    OthersHeard(a, a[i], f);
    LinkedHears(a, a[i], a[i], f);
    AllMembersSuffice(a, a[i], Tally(s.prepares, seqId) + HeardFrom(s, envs, rule), f);
    CompletesIffFinalQuorum(s, Tally(s.prepares, seqId), envs, rule);
  }

  lemma {:induction false} LinkedCommitTraffic(
      a: seq<NodeState>, pp: Envelope, seqId: int, operation: string, f: int, e: Envelope)
    requires FullyLinked(a) && Enough(|a|, f) && AnnouncedBy(a, pp, seqId, operation)
    ensures e in CommitTraffic(a, pp, seqId, operation, Counting(f)) <==>
            exists t :: t in a && e == CommitOf(t, seqId, operation)
  {
    var msgs := CommitMsgs(PrepareNodes(a, pp), Gather(PrepareMsgs(a, pp)), seqId, operation, Counting(f));
    GatherMembers(msgs);
    forall i | 0 <= i < |a|
      ensures msgs[i] == Some(CommitOf(a[i], seqId, operation))
    {
      LinkedCommits(a, pp, seqId, operation, i, f);
    }
    EveryoneIn(a, msgs, seqId, operation, e);
  }

  lemma {:induction false} EveryoneIn(
      a: seq<NodeState>, msgs: seq<Option<Envelope>>, seqId: int, operation: string, e: Envelope)
    requires |msgs| == |a| && forall i :: 0 <= i < |a| ==> msgs[i] == Some(CommitOf(a[i], seqId, operation))
    ensures Some(e) in msgs <==> exists t :: t in a && e == CommitOf(t, seqId, operation)
  {
    if Some(e) in msgs {
      var i :| 0 <= i < |msgs| && msgs[i] == Some(e);
      assert a[i] in a;
    }
    if t :| t in a && e == CommitOf(t, seqId, operation) {
      var i :| 0 <= i < |a| && a[i] == t;
      assert msgs[i] == Some(e);
    }
  }

  /** In phase 4 a node hears everybody else. */
  lemma {:induction false} LinkedCommitsHeard(
      a: seq<NodeState>, pp: Envelope, seqId: int, operation: string, s: NodeState, i: nat, f: int)
    requires FullyLinked(a) && Enough(|a|, f) && AnnouncedBy(a, pp, seqId, operation) && i < |a|
             && SameIdentity(a[i], s)
    ensures HeardFrom(s, CommitTraffic(a, pp, seqId, operation, Counting(f)), Counting(f)) == Ids(a) - {a[i].id}
  {
    var heard := HeardFrom(s, CommitTraffic(a, pp, seqId, operation, Counting(f)), Counting(f));
    var others := Ids(a) - {a[i].id};
    forall id
      ensures id in heard <==> id in others
    {
      LinkedCommitHeard(a, pp, seqId, operation, s, i, f, id);
    }
    assert heard == others;
  }

  lemma {:induction false} LinkedCommitHeard(
      a: seq<NodeState>, pp: Envelope, seqId: int, operation: string, s: NodeState, i: nat, f: int, id: string)
    requires FullyLinked(a) && Enough(|a|, f) && AnnouncedBy(a, pp, seqId, operation) && i < |a|
             && SameIdentity(a[i], s)
    ensures id in HeardFrom(s, CommitTraffic(a, pp, seqId, operation, Counting(f)), Counting(f)) <==>
            id in Ids(a) && id != a[i].id
  {
    var envs, rule := CommitTraffic(a, pp, seqId, operation, Counting(f)), Counting(f);
    if id in HeardFrom(s, envs, rule) {
      var e :| e in envs && Heard(s, e, rule) && e.sender == id;
      LinkedCommitTraffic(a, pp, seqId, operation, f, e);
    }
    if id in Ids(a) && id != a[i].id {
      var j :| 0 <= j < |a| && a[j].id == id;
      var e := CommitOf(a[j], seqId, operation);
      LinkedCommitTraffic(a, pp, seqId, operation, f, e);
      assert Trusts(a[i], a[j].id, a[j].pubKey);
      assert Trusts(s, a[j].id, a[j].pubKey);
      assert Heard(s, e, rule);
    }
  }

  /** In phase 4 every node completes its quorum; it logs the operation unless it executed the number before. */
  lemma {:induction false} LinkedReplies(a: seq<NodeState>, pp: Envelope, seqId: int, operation: string, i: nat, f: int)
    requires FullyLinked(a) && Enough(|a|, f) && AnnouncedBy(a, pp, seqId, operation) && i < |a|
    ensures var s, envs, rule := AfterCommitPhase(a, pp, seqId, Counting(f))[i],
                                 CommitTraffic(a, pp, seqId, operation, Counting(f)), Counting(f);
            && s.id == a[i].id
            && Executes(s, envs, seqId, rule)
            && ReplyNode(s, envs, seqId, operation, rule).log ==
               a[i].log + (if seqId in a[i].executed then [] else [operation])
            && seqId in ReplyNode(s, envs, seqId, operation, rule).executed
  {
    var rule := Counting(f);
    var p, prepares := PrepareNode(a[i], pp), Gather(PrepareMsgs(a, pp));
    var s, envs := CommitNode(p, prepares, seqId, rule), CommitTraffic(a, pp, seqId, operation, rule);
    PrepareNodeRecords(a[i], pp, seqId);
    CommitNodeRecords(p, prepares, seqId, rule);
    LinkedCommits(a, pp, seqId, operation, i, f);
    LinkedCommitsHeard(a, pp, seqId, operation, s, i, f);
    AllMembersSuffice(a, a[i], Tally(s.commits, seqId) + HeardFrom(s, envs, rule), f);
    CompletesIffFinalQuorum(s, Tally(s.commits, seqId), envs, rule);
    ReplyNodeRecords(s, envs, seqId, operation, rule);
  }

  /** The replies of phase 4, one from each node in node order. */
  lemma {:induction false} LinkedReplyList(a: seq<NodeState>, pp: Envelope, seqId: int, call: Call, f: int)
    requires FullyLinked(a) && Enough(|a|, f) && AnnouncedBy(a, pp, seqId, call.operation)
    ensures var msgs := ReplyMsgs(AfterCommitPhase(a, pp, seqId, Counting(f)),
                                  CommitTraffic(a, pp, seqId, call.operation, Counting(f)), seqId, call, Counting(f));
            && |Gather(msgs)| == |a|
            && forall i :: 0 <= i < |a| ==> Gather(msgs)[i].nodeId == a[i].id
  {
    var msgs := ReplyMsgs(AfterCommitPhase(a, pp, seqId, Counting(f)),
                          CommitTraffic(a, pp, seqId, call.operation, Counting(f)), seqId, call, Counting(f));
    forall i | 0 <= i < |a|
      ensures msgs[i].Some? && msgs[i].value.nodeId == a[i].id
    {
      LinkedReplies(a, pp, seqId, call.operation, i, f);
    }
    GatherAllPresent(msgs);
  }

  /** The uncancelled round of a linked cluster goes through all its phases. */
  lemma {:induction false} LinkedReachesEnd(c: seq<NodeState>, call: Call, f: int)
    requires FullyLinked(c) && c[0].role == Leader && Enough(|c|, f) && Uncancelled(call)
    ensures var a, seqId, rule := Started(c), c[0].seqId + 1, Counting(f);
            var pp := PrePrepareEnvelope(a[0], seqId, call.operation);
            RunRound(c, call, rule) == ReplyPhase(AfterCommitPhase(a, pp, seqId, rule), seqId,
                                                  CommitTraffic(a, pp, seqId, call.operation, rule), call, rule)
  {
    var a, seqId, rule := Started(c), c[0].seqId + 1, Counting(f);
    var pp := PrePrepareEnvelope(a[0], seqId, call.operation);
    StartedLinked(c);
    UncancelledRound(c, call, rule);
    LinkedHears(a, a[0], a[0], f);
    PrepareTraffic(a, pp, seqId, call.operation, PrepareEnvelope(a[0], pp.body));
    LinkedCommitTraffic(a, pp, seqId, call.operation, f, CommitOf(a[0], seqId, call.operation));
  }

  ghost predicate AnsweredByAll(c: seq<NodeState>, o: Outcome) {
    o.Replies? && |o.replies| == |c| && forall i :: 0 <= i < |c| ==> o.replies[i].nodeId == c[i].id
  }

  /** Every node of a linked cluster answers an uncancelled round, whatever it went through before. */
  lemma {:induction false} LinkedRoundAnswered(c: seq<NodeState>, call: Call, f: int)
    requires FullyLinked(c) && c[0].role == Leader && Enough(|c|, f) && Uncancelled(call)
    ensures AnsweredByAll(c, RunRound(c, call, Counting(f)).progress.outcome)
  {
    var a, seqId := Started(c), c[0].seqId + 1;
    StartedLinked(c);
    LinkedReachesEnd(c, call, f);
    LinkedReplyList(a, PrePrepareEnvelope(a[0], seqId, call.operation), seqId, call, f);
  }

  /**
   Every node answers, but a node logs the operation exactly if it has not executed the leader's next
   sequence number before. A leader whose counter lags behind makes its peers acknowledge operations
   they never log.
   */
  lemma {:induction false} LinkedRoundLogs(c: seq<NodeState>, call: Call, f: int, i: nat)
    requires FullyLinked(c) && c[0].role == Leader && Enough(|c|, f) && Uncancelled(call) && i < |c|
    ensures RunRound(c, call, Counting(f)).nodes[i].log ==
            c[i].log + (if c[0].seqId + 1 in c[i].executed then [] else [call.operation])
    ensures c[0].seqId + 1 in RunRound(c, call, Counting(f)).nodes[i].executed
  {
    var a, seqId := Started(c), c[0].seqId + 1;
    StartedLinked(c);
    LinkedReachesEnd(c, call, f);
    LinkedReplies(a, PrePrepareEnvelope(a[0], seqId, call.operation), seqId, call.operation, i, f);
  }

  /** In a linked cluster of sufficient size a round succeeds exactly when it is not cancelled. */
  lemma {:induction false} LinkedRoundSucceedsIff(c: seq<NodeState>, call: Call, f: int)
    requires FullyLinked(c) && c[0].role == Leader && Enough(|c|, f)
    ensures RunRound(c, call, Counting(f)).progress.outcome.Replies? <==> Uncancelled(call)
  {
    if Uncancelled(call) {
      LinkedRoundAnswered(c, call, f);
    } else {
      RoundTouches(c, call, Counting(f));
    }
  }

  /** Node j takes the leader's place and role. */
  function Reelected(c: seq<NodeState>, j: nat): (d: seq<NodeState>)
    requires 0 < j < |c|
    ensures |d| == |c|
  {
    c[0 := c[j].(role := Leader)][j := c[0].(role := Replica)]
  }

  lemma {:induction false} ReelectedLinked(c: seq<NodeState>, j: nat)
    requires FullyLinked(c) && 0 < j < |c|
    ensures FullyLinked(Reelected(c, j))
  {
    var d := Reelected(c, j);
    forall x, y | 0 <= x < |d| && 0 <= y < |d|
      ensures Trusts(d[x], d[y].id, d[y].pubKey)
    {
      var u, v := if x == 0 then j else if x == j then 0 else x, if y == 0 then j else if y == j then 0 else y;
      assert Trusts(c[u], c[v].id, c[v].pubKey);
    }
  }

  /**
   An acknowledged operation can be lost. After one round under the old leader, a member whose counter
   stood where the old leader's had stood takes over: its first operation draws the number already
   executed, every node answers, and no log changes.
   */
  lemma {:induction false} NewLeaderLosesOperation(c: seq<NodeState>, call: Call, next: Call, f: int, j: nat)
    requires FullyLinked(c) && c[0].role == Leader && Enough(|c|, f) && Uncancelled(call) && Uncancelled(next)
    requires 0 < j < |c| && c[j].seqId == c[0].seqId
    ensures var d := Reelected(RunRound(c, call, Counting(f)).nodes, j);
            && AnsweredByAll(d, RunRound(d, next, Counting(f)).progress.outcome)
            && LogsKept(d, RunRound(d, next, Counting(f)).nodes)
  {
    var rule := Counting(f);
    var e := RunRound(c, call, rule).nodes;
    var d := Reelected(e, j);
    RoundContinues(c, c, 0, call, rule);
    ContinuesLinked(c, e, 1);
    ReelectedLinked(e, j);
    RoundTouches(c, call, rule);
    assert TouchedOnly(Announce(c, call).nodes[j], e[j], c[0].seqId + 1);
    LinkedRoundAnswered(d, next, f);
    forall i | 0 <= i < |d|
      ensures RunRound(d, next, rule).nodes[i].log == d[i].log
    {
      LinkedRoundLogs(c, call, f, if i == 0 then j else if i == j then 0 else i);
      LinkedRoundLogs(d, next, f, i);
    }
  }

  // ---- Runs of a linked cluster with any past --------------------------------------------

  /** The operations a node that had executed `executed` logs while the counter runs up from `seqId`. */
  function Logged(executed: set<int>, seqId: int, calls: seq<Call>): seq<string> {
    if calls == [] then []
    else
      var last := calls[|calls| - 1];
      Logged(executed, seqId, calls[..|calls| - 1])
      + (if Uncancelled(last) && seqId + |calls| !in executed then [last.operation] else [])
  }

  /** Node s as it was, as far as numbers above `seqId` and identities go. */
  ghost predicate Resembles(s: NodeState, t: NodeState, seqId: int) {
    SameIdentity(s, t) && forall x :: x > seqId ==> (x in t.executed <==> x in s.executed)
  }

  ghost predicate Continues(c: seq<NodeState>, d: seq<NodeState>, rounds: nat) {
    && |c| == |d| > 0 && d[0].seqId == c[0].seqId + rounds
    && forall i :: 0 <= i < |c| ==> Resembles(c[i], d[i], d[0].seqId)
  }

  lemma {:induction false} ContinuesLinked(c: seq<NodeState>, d: seq<NodeState>, rounds: nat)
    requires Continues(c, d, rounds) && FullyLinked(c)
    ensures FullyLinked(d)
  {
    forall i | 0 <= i < |c|
      ensures d[i].id == c[i].id && d[i].pubKey == c[i].pubKey && d[i].view == c[i].view
    {
      assert Resembles(c[i], d[i], d[0].seqId);
    }
    forall i, j | 0 <= i < |d| && 0 <= j < |d|
      ensures Trusts(d[i], d[j].id, d[j].pubKey)
    {
      assert Resembles(c[i], d[i], d[0].seqId) && Trusts(c[i], c[j].id, c[j].pubKey);
    }
  }

  lemma {:induction false} RoundContinues(c: seq<NodeState>, d: seq<NodeState>, rounds: nat, call: Call, rule: Rule)
    requires Continues(c, d, rounds) && d[0].role == Leader
    ensures Continues(c, RunRound(d, call, rule).nodes, rounds + 1)
  {
    var a, e := Announce(d, call).nodes, RunRound(d, call, rule).nodes;
    RoundTouches(d, call, rule);
    assert TouchedOnly(a[0], e[0], d[0].seqId + 1);
    forall i | 0 <= i < |c|
      ensures Resembles(c[i], e[i], e[0].seqId)
    {
      assert TouchedOnly(a[i], e[i], d[0].seqId + 1) && Resembles(c[i], d[i], d[0].seqId);
    }
  }

  /**
   Any sequence of calls on a linked cluster with any past: each node's log grows, in order, by the
   operations of the uncancelled calls whose numbers it had not executed before.
   */
  lemma {:induction false} LinkedRunLogs(c: seq<NodeState>, calls: seq<Call>, f: int, i: nat)
    requires FullyLinked(c) && c[0].role == Leader && Enough(|c|, f) && i < |c|
    ensures Continues(c, Play(c, calls, Counting(f)), |calls|)
    ensures Play(c, calls, Counting(f))[i].log == c[i].log + Logged(c[i].executed, c[0].seqId, calls)
  {
    if calls != [] {
      var n := |calls| - 1;
      var d, last := Play(c, calls[..n], Counting(f)), calls[n];
      LinkedRunLogs(c, calls[..n], f, i);
      assert Resembles(c[0], d[0], d[0].seqId) && Resembles(c[i], d[i], d[0].seqId);
      ContinuesLinked(c, d, n);
      RoundContinues(c, d, n, last, Counting(f));
      if Uncancelled(last) {
        LinkedRoundLogs(d, last, f, i);
      } else {
        RoundTouches(d, last, Counting(f));
      }
    }
  }
}
