/**
 How many messages the loops of RunPBFT hand to nodes (protocol/pbft.go:192-202, 265-288, 345-366), the
 number that PBFTInstance.RunPBFT counts: every node gets the PrePrepare, and each Prepare and Commit
 goes to everyone but its sender.
 */
module Deliveries {
  import opened Prelude
  import opened Messages
  import opened NodeModel
  import opened Round
  import opened QuorumSets
  import opened Runs
  import opened LinkedRounds
  import opened Dimensions

  /** One message from each node. */
  ghost predicate OneFromEach(c: seq<NodeState>, envs: seq<Envelope>) {
    && |c| == |envs| && DistinctIds(c)
    && forall i :: 0 <= i < |c| ==> envs[i].sender == c[i].id
  }

  lemma {:induction false} HandedCount(c: seq<NodeState>, envs: seq<Envelope>, id: string)
    requires OneFromEach(c, envs)
    ensures Handed(id, envs) == if id in Ids(c) then |c| - 1 else |c|
  {
    if c != [] {
      var n := |c| - 1;
      HandedCount(c[..n], envs[..n], id);
      assert c == c[..n] + [c[n]];
      assert Ids(c) == Ids(c[..n]) + {c[n].id};
      assert c[n].id !in Ids(c[..n]);
    }
  }

  lemma {:induction false} HandedToSome(c: seq<NodeState>, envs: seq<Envelope>, n: nat)
    requires OneFromEach(c, envs) && n <= |c|
    ensures HandedToFirst(c, envs, n) == n * (|c| - 1)
  {
    if n > 0 {
      HandedToSome(c, envs, n - 1);
      HandedCount(c, envs, c[n - 1].id);
      assert c[n - 1] in c;
    }
  }

  /** n nodes with a message each: n(n-1) deliveries. */
  lemma {:induction false} EveryoneElseIsHanded(c: seq<NodeState>, envs: seq<Envelope>)
    requires OneFromEach(c, envs)
    ensures HandedToAll(c, envs) == Pairs(|c|)
  {
    PairsClosed(|c|);
    HandedToSome(c, envs, |c|);
  }

  lemma {:induction false} OneMessageEach(c: seq<NodeState>, nodes: seq<NodeState>, msgs: seq<Option<Envelope>>)
    requires |c| == |nodes| == |msgs| && DistinctIds(c)
    requires forall i :: 0 <= i < |c| ==> nodes[i].id == c[i].id && msgs[i].Some? && msgs[i].value.sender == c[i].id
    ensures |Gather(msgs)| == |c| && HandedToAll(nodes, Gather(msgs)) == Pairs(|c|)
  {
    GatherAllPresent(msgs);
    EveryoneElseIsHanded(nodes, Gather(msgs));
  }

  /** After phase 2, node by node: the identities of `c`, and one Prepare from each. */
  ghost predicate PreparesFromAll(c: seq<NodeState>, a: seq<NodeState>, pp: Envelope)
    requires |a| == |c|
  {
    forall i :: 0 <= i < |c| ==>
      && PrepareNodes(a, pp)[i].id == c[i].id
      && PrepareMsgs(a, pp)[i].Some?
      && PrepareMsgs(a, pp)[i].value.sender == c[i].id
  }

  lemma {:induction false} PrepareAt(c: seq<NodeState>, operation: string, i: nat)
    requires FullyLinked(c) && i < |c|
    ensures var a := Started(c);
            var pp := PrePrepareEnvelope(a[0], c[0].seqId + 1, operation);
            PrepareMsg(a[i], pp) == Some(PrepareEnvelope(a[i], pp.body))
              && PrepareNode(a[i], pp).id == a[i].id == c[i].id
  {
    assert Trusts(c[i], c[0].id, c[0].pubKey);
  }

  lemma {:induction false} EveryoneSendsPrepare(c: seq<NodeState>, operation: string)
    requires FullyLinked(c)
    ensures var a := Started(c);
            PreparesFromAll(c, a, PrePrepareEnvelope(a[0], c[0].seqId + 1, operation))
  {
    forall i | 0 <= i < |c|
      ensures var a := Started(c);
              var pp := PrePrepareEnvelope(a[0], c[0].seqId + 1, operation);
              PrepareMsg(a[i], pp) == Some(PrepareEnvelope(a[i], pp.body))
                && PrepareNode(a[i], pp).id == a[i].id == c[i].id
    {
      PrepareAt(c, operation, i);
    }
  }

  lemma {:induction false} PreparesHanded(c: seq<NodeState>, a: seq<NodeState>, pp: Envelope, call: Call)
    requires |a| == |c| >= 1 && DistinctIds(c) && Uncancelled(call) && PreparesFromAll(c, a, pp)
    ensures var r := PreparePhase(a, pp, call);
            r.progress.Prepared? && PhaseDeliveries(r) == Pairs(|c|)
  {
    OneMessageEach(c, PrepareNodes(a, pp), PrepareMsgs(a, pp));
  }

  /** After phase 3, node by node: the identities of `c`, and one Commit from each. */
  ghost predicate CommitsFromAll(
      c: seq<NodeState>, a: seq<NodeState>, pp: Envelope, seqId: int, operation: string, rule: Rule)
    requires |a| == |c|
  {
    var nodes, envs := PrepareNodes(a, pp), Gather(PrepareMsgs(a, pp));
    forall i :: 0 <= i < |c| ==>
      && CommitNodes(nodes, envs, seqId, rule)[i].id == c[i].id
      && CommitMsgs(nodes, envs, seqId, operation, rule)[i].Some?
      && CommitMsgs(nodes, envs, seqId, operation, rule)[i].value.sender == c[i].id
  }

  lemma {:induction false} CommitAt(c: seq<NodeState>, f: int, operation: string, i: nat)
    requires FullyLinked(c) && c[0].role == Leader && Enough(|c|, f) && i < |c|
    ensures var a, seqId, rule := Started(c), c[0].seqId + 1, Counting(f);
            var pp := PrePrepareEnvelope(a[0], seqId, operation);
            && AfterCommitPhase(a, pp, seqId, rule)[i].id == c[i].id
            && CommitMsgs(PrepareNodes(a, pp), Gather(PrepareMsgs(a, pp)), seqId, operation, rule)[i] ==
               Some(CommitOf(a[i], seqId, operation))
  {
    var a, seqId, rule := Started(c), c[0].seqId + 1, Counting(f);
    var pp := PrePrepareEnvelope(a[0], seqId, operation);
    StartedLinked(c);
    LinkedCommits(a, pp, seqId, operation, i, f);
    LinkedReplies(a, pp, seqId, operation, i, f);
  }

  lemma {:induction false} EveryoneSendsCommit(c: seq<NodeState>, f: int, operation: string)
    requires FullyLinked(c) && c[0].role == Leader && Enough(|c|, f)
    ensures var a, seqId := Started(c), c[0].seqId + 1;
            CommitsFromAll(c, a, PrePrepareEnvelope(a[0], seqId, operation), seqId, operation, Counting(f))
  {
    forall i | 0 <= i < |c|
      ensures var a, seqId, rule := Started(c), c[0].seqId + 1, Counting(f);
              var pp := PrePrepareEnvelope(a[0], seqId, operation);
              && AfterCommitPhase(a, pp, seqId, rule)[i].id == c[i].id
              && CommitMsgs(PrepareNodes(a, pp), Gather(PrepareMsgs(a, pp)), seqId, operation, rule)[i] ==
                 Some(CommitOf(a[i], seqId, operation))
    {
      CommitAt(c, f, operation, i);
    }
  }

  lemma {:induction false} CommitsHanded(
      c: seq<NodeState>, a: seq<NodeState>, pp: Envelope, seqId: int, call: Call, rule: Rule)
    requires |a| == |c| >= 1 && DistinctIds(c) && Uncancelled(call)
    requires CommitsFromAll(c, a, pp, seqId, call.operation, rule)
    ensures var r := CommitPhase(PrepareNodes(a, pp), seqId, Gather(PrepareMsgs(a, pp)), call, rule);
            r.progress.Committed? && PhaseDeliveries(r) == Pairs(|c|)
  {
    var nodes, envs := PrepareNodes(a, pp), Gather(PrepareMsgs(a, pp));
    OneMessageEach(c, CommitNodes(nodes, envs, seqId, rule), CommitMsgs(nodes, envs, seqId, call.operation, rule));
  }

  lemma {:induction false} SumOfPhases(
      r0: RoundState, r1: RoundState, r2: RoundState, r3: RoundState, call: Call, rule: Rule)
    requires Staffed(r0) && r0.progress.Ready? && r1 == Advance(r0, call, rule) && r1.progress.Announced?
    requires r2 == Advance(r1, call, rule) && r2.progress.Prepared?
    requires r3 == Advance(r2, call, rule) && r3.progress.Committed?
    ensures DeliveriesToEnd(r0, call, rule) == PhaseDeliveries(r1) + PhaseDeliveries(r2) + PhaseDeliveries(r3)
  {
    var r4 := Advance(r3, call, rule);
    OnePhase(r0, r1, call, rule);
    OnePhase(r1, r2, call, rule);
    OnePhase(r2, r3, call, rule);
    OnePhase(r3, r4, call, rule);
  }

  /** A round that hands out n(n-1) messages in phase 3 and again in phase 4. */
  lemma {:induction false} PhasesOf(c: seq<NodeState>, pp: Envelope, envs: seq<Envelope>, call: Call, rule: Rule)
    requires |c| >= 1 && c[0].role == Leader && Uncancelled(call)
    requires pp == PrePrepareEnvelope(Started(c)[0], c[0].seqId + 1, call.operation)
    requires envs == Gather(PrepareMsgs(Started(c), pp))
    requires var r2 := PreparePhase(Started(c), pp, call);
             r2.progress.Prepared? && PhaseDeliveries(r2) == Pairs(|c|)
    requires var r3 := CommitPhase(PrepareNodes(Started(c), pp), c[0].seqId + 1, envs, call, rule);
             r3.progress.Committed? && PhaseDeliveries(r3) == Pairs(|c|)
    ensures DeliveriesToEnd(RoundState(c, Ready), call, rule) == RoundCost(|c|)
  {
    var a, seqId := Started(c), c[0].seqId + 1;
    SumOfPhases(RoundState(c, Ready), RoundState(a, Announced(pp)), PreparePhase(a, pp, call),
                CommitPhase(PrepareNodes(a, pp), seqId, envs, call, rule), call, rule);
  }

  /**
   A completed round of n linked nodes, with any past, costs n + n(n-1) + n(n-1) = n(2n - 1) deliveries:
   the number RunPBFT then counts in its delivery loops.
   */
  lemma {:induction false} LinkedRoundDeliveries(c: seq<NodeState>, call: Call, f: int)
    requires FullyLinked(c) && c[0].role == Leader && Enough(|c|, f) && Uncancelled(call)
    ensures DeliveriesToEnd(RoundState(c, Ready), call, Counting(f)) == RoundCost(|c|)
  {
    var a, seqId, rule := Started(c), c[0].seqId + 1, Counting(f);
    var pp := PrePrepareEnvelope(a[0], seqId, call.operation);
    EveryoneSendsPrepare(c, call.operation);
    PreparesHanded(c, a, pp, call);
    EveryoneSendsCommit(c, f, call.operation);
    CommitsHanded(c, a, pp, seqId, call, rule);
    PhasesOf(c, pp, Gather(PrepareMsgs(a, pp)), call, rule);
  }
}
