/**
 Rounds on the reputation path (protocol/pbft.go:218-344), where a tally takes everybody's messages
 unauthenticated: phase 3 weighs the acceptors of the PrePrepare at every node, and phase 4 the
 committers.
 */
module WeightedRounds {
  import opened Prelude
  import Messages
  import opened Weights
  import opened NodeModel
  import opened Round
  import opened QuorumSets
  import opened Runs

  ghost function Acceptors(c: seq<NodeState>): set<string>
    requires |c| > 0
  {
    set t | t in c && Accepting(c, t) :: t.id
  }

  lemma {:induction false} HeardAreAcceptors(c: seq<NodeState>, s: NodeState, total: real, id: string)
    requires |c| > 0
    ensures id in PreparesHeard(c, s, Weighted(total)) <==> id in Acceptors(c) && id != s.id
  {
    if id in Acceptors(c) && id != s.id {
      var t :| t in c && Accepting(c, t) && t.id == id;
      assert Hears(c, s, t, Weighted(total));
    }
  }

  lemma {:induction false} AcceptsByName(c: seq<NodeState>, s: NodeState)
    requires DistinctIds(c) && s in c
    ensures s.id in Acceptors(c) <==> Accepting(c, s)
  {
    if s.id in Acceptors(c) {
      var t :| t in c && Accepting(c, t) && t.id == s.id;
      assert t == s;
    }
  }

  /** Every node ends phase 3 with the acceptors in its tally. */
  lemma {:induction false} TallyIsAcceptors(c: seq<NodeState>, s: NodeState, total: real)
    requires DistinctIds(c) && s in c
    ensures PreparesHeard(c, s, Weighted(total)) == Acceptors(c) - {s.id}
    ensures PrepareTally(c, s, Weighted(total)) == Acceptors(c)
  {
    var heard, others := PreparesHeard(c, s, Weighted(total)), Acceptors(c) - {s.id};
    forall id
      ensures id in heard <==> id in others
    {
      HeardAreAcceptors(c, s, total, id);
    }
    assert heard == others;
    AcceptsByName(c, s);
  }

  /** A node commits exactly when somebody else accepts and the acceptors reach the threshold by its map. */
  lemma {:induction false} CommitsByWeight(c: seq<NodeState>, s: NodeState, total: real)
    requires DistinctIds(c) && s in c
    ensures Committing(c, s, Weighted(total)) <==>
            Acceptors(c) - {s.id} != {} && HasReputationQuorum(Weight(s.knownReputations, Acceptors(c)), total)
  {
    TallyIsAcceptors(c, s, total);
  }

  /** There are two acceptors at least, and together they reach the threshold by every map. */
  ghost predicate AcceptorsSuffice(c: seq<NodeState>, total: real)
    requires |c| > 0
  {
    && |Acceptors(c)| >= 2
    && forall s :: s in c ==> HasReputationQuorum(Weight(s.knownReputations, Acceptors(c)), total)
  }

  lemma {:induction false} AnotherOne(a: set<string>, id: string)
    requires |a| >= 2
    ensures a - {id} != {}
  {
    if a - {id} == {} {
      SubsetSize(a, {id});
    }
  }

  /** Then everybody commits. */
  lemma {:induction false} AllCommit(c: seq<NodeState>, s: NodeState, total: real)
    requires DistinctIds(c) && s in c && AcceptorsSuffice(c, total)
    ensures Committing(c, s, Weighted(total))
  {
    AnotherOne(Acceptors(c), s.id);
    CommitsByWeight(c, s, total);
  }

  lemma {:induction false} CommitHeardWhenAll(c: seq<NodeState>, s: NodeState, total: real, id: string)
    requires DistinctIds(c) && s in c && AcceptorsSuffice(c, total)
    ensures id in CommitsHeard(c, s, Weighted(total)) <==> id in Ids(c) && id != s.id
  {
    if id in Ids(c) && id != s.id {
      var t :| t in c && t.id == id;
      AllCommit(c, t, total);
      assert Hears(c, s, t, Weighted(total));
    }
  }

  lemma {:induction false} SomeoneElse(c: seq<NodeState>, s: NodeState) returns (t: NodeState)
    requires |c| >= 2 && DistinctIds(c)
    ensures t in c && t.id != s.id
  {
    t := if c[0].id != s.id then c[0] else c[1];
  }

  lemma {:induction false} CommitsHeardWhenAll(c: seq<NodeState>, s: NodeState, total: real)
    requires DistinctIds(c) && s in c && AcceptorsSuffice(c, total)
    ensures CommitsHeard(c, s, Weighted(total)) == Ids(c) - {s.id}
  {
    var heard, others := CommitsHeard(c, s, Weighted(total)), Ids(c) - {s.id};
    forall id
      ensures id in heard <==> id in others
    {
      CommitHeardWhenAll(c, s, total, id);
    }
    assert heard == others;
  }

  lemma {:induction false} ReplyFromAll(c: seq<NodeState>, s: NodeState, total: real)
    requires |c| >= 2 && DistinctIds(c) && s in c && Committing(c, s, Weighted(total))
    requires CommitsHeard(c, s, Weighted(total)) == Ids(c) - {s.id}
    requires HasReputationQuorum(Weight(s.knownReputations, Ids(c)), total)
    ensures Replying(c, s, Weighted(total))
  {
    var other := SomeoneElse(c, s);
    assert other.id in Ids(c) - {s.id};
    assert {s.id} + (Ids(c) - {s.id}) == Ids(c);
  }

  /** And everybody replies. */
  lemma {:induction false} AllReply(c: seq<NodeState>, s: NodeState, total: real)
    requires |c| >= 2 && DistinctIds(c) && s in c && AcceptorsSuffice(c, total) && NonNegative(s.knownReputations)
    ensures Replying(c, s, Weighted(total))
  {
    CommitsHeardWhenAll(c, s, total);
    AllCommit(c, s, total);
    WeightMonotone(s.knownReputations, Acceptors(c), Ids(c));
    ReplyFromAll(c, s, total);
  }

  ghost predicate AllReplying(c: seq<NodeState>, rule: Rule)
    requires |c| > 0
  {
    forall i :: 0 <= i < |c| ==> ReplierSlots(c, rule)[i].Some?
  }

  /** A round in which everybody replies has one reply from each. */
  lemma {:induction false} RepliesWhenAllReply(c: seq<NodeState>, call: Call, rule: Rule)
    requires ReadyFor(c, rule) && Uncancelled(call) && AllReplying(c, rule)
    ensures RunRound(c, call, rule).progress.outcome.Replies?
    ensures |RunRound(c, call, rule).progress.outcome.replies| == |c|
  {
    GatherAllPresent(ReplierSlots(c, rule));
    assert ReplierSlots(c, rule)[0].Some?;
    FilledSlots(c, rule);
    RoundOutcome(c, call, rule);
    var outcome := RunRound(c, call, rule).progress.outcome;
    assert |NodeIds(outcome.replies)| == |outcome.replies|;
  }

  lemma {:induction false} AllReplyWhenSufficient(c: seq<NodeState>, total: real)
    requires |c| >= 2 && DistinctIds(c) && AcceptorsSuffice(c, total)
    requires forall i :: 0 <= i < |c| ==> NonNegative(c[i].knownReputations)
    ensures AllReplying(c, Weighted(total))
  {
    forall i | 0 <= i < |c|
      ensures ReplierSlots(c, Weighted(total))[i].Some?
    {
      AllReply(c, c[i], total);
    }
  }

  /** A round that nobody cancels is then answered by everybody. */
  lemma {:induction false} RoundWhenSufficient(c: seq<NodeState>, call: Call, total: real)
    requires |c| >= 2 && Runnable(c, Weighted(total)) && AcceptorsSuffice(c, total) && Uncancelled(call)
    ensures RunRound(c, call, Weighted(total)).progress.outcome.Replies?
    ensures |RunRound(c, call, Weighted(total)).progress.outcome.replies| == |c|
  {
    forall i | 0 <= i < |c|
      ensures NonNegative(c[i].knownReputations)
    {
      assert Weighable(c[i], Weighted(total));
    }
    AllReplyWhenSufficient(c, total);
    RunnableReady(c, Weighted(total));
    RepliesWhenAllReply(c, call, Weighted(total));
  }

  /** And every log grows by the operation. */
  lemma {:induction false} LogWhenSufficient(c: seq<NodeState>, call: Call, total: real, i: nat)
    requires |c| >= 2 && Runnable(c, Weighted(total)) && AcceptorsSuffice(c, total) && Uncancelled(call) && i < |c|
    ensures RunRound(c, call, Weighted(total)).nodes[i].log == c[i].log + [call.operation]
  {
    assert Weighable(c[i], Weighted(total));
    AllReply(c, c[i], total);
    RunnableReady(c, Weighted(total));
    RoundLogs(c, call, Weighted(total), i);
  }

  ghost predicate NobodyCommits(c: seq<NodeState>, total: real) {
    |c| > 0 && forall s :: s in c ==> !Committing(c, s, Weighted(total))
  }

  /** A round in which nobody commits fails. */
  lemma {:induction false} RoundWhenNobodyCommits(c: seq<NodeState>, call: Call, total: real)
    requires Runnable(c, Weighted(total)) && NobodyCommits(c, total)
    ensures RunRound(c, call, Weighted(total)).progress.outcome.Failed?
  {
    if Uncancelled(call) {
      RunnableReady(c, Weighted(total));
      SomeoneChain(c, Weighted(total));
      RoundOutcome(c, call, Weighted(total));
    } else {
      OneCall(c, call, Weighted(total));
    }
  }

  // ---- Votes of weight 1 -----------------------------------------------------------------

  lemma {:induction false} UnitWeight(known: map<string, real>, senders: set<string>)
    requires forall id :: id in senders ==> RepOf(known, id) == 1.0
    ensures Weight(known, senders) == |senders| as real
    decreases senders
  {
    if senders != {} {
      var id :| id in senders && Weight(known, senders) == RepOf(known, id) + Weight(known, senders - {id});
      UnitWeight(known, senders - {id});
    }
  }

  /** Among 3f+1 votes of weight 1 the reputation rule asks for what the count of 2f+1 asks for. */
  lemma {:induction false} UnitQuorumIsCountQuorum(s: NodeState, senders: set<string>, f: nat)
    requires forall id :: id in senders ==> RepOf(s.knownReputations, id) == 1.0
    ensures QuorumMet(s, senders, Weighted((3 * f + 1) as real)) <==> QuorumMet(s, senders, Counting(f))
  {
    UnitWeight(s.knownReputations, senders);
    WholeQuorumIff(|senders|, 3 * f + 1);
  }

  /** Every member weighs 1 in every map, as all do before any map is filled. */
  ghost predicate UnitWeights(c: seq<NodeState>) {
    forall s, id :: s in c && id in Ids(c) ==> RepOf(s.knownReputations, id) == 1.0
  }

  lemma {:induction false} EmptyMapsWeighOne(c: seq<NodeState>)
    requires forall s :: s in c ==> s.knownReputations == map[]
    ensures UnitWeights(c)
  {}

  lemma {:induction false} UnitAcceptors(c: seq<NodeState>, s: NodeState)
    requires |c| > 0 && s in c && UnitWeights(c)
    ensures Weight(s.knownReputations, Acceptors(c)) == |Acceptors(c)| as real
    ensures HasReputationQuorum(Weight(s.knownReputations, Acceptors(c)), |c| as real) <==>
            3 * |Acceptors(c)| > 2 * |c|
  {
    assert Acceptors(c) <= Ids(c);
    UnitWeight(s.knownReputations, Acceptors(c));
    WholeQuorumIff(|Acceptors(c)|, |c|);
  }

  /**
   The round of at least two nodes of weight 1 succeeds, with a reply from everybody, exactly when it is
   not cancelled and more than two thirds of the nodes accept the PrePrepare.
   */
  lemma {:induction false} UnitRoundSucceedsIff(c: seq<NodeState>, call: Call)
    requires |c| >= 2 && Runnable(c, Weighted(|c| as real)) && UnitWeights(c)
    ensures var outcome := RunRound(c, call, Weighted(|c| as real)).progress.outcome;
            && (outcome.Replies? <==> Uncancelled(call) && 3 * |Acceptors(c)| > 2 * |c|)
            && (outcome.Replies? ==> |outcome.replies| == |c|)
  {
    var total := |c| as real;
    forall s | s in c
      ensures HasReputationQuorum(Weight(s.knownReputations, Acceptors(c)), total) <==> 3 * |Acceptors(c)| > 2 * |c|
      ensures !(3 * |Acceptors(c)| > 2 * |c|) ==> !Committing(c, s, Weighted(total))
    {
      UnitAcceptors(c, s);
      CommitsByWeight(c, s, total);
    }
    if !(3 * |Acceptors(c)| > 2 * |c|) {
      RoundWhenNobodyCommits(c, call, total);
    } else if Uncancelled(call) {
      RoundWhenSufficient(c, call, total);
    } else {
      OneCall(c, call, Weighted(total));
    }
  }

  // ---- Who takes part --------------------------------------------------------------------

  /** The acceptors are those an epoch rewards. */
  lemma {:induction false} ParticipantsAreAcceptors(c: seq<NodeState>, call: Call)
    requires |c| > 0 && c[0].role == Leader && !call.ctx.beforeDelivery
    ensures Participants(c, call) == Acceptors(c)
  {
    var a, seqId := Started(c), c[0].seqId + 1;
    var pp := PrePrepareEnvelope(a[0], seqId, call.operation);
    var sent := Gather(PrepareMsgs(a, pp));
    assert Announce(c, call) == RoundState(a, Announced(pp));
    assert SameElectorate(c, a);
    var participants, acceptors := Participants(c, call), Acceptors(c);
    forall id
      ensures id in participants <==> id in acceptors
    {
      ParticipantAccepts(c, a, pp, seqId, call.operation, id);
    }
    assert participants == acceptors;
  }

  lemma {:induction false} ParticipantAccepts(
      c: seq<NodeState>, a: seq<NodeState>, pp: Messages.Envelope, seqId: int, operation: string, id: string)
    requires |c| > 0 && SameElectorate(c, a) && AnnouncedBy(a, pp, seqId, operation)
    ensures id in Senders(Gather(PrepareMsgs(a, pp))) <==> id in Acceptors(c)
  {
    if id in Senders(Gather(PrepareMsgs(a, pp))) {
      var e :| e in Gather(PrepareMsgs(a, pp)) && e.sender == id;
      PrepareTraffic(a, pp, seqId, operation, e);
      var t :| t in a && Accepting(a, t) && e == PrepareEnvelope(t, pp.body);
      var i :| 0 <= i < |a| && a[i] == t;
      HearsStable(c, a, i, i, Counting(0));
      assert c[i] in c && c[i].id == id;
    }
    if id in Acceptors(c) {
      var t :| t in c && Accepting(c, t) && t.id == id;
      var i :| 0 <= i < |c| && c[i] == t;
      HearsStable(c, a, i, i, Counting(0));
      assert a[i] in a;
      PrepareTraffic(a, pp, seqId, operation, PrepareEnvelope(a[i], pp.body));
      assert SameIdentity(c[i], a[i]);
    }
  }
}
