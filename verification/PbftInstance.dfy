/**
 PBFTInstance (protocol/pbft.go:47-382, 472-497): one cluster's engine over its node objects.
 RunPBFT is proved to perform the round of Round.dfy, followed by the epoch of Epochs.dfy
 when reputation updates are on.
 */
module PbftInstance {
  import opened Prelude
  import opened Messages
  import opened Quorum
  import opened Weights
  import opened NodeModel
  import opened NodeObject
  import opened Round
  import opened Epochs
  import opened Engine
  import opened StepSystem

  class PBFTInstance {
    const leader: Node
    const replicas: seq<Node>
    const fLocal: int
    var opLog: map<int, string>
    var useReputation: bool
    var totalClusterReputation: real
    var tuning: Tuning
    var epoch: nat
    var disableAutoReputationUpdate: bool
    var addrs: map<string, string>
    /** Whether SendFn is set, and the calls it has received. */
    var hasSendFn: bool
    var outbox: seq<Packet>

    ghost const all: seq<Node> := [leader] + replicas

    /** Node IDs are globally unique; the reward formula has a positive denominator. */
    ghost predicate Valid()
      reads this
    {
      DistinctNodes(all) && (useReputation ==> Sound(tuning))
    }

    ghost function CurrentRule(): Rule
      reads this
    {
      if useReputation then Weighted(totalClusterReputation) else Counting(fLocal)
    }

    constructor (leader: Node, replicas: seq<Node>, fLocal: int, addrs: map<string, string>, tuning: Tuning)
      ensures this.leader == leader && this.replicas == replicas && this.fLocal == fLocal
      ensures opLog == map[] && !useReputation && totalClusterReputation == 0.0 && epoch == 0
      ensures this.tuning == tuning && !disableAutoReputationUpdate
      ensures this.addrs == addrs && !hasSendFn && outbox == []
    {
      this.leader, this.replicas, this.fLocal := leader, replicas, fLocal;
      opLog := map[];
      useReputation, totalClusterReputation, epoch := false, 0.0, 0;
      this.tuning := tuning;
      disableAutoReputationUpdate := false;
      this.addrs, hasSendFn, outbox := addrs, false, [];
    }

    method AllNodes() returns (r: seq<Node>)
      ensures r == all
    {
      r := [leader] + replicas;
    }

    /** Halfway through a delivery loop: the first i nodes have gone from `c` to `d`, the others are as in `c`. */
    ghost predicate Reached(c: seq<NodeState>, d: seq<NodeState>, i: nat)
      requires |c| == |d| == |all| && i <= |all|
      reads all
    {
      && (forall k :: i <= k < |all| ==> all[k].State() == c[k])
      && (forall k :: 0 <= k < i ==> all[k].State() == d[k])
    }

    /** Lines 193-201, for one receiving node. */
    method HandPrePrepare(nd: Node, pp: Envelope, ghost c: seq<NodeState>, ghost i: nat)
      returns (prepare: Option<Envelope>)
      requires DistinctNodes(all) && |c| == |all| && i < |all| && nd == all[i]
      requires Reached(c, PrepareNodes(c, pp), i)
      modifies nd
      ensures Reached(c, PrepareNodes(c, pp), i + 1)
      ensures prepare == PrepareMsg(c[i], pp)
    {
      assert forall k :: 0 <= k < |all| && k != i ==> all[k] != all[i];
      prepare := None;
      var r := nd.HandlePrePrepare(pp);
      if r.Sent? {
        var _ := nd.AddPrepare(pp.body.seqId, nd.id);
        prepare := Some(r.msg);
      }
    }

    /** Lines 192-202; `deliveries` counts the calls of the handler. */
    method DeliverPrePrepare(pp: Envelope) returns (envs: seq<Envelope>, ghost deliveries: nat)
      requires DistinctNodes(all)
      modifies all
      ensures States(all) == PrepareNodes(old(States(all)), pp)
      ensures envs == Gather(PrepareMsgs(old(States(all)), pp))
      ensures deliveries == |all|
    {
      ghost var c := States(all);
      var nodes := AllNodes();
      envs, deliveries := [], 0;
      for i := 0 to |nodes|
        invariant Reached(c, PrepareNodes(c, pp), i)
        invariant envs == Gather(PrepareMsgs(c, pp)[..i])
        invariant deliveries == i
      {
        GatherStep(PrepareMsgs(c, pp), i);
        var prepare := HandPrePrepare(nodes[i], pp, c, i);
        deliveries := deliveries + 1;
        if prepare.Some? {
          envs := envs + [prepare.value];
        }
      }
      assert PrepareMsgs(c, pp)[..|all|] == PrepareMsgs(c, pp);
    }

    /** The branch on UseReputation in phase 3, for one receiving node. */
    method CollectPrepares(
        nd: Node, envs: seq<Envelope>, seqId: int, operation: string,
        ghost rule: Rule, ghost c: seq<NodeState>, ghost i: nat)
      returns (commit: Option<Envelope>, ghost handed: nat)
      requires DistinctNodes(all) && |c| == |all| && i < |all| && nd == all[i]
      requires PreparesFor(envs, seqId, operation) && rule == CurrentRule()
      requires Reached(c, CommitNodes(c, envs, seqId, rule), i)
      modifies nd
      ensures Reached(c, CommitNodes(c, envs, seqId, rule), i + 1)
      ensures commit == CommitMsg(c[i], envs, seqId, operation, rule)
      ensures handed == Handed(c[i].id, envs)
    {
      assert forall k :: 0 <= k < |all| && k != i ==> all[k] != all[i];
      assert nd.State() == c[i];
      if useReputation {
        commit, handed := WeighPrepares(nd, envs, seqId, operation, fLocal, totalClusterReputation);
      } else {
        commit, handed := CountPrepares(nd, envs, seqId, operation, fLocal);
      }
    }

    /** Lines 214-288; `deliveries` counts the messages handed out. */
    method DeliverPrepares(envs: seq<Envelope>, seqId: int, operation: string, ghost rule: Rule)
      returns (commits: seq<Envelope>, ghost deliveries: nat)
      requires DistinctNodes(all) && PreparesFor(envs, seqId, operation) && rule == CurrentRule()
      modifies all
      ensures States(all) == CommitNodes(old(States(all)), envs, seqId, rule)
      ensures commits == Gather(CommitMsgs(old(States(all)), envs, seqId, operation, rule))
      ensures deliveries == HandedToAll(old(States(all)), envs)
    {
      ghost var c := States(all);
      ghost var d, msgs := CommitNodes(c, envs, seqId, rule), CommitMsgs(c, envs, seqId, operation, rule);
      var nodes := AllNodes();
      commits, deliveries := [], 0;
      for i := 0 to |nodes|
        invariant Reached(c, d, i)
        invariant commits == Gather(msgs[..i])
        invariant deliveries == HandedToFirst(c, envs, i)
      {
        GatherStep(msgs, i);
        var commit, handed := CollectPrepares(nodes[i], envs, seqId, operation, rule, c, i);
        deliveries := deliveries + handed;
        if commit.Some? {
          commits := commits + [commit.value];
        }
      }
      assert msgs[..|all|] == msgs;
    }

    /** The branch on UseReputation in phase 4, for one receiving node. */
    method CollectCommits(
        nd: Node, envs: seq<Envelope>, seqId: int, call: Call,
        ghost rule: Rule, ghost c: seq<NodeState>, ghost i: nat)
      returns (reply: Option<Reply>, ghost handed: nat)
      requires DistinctNodes(all) && |c| == |all| && i < |all| && nd == all[i]
      requires CommitsFor(envs, seqId) && rule == CurrentRule()
      requires Reached(c, ReplyNodes(c, envs, seqId, call.operation, rule), i)
      modifies nd
      ensures Reached(c, ReplyNodes(c, envs, seqId, call.operation, rule), i + 1)
      ensures reply == ReplyMsg(c[i], envs, seqId, call, rule)
      ensures handed == Handed(c[i].id, envs)
    {
      assert forall k :: 0 <= k < |all| && k != i ==> all[k] != all[i];
      assert nd.State() == c[i];
      if useReputation {
        reply, handed := WeighCommits(nd, envs, seqId, call, fLocal, totalClusterReputation);
      } else {
        reply, handed := CountCommits(nd, envs, seqId, call, fLocal);
      }
    }

    /** Lines 301-366; `deliveries` counts the messages handed out. */
    method DeliverCommits(envs: seq<Envelope>, seqId: int, call: Call, ghost rule: Rule)
      returns (replies: seq<Reply>, ghost deliveries: nat)
      requires DistinctNodes(all) && CommitsFor(envs, seqId) && rule == CurrentRule()
      modifies all
      ensures States(all) == ReplyNodes(old(States(all)), envs, seqId, call.operation, rule)
      ensures replies == Gather(ReplyMsgs(old(States(all)), envs, seqId, call, rule))
      ensures deliveries == HandedToAll(old(States(all)), envs)
    {
      ghost var c := States(all);
      ghost var d, msgs := ReplyNodes(c, envs, seqId, call.operation, rule), ReplyMsgs(c, envs, seqId, call, rule);
      var nodes := AllNodes();
      replies, deliveries := [], 0;
      for i := 0 to |nodes|
        invariant Reached(c, d, i)
        invariant replies == Gather(msgs[..i])
        invariant deliveries == HandedToFirst(c, envs, i)
      {
        GatherStep(msgs, i);
        var reply, handed := CollectCommits(nodes[i], envs, seqId, call, rule, c, i);
        deliveries := deliveries + handed;
        if reply.Some? {
          replies := replies + [reply.value];
        }
      }
      assert msgs[..|all|] == msgs;
    }

    // ---- Reputation epoch ----------------------------------------------------------------

    /** Phase III of Algorithm 1, lines 475-479. */
    method UpdateScores(participants: set<string>)
      requires DistinctNodes(all) && Sound(tuning)
      modifies all
      ensures States(all) == ScoredAll(old(States(all)), participants, tuning)
    {
      ghost var c, t := States(all), tuning;
      var nodes := AllNodes();
      for i := 0 to |nodes|
        invariant forall k :: i <= k < |all| ==> all[k].State() == c[k]
        invariant forall k :: 0 <= k < i ==> all[k].State() == Scored(c[k], c[k].id in participants, t)
      {
        assert forall k :: 0 <= k < |all| && k != i ==> all[k] != all[i];
        nodes[i].UpdateReputation(nodes[i].id in participants, tuning.alpha, tuning.beta, tuning.gamma, tuning.ln);
      }
    }

    /** Lines 482-488: the score vector and its sum. */
    method CollectScores() returns (scores: map<string, real>, total: real)
      ensures scores == ScoreMap(States(all)) && total == TotalScore(States(all))
    {
      ghost var c := States(all);
      var nodes := AllNodes();
      scores, total := map[], 0.0;
      for i := 0 to |nodes|
        invariant scores == ScoreMap(c[..i]) && total == TotalScore(c[..i])
      {
        assert c[..i + 1][..i] == c[..i];
        scores := scores[nodes[i].id := nodes[i].reputation];
        total := total + nodes[i].reputation;
      }
      assert c[..|all|] == c;
    }

    /** Lines 489-491. */
    method BroadcastScores(scores: map<string, real>)
      requires DistinctNodes(all)
      modifies all
      ensures States(all) == SyncedAll(old(States(all)), scores)
    {
      ghost var c := States(all);
      var nodes := AllNodes();
      for i := 0 to |nodes|
        invariant forall k :: i <= k < |all| ==> all[k].State() == c[k]
        invariant forall k :: 0 <= k < i ==> all[k].State() == Synced(c[k], scores)
      {
        assert forall k :: 0 <= k < |all| && k != i ==> all[k] != all[i];
        nodes[i].SyncReputations(scores);
      }
    }

    /** Phases III and IV over the nodes; the new total is returned. */
    method RunEpoch(participants: set<string>) returns (total: real)
      requires DistinctNodes(all) && Sound(tuning)
      modifies all
      ensures States(all) == EpochUpdate(old(States(all)), participants, tuning)
      ensures total == TotalScore(States(all))
    {
      ghost var c := States(all);
      UpdateScores(participants);
      ghost var scored := ScoredAll(c, participants, tuning);
      assert States(all) == scored;
      var scores;
      scores, total := CollectScores();
      BroadcastScores(scores);
      SyncKeepsTotal(scored, scores);
    }

    method ApplyReputationUpdate(participants: set<string>)
      requires DistinctNodes(all) && Sound(tuning)
      modifies all, this`totalClusterReputation, this`epoch
      ensures States(all) == EpochUpdate(old(States(all)), participants, tuning)
      ensures totalClusterReputation == TotalScore(States(all))
      ensures epoch == old(epoch) + 1
      ensures forall i :: 0 <= i < |all| ==>
                if all[i].id in participants then Rewarded(old(States(all))[i], all[i].State(), tuning)
                else Decayed(old(States(all))[i], all[i].State(), tuning)
    {
      ghost var c := States(all);
      totalClusterReputation := RunEpoch(participants);
      epoch := epoch + 1;
      forall i | 0 <= i < |all|
        ensures if all[i].id in participants then Rewarded(c[i], all[i].State(), tuning)
                else Decayed(c[i], all[i].State(), tuning)
      {
        EpochScores(c, participants, tuning, i);
        assert all[i].State() == States(all)[i];
      }
    }

    // ---- RunPBFT -------------------------------------------------------------------------

    /** Lines 171-183: StartPBFT and storeOp. None when the leader does not hold the role. */
    method Start(operation: string) returns (pp: Option<Envelope>)
      requires DistinctNodes(all)
      modifies all, this`opLog
      ensures pp.Some? == (old(leader.role) == Leader)
      ensures pp.None? ==> States(all) == old(States(all))
      ensures pp.Some? ==>
                var next := AfterStart(old(leader.State()));
                && States(all) == old(States(all))[0 := next]
                && pp.value == PrePrepareEnvelope(next, next.seqId, operation)
      ensures opLog == LoggedOps(old(opLog), old(leader.State()), operation)
    {
      ghost var c := States(all);
      assert leader == all[0];
      pp := leader.StartPBFT(operation);
      if pp.Some? {
        opLog := opLog[pp.value.body.seqId := operation];
      }
      assert forall k :: 0 < k < |all| ==> all[k].State() == c[k];
    }

    /** Lines 192-212. */
    method RunPreparePhase(pp: Envelope, call: Call)
      returns (progress: Progress, participants: set<string>, ghost deliveries: nat)
      requires DistinctNodes(all)
      modifies all
      ensures RoundState(States(all), progress) == PreparePhase(old(States(all)), pp, call)
      ensures participants == Senders(Gather(PrepareMsgs(old(States(all)), pp)))
      ensures deliveries == PhaseDeliveries(RoundState(old(States(all)), Announced(pp)))
    {
      var envs;
      envs, deliveries := DeliverPrePrepare(pp);
      participants := set env | env in envs :: env.sender;
      progress :=
        if envs == [] then Done(Failed(NoPrepare))
        else if call.ctx.afterPrepare then Done(Failed(CancelledAfterPrepare))
        else Prepared(pp.body.seqId, envs);
    }

    /** Lines 214-299. */
    method RunCommitPhase(seqId: int, envs: seq<Envelope>, call: Call, ghost rule: Rule)
      returns (progress: Progress, ghost deliveries: nat)
      requires DistinctNodes(all) && PreparesFor(envs, seqId, call.operation) && rule == CurrentRule()
      modifies all
      ensures RoundState(States(all), progress) == CommitPhase(old(States(all)), seqId, envs, call, rule)
      ensures deliveries == PhaseDeliveries(RoundState(old(States(all)), Prepared(seqId, envs)))
    {
      var commits;
      commits, deliveries := DeliverPrepares(envs, seqId, call.operation, rule);
      progress :=
        if commits == [] then Done(Failed(NoCommit))
        else if call.ctx.afterCommit then Done(Failed(CancelledAfterCommit))
        else Committed(seqId, commits);
    }

    /** Lines 301-370. */
    method RunReplyPhase(seqId: int, envs: seq<Envelope>, call: Call, ghost rule: Rule)
      returns (progress: Progress, ghost deliveries: nat)
      requires DistinctNodes(all) && CommitsFor(envs, seqId) && rule == CurrentRule()
      modifies all
      ensures RoundState(States(all), progress) == ReplyPhase(old(States(all)), seqId, envs, call, rule)
      ensures deliveries == PhaseDeliveries(RoundState(old(States(all)), Committed(seqId, envs)))
    {
      var replies;
      replies, deliveries := DeliverCommits(envs, seqId, call, rule);
      progress := Done(if replies == [] then Failed(NoReply) else Replies(replies));
    }

    /** Phases 3 and 4, once there are Prepares. */
    method RunQuorums(seqId: int, envs: seq<Envelope>, call: Call, ghost rule: Rule)
      returns (outcome: Outcome, ghost deliveries: nat)
      requires DistinctNodes(all) && PreparesFor(envs, seqId, call.operation) && rule == CurrentRule()
      modifies all
      ensures RoundState(States(all), Done(outcome)) ==
              RunToEnd(RoundState(old(States(all)), Prepared(seqId, envs)), call, rule)
      ensures deliveries == DeliveriesToEnd(RoundState(old(States(all)), Prepared(seqId, envs)), call, rule)
    {
      ghost var r, more := RoundState(States(all), Prepared(seqId, envs)), 0;
      CommitsAreForSequence(r.nodes, envs, seqId, call.operation, rule);
      var progress;
      progress, deliveries := RunCommitPhase(seqId, envs, call, rule);
      ghost var r1 := RoundState(States(all), progress);
      OnePhase(r, r1, call, rule);
      if progress.Committed? {
        progress, more := RunReplyPhase(progress.seqId, progress.commits, call, rule);
        deliveries := deliveries + more;
        OnePhase(r1, RoundState(States(all), progress), call, rule);
      }
      outcome := progress.outcome;
    }

    /** Phases 2 to 4, once the PrePrepare is out. */
    method RunPhases(pp: Envelope, call: Call, ghost rule: Rule)
      returns (outcome: Outcome, participants: set<string>, ghost deliveries: nat)
      requires DistinctNodes(all) && rule == CurrentRule()
      requires pp.body.PrePrepare? && pp.body.message == call.operation
      modifies all
      ensures RoundState(States(all), Done(outcome)) ==
              RunToEnd(RoundState(old(States(all)), Announced(pp)), call, rule)
      ensures participants == Senders(Gather(PrepareMsgs(old(States(all)), pp)))
      ensures deliveries == DeliveriesToEnd(RoundState(old(States(all)), Announced(pp)), call, rule)
    {
      ghost var r, more := RoundState(States(all), Announced(pp)), 0;
      PreparesAreForPrePrepare(States(all), pp);
      var progress;
      progress, participants, deliveries := RunPreparePhase(pp, call);
      OnePhase(r, RoundState(States(all), progress), call, rule);
      if progress.Prepared? {
        outcome, more := RunQuorums(progress.seqId, progress.prepares, call, rule);
        deliveries := deliveries + more;
      } else {
        outcome := progress.outcome;
      }
    }

    /** Lines 169-370: the round itself, before any reputation update. */
    method RunConsensus(call: Call, ghost rule: Rule)
      returns (outcome: Outcome, participants: set<string>, ghost deliveries: nat)
      requires DistinctNodes(all) && rule == CurrentRule()
      modifies all, this`opLog
      ensures RoundState(States(all), Done(outcome)) == RunRound(old(States(all)), call, rule)
      ensures outcome.Replies? ==> participants == Participants(old(States(all)), call)
      ensures opLog == LoggedOps(old(opLog), old(leader.State()), call.operation)
      ensures deliveries == DeliveriesToEnd(RoundState(old(States(all)), Ready), call, rule)
    {
      ghost var c := States(all);
      assert leader == all[0];
      var pp := Start(call.operation);
      if pp.None? {
        RoundStopsEarly(c, call, rule);
        return Failed(NotLeader), {}, 0;
      }
      if call.ctx.beforeDelivery {
        RoundStopsEarly(c, call, rule);
        return Failed(CancelledBeforeDelivery), {}, 0;
      }
      RoundOpens(c, call, rule);
      outcome, participants, deliveries := RunPhases(pp.value, call, rule);
    }

    /** Lines 372-379: the epoch update, when it is due. */
    method UpdateIfDue(outcome: Outcome, participants: set<string>)
      requires Valid()
      modifies all, this`totalClusterReputation, this`epoch
      ensures States(all) == if outcome.Replies? && UpdatesReputation()
                             then EpochUpdate(old(States(all)), participants, tuning) else old(States(all))
      ensures totalClusterReputation == if outcome.Replies? && UpdatesReputation()
                                        then TotalScore(States(all)) else old(totalClusterReputation)
      ensures epoch == if outcome.Replies? && UpdatesReputation() then old(epoch) + 1 else old(epoch)
    {
      if outcome.Replies? && UpdatesReputation() {
        ApplyReputationUpdate(participants);
      }
    }

    /** `deliveries` counts the messages that the delivery loops have handed to nodes. */
    method RunPBFT(call: Call) returns (outcome: Outcome, ghost deliveries: nat)
      requires Valid()
      modifies all, this`opLog, this`totalClusterReputation, this`epoch
      ensures outcome == RunRound(old(States(all)), call, old(CurrentRule())).progress.outcome
      ensures States(all) == RoundThenEpoch(old(States(all)), call, old(CurrentRule()), UpdatesReputation(), tuning)
      ensures totalClusterReputation == if outcome.Replies? && UpdatesReputation()
                                        then TotalScore(States(all)) else old(totalClusterReputation)
      ensures epoch == if outcome.Replies? && useReputation && tuning.alpha > 0.0 && !disableAutoReputationUpdate
                       then old(epoch) + 1 else old(epoch)
      ensures opLog == if old(leader.role) == Leader then old(opLog)[old(leader.seqId) + 1 := call.operation]
                       else old(opLog)
      ensures deliveries == DeliveriesToEnd(RoundState(old(States(all)), Ready), call, old(CurrentRule()))
    {
      var participants;
      outcome, participants, deliveries := RunConsensus(call, CurrentRule());
      UpdateIfDue(outcome, participants);
    }

    predicate UpdatesReputation()
      reads this
    {
      useReputation && tuning.alpha > 0.0 && !disableAutoReputationUpdate
    }

    // ---- Step-by-step API, lines 388-457 and 519-545 -------------------------------------

    ghost function Current(): System
      reads this, all
    {
      System(States(all), opLog, outbox)
    }

    /** What a step makes of the instance: `next`, except that nothing is sent while SendFn is nil. */
    ghost function Emitted(next: System, sent: seq<Packet>): System
      reads this
    {
      if hasSendFn then next else next.(sent := sent)
    }

    method SendToAll(env: Envelope)
      modifies this`outbox
      ensures Current() == Emitted(SendAll(old(Current()), env, addrs), old(outbox))
    {
      if !hasSendFn {
        return;
      }
      ghost var packets := Packets(States(all), addrs, env);
      var nodes := AllNodes();
      for i := 0 to |nodes|
        invariant outbox == old(outbox) + Gather(packets[..i])
      {
        GatherStep(packets, i);
        if nodes[i].id in addrs {
          outbox := outbox + [Packet(addrs[nodes[i].id], env)];
        }
      }
      assert packets[..|all|] == packets;
    }

    /** The node with the given ID, leader first; -1 when there is none. */
    method FindNode(id: string) returns (i: int)
      ensures -1 <= i < |all|
      ensures i >= 0 ==> all[i].id == id
      ensures i < 0 ==> forall k :: 0 <= k < |all| ==> all[k].id != id
    {
      var nodes := AllNodes();
      for k := 0 to |nodes|
        invariant forall j :: 0 <= j < k ==> all[j].id != id
      {
        if nodes[k].id == id {
          return k;
        }
      }
      i := -1;
    }

    /** False when the leader does not hold the role. */
    method RunPrePrepare(operation: string) returns (ok: bool)
      requires DistinctNodes(all)
      modifies all, this`opLog, this`outbox
      ensures ok == (old(leader.role) == Leader)
      ensures Current() == Emitted(Propose(old(Current()), operation, addrs), old(outbox))
    {
      var pp := Start(operation);
      ok := pp.Some?;
      if ok {
        SendToAll(pp.value);
      }
    }

    /** False for an unknown node, which changes nothing, and for a rejected message. */
    method ReceivePrePrepare(replicaId: string, env: Envelope) returns (ok: bool)
      requires DistinctNodes(all)
      modifies all, this`outbox
      ensures (forall k :: 0 <= k < |all| ==> all[k].id != replicaId) ==> !ok && Current() == old(Current())
      ensures forall i :: 0 <= i < |all| && all[i].id == replicaId ==>
                && ok == AcceptsPrePrepare(old(Current()).nodes[i], env)
                && Current() == Emitted(OnPrePrepare(old(Current()), i, env, addrs), old(outbox))
    {
      ghost var c := States(all);
      var i := FindNode(replicaId);
      if i < 0 {
        return false;
      }
      var nodes := AllNodes();
      var r := nodes[i].HandlePrePrepare(env);
      assert forall k :: 0 <= k < |all| && k != i ==> all[k].State() == c[k];
      assert States(all) == c[i := AfterPrePrepare(c[i], env)];
      ok := r.Sent?;
      if ok {
        SendToAll(r.msg);
      }
    }

    method ReceivePrepare(receiverId: string, env: Envelope) returns (ok: bool)
      requires DistinctNodes(all)
      modifies all, this`outbox
      ensures (forall k :: 0 <= k < |all| ==> all[k].id != receiverId) ==> !ok && Current() == old(Current())
      ensures forall i :: 0 <= i < |all| && all[i].id == receiverId ==>
                && ok == AcceptsPrepare(old(Current()).nodes[i], env)
                && Current() == Emitted(OnPrepare(old(Current()), i, env, fLocal, addrs), old(outbox))
    {
      ghost var c := States(all);
      var i := FindNode(receiverId);
      if i < 0 {
        return false;
      }
      var nodes := AllNodes();
      var r := nodes[i].HandlePrepare(env, fLocal);
      assert forall k :: 0 <= k < |all| && k != i ==> all[k].State() == c[k];
      assert States(all) == c[i := AfterPrepare(c[i], env)];
      ok := !r.Rejected?;
      if r.Sent? {
        SendToAll(r.msg);
      }
    }

    method LoadStoredOp(seqId: int) returns (operation: string)
      ensures operation == LoadOp(opLog, seqId)
    {
      operation := if seqId in opLog then opLog[seqId] else "";
    }

    /** The reply, if this delivery completes a quorum of Commits. */
    method ReceiveCommit(receiverId: string, env: Envelope, clientId: string) returns (r: Handled<Reply>)
      requires DistinctNodes(all)
      modifies all
      ensures (forall k :: 0 <= k < |all| ==> all[k].id != receiverId) ==> r == Rejected && Current() == old(Current())
      ensures forall i :: 0 <= i < |all| && all[i].id == receiverId ==>
                && r == CommitOutcome(old(Current()).nodes[i], env, fLocal, LoadOp(opLog, env.body.seqId), clientId)
                && Current() == OnCommit(old(Current()), i, env, fLocal)
    {
      ghost var c := States(all);
      var i := FindNode(receiverId);
      if i < 0 {
        return Rejected;
      }
      var operation := LoadStoredOp(env.body.seqId);
      var nodes := AllNodes();
      r := nodes[i].HandleCommit(env, fLocal, operation, clientId);
      assert forall k :: 0 <= k < |all| && k != i ==> all[k].State() == c[k];
      assert States(all) == c[i := AfterCommit(c[i], env, fLocal, operation)];
    }
  }

  /** The nodes after one RunPBFT call. */
  ghost function RoundThenEpoch(
      c: seq<NodeState>, call: Call, rule: Rule, updates: bool, t: Tuning): (r: seq<NodeState>)
    requires |c| > 0 && (updates ==> Sound(t))
    ensures |r| == |c|
  {
    var round := RunRound(c, call, rule);
    if round.progress.outcome.Replies? && updates then EpochUpdate(round.nodes, Participants(c, call), t)
    else round.nodes
  }

  /** storeOp runs exactly when StartPBFT succeeds, under the sequence number it drew. */
  function LoggedOps(opLog: map<int, string>, leader: NodeState, operation: string): map<int, string> {
    if leader.role == Leader then opLog[leader.seqId + 1 := operation] else opLog
  }

  /** A round that is refused or cancelled before anything is delivered. */
  lemma {:induction false} RoundStopsEarly(c: seq<NodeState>, call: Call, rule: Rule)
    requires |c| > 0 && (c[0].role != Leader || call.ctx.beforeDelivery)
    ensures RunRound(c, call, rule) == Announce(c, call)
    ensures DeliveriesToEnd(RoundState(c, Ready), call, rule) == 0
  {
    OnePhase(RoundState(c, Ready), Announce(c, call), call, rule);
  }

  /** A round whose PrePrepare goes out. */
  lemma {:induction false} RoundOpens(c: seq<NodeState>, call: Call, rule: Rule)
    requires |c| > 0 && c[0].role == Leader && !call.ctx.beforeDelivery
    ensures var a := c[0 := AfterStart(c[0])];
            var pp := PrePrepareEnvelope(a[0], a[0].seqId, call.operation);
            && RunRound(c, call, rule) == RunToEnd(RoundState(a, Announced(pp)), call, rule)
            && DeliveriesToEnd(RoundState(c, Ready), call, rule) ==
               DeliveriesToEnd(RoundState(a, Announced(pp)), call, rule)
            && Participants(c, call) == Senders(Gather(PrepareMsgs(a, pp)))
  {
    OnePhase(RoundState(c, Ready), Announce(c, call), call, rule);
  }

  lemma {:induction false} PreparesAreForPrePrepare(c: seq<NodeState>, pp: Envelope)
    requires pp.body.PrePrepare?
    ensures PreparesFor(Gather(PrepareMsgs(c, pp)), pp.body.seqId, pp.body.message)
  {
    GatherMembers(PrepareMsgs(c, pp));
    forall e | e in Gather(PrepareMsgs(c, pp))
      ensures e.body.Prepare? && e.body.seqId == pp.body.seqId && e.body.digest == Digest(pp.body.message)
    {
      var i :| 0 <= i < |c| && PrepareMsgs(c, pp)[i] == Some(e);
    }
  }

  lemma {:induction false} CommitsAreForSequence(
      c: seq<NodeState>, envs: seq<Envelope>, seqId: int, operation: string, rule: Rule)
    ensures CommitsFor(Gather(CommitMsgs(c, envs, seqId, operation, rule)), seqId)
  {
    var msgs := CommitMsgs(c, envs, seqId, operation, rule);
    GatherMembers(msgs);
    forall e: Envelope | e in Gather(msgs)
      ensures e.body.Commit? && e.body.seqId == seqId
    {
      var i :| 0 <= i < |c| && msgs[i] == Some(e);
    }
  }

  lemma {:induction false} SyncKeepsTotal(c: seq<NodeState>, scores: map<string, real>)
    ensures TotalScore(SyncedAll(c, scores)) == TotalScore(c)
  {
    if c != [] {
      SyncKeepsTotal(c[..|c| - 1], scores);
      assert SyncedAll(c, scores)[..|c| - 1] == SyncedAll(c[..|c| - 1], scores);
    }
  }
}
