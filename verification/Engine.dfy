/**
 PBFTInstance.RunPBFT (protocol/pbft.go:168-382) over mutable nodes, with its nested delivery
 loops, self-counting and cancellation points, proved to perform the round of Round.dfy.
 */
module Engine {
  import opened Prelude
  import opened Messages
  import opened Quorum
  import opened Weights
  import opened NodeModel
  import opened NodeObject
  import opened Round

  ghost function States(all: seq<Node>): (r: seq<NodeState>)
    reads all
    ensures |r| == |all| && forall i :: 0 <= i < |all| ==> r[i] == all[i].State()
  {
    seq(|all|, i requires 0 <= i < |all| reads all => all[i].State())
  }

  ghost predicate DistinctNodes(all: seq<Node>) {
    forall i, j :: 0 <= i < j < |all| ==> all[i].id != all[j].id
  }

  /** Phase-3 traffic of one round: Prepares for one sequence number and operation. */
  ghost predicate PreparesFor(envs: seq<Envelope>, seqId: int, operation: string) {
    forall e :: e in envs ==> e.body.Prepare? && e.body.seqId == seqId && e.body.digest == Digest(operation)
  }

  ghost predicate CommitsFor(envs: seq<Envelope>, seqId: int) {
    forall e :: e in envs ==> e.body.Commit? && e.body.seqId == seqId
  }

  // ---- One node's inner loop -------------------------------------------------------------

  lemma {:induction false} TallyTwice(m: map<int, set<string>>, seqId: int, a: set<string>, b: set<string>)
    ensures var m1 := m[seqId := Tally(m, seqId) + a];
            m1[seqId := Tally(m1, seqId) + b] == m[seqId := Tally(m, seqId) + (a + b)]
  {
    assert Tally(m, seqId) + a + b == Tally(m, seqId) + (a + b);
  }

  /** Tallying one more heard Prepare. */
  lemma {:induction false} HearOnePrepare(s: NodeState, envs: seq<Envelope>, i: nat, seqId: int, rule: Rule)
    requires i < |envs| && Heard(s, envs[i], rule)
    ensures WithPrepares(WithHeardPrepares(s, envs[..i], seqId, rule), seqId, {envs[i].sender})
            == WithHeardPrepares(s, envs[..i + 1], seqId, rule)
    ensures Tally(WithHeardPrepares(s, envs[..i], seqId, rule).prepares, seqId) + {envs[i].sender}
            == Tally(s.prepares, seqId) + HeardFrom(s, envs[..i + 1], rule)
  {
    HeardFromStep(s, envs, i, rule);
    var heard := HeardFrom(s, envs[..i], rule);
    TallyTwice(s.prepares, seqId, heard, {envs[i].sender});
    if heard == {} {
      assert heard + {envs[i].sender} == {envs[i].sender};
    }
  }

  /** What one delivery of a Prepare, followed by the self-count, does to a node mid-loop. */
  lemma {:induction false} CountOnePrepare(
      s: NodeState, envs: seq<Envelope>, i: nat, seqId: int, operation: string, f: int)
    requires i < |envs| && PreparesFor(envs, seqId, operation) && envs[i].sender != s.id
    ensures var rule := Counting(f);
            var t := CommitNode(s, envs[..i], seqId, rule);
            var r := PrepareOutcome(t, envs[i], f);
            && CommitNode(s, envs[..i + 1], seqId, rule) ==
               (if r.Sent? && !Commits(s, envs[..i], seqId, rule)
                then WithCommits(AfterPrepare(t, envs[i]), seqId, {s.id}) else AfterPrepare(t, envs[i]))
            && CommitMsg(s, envs[..i + 1], seqId, operation, rule) ==
               (if r.Sent? && !Commits(s, envs[..i], seqId, rule) then Some(r.msg)
                else CommitMsg(s, envs[..i], seqId, operation, rule))
  {
    var rule, tally, env := Counting(f), Tally(s.prepares, seqId), envs[i];
    var t := CommitNode(s, envs[..i], seqId, rule);
    assert Authentic(t, env) == Authentic(s, env);
    TriggerStep(s, tally, envs, i, rule);
    if Heard(s, env, rule) {
      HearOnePrepare(s, envs, i, seqId, rule);
    } else {
      HeardFromStep(s, envs, i, rule);
      assert HeardFrom(s, envs[..i + 1], rule) == HeardFrom(s, envs[..i], rule);
    }
  }

  lemma {:induction false} SkipOwn(s: NodeState, tally: set<string>, envs: seq<Envelope>, i: nat, rule: Rule)
    requires i < |envs| && envs[i].sender == s.id
    ensures HeardFrom(s, envs[..i + 1], rule) == HeardFrom(s, envs[..i], rule)
    ensures Trigger(s, tally, envs[..i + 1], rule) == Trigger(s, tally, envs[..i], rule)
  {
    HeardFromStep(s, envs, i, rule);
    TriggerStep(s, tally, envs, i, rule);
  }

  /** Lines 267-287: deliver every Prepare to one node, self-counting its Commit when produced.
      `handed` counts the messages handed to the node. */
  method CountPrepares(nd: Node, envs: seq<Envelope>, seqId: int, operation: string, f: int)
    returns (commit: Option<Envelope>, ghost handed: nat)
    requires PreparesFor(envs, seqId, operation)
    modifies nd
    ensures nd.State() == CommitNode(old(nd.State()), envs, seqId, Counting(f))
    ensures commit == CommitMsg(old(nd.State()), envs, seqId, operation, Counting(f))
    ensures handed == Handed(nd.id, envs)
  {
    ghost var s, rule := nd.State(), Counting(f);
    commit, handed := None, 0;
    for i := 0 to |envs|
      invariant nd.State() == CommitNode(s, envs[..i], seqId, rule)
      invariant commit == CommitMsg(s, envs[..i], seqId, operation, rule)
      invariant handed == Handed(s.id, envs[..i])
    {
      HandedStep(s.id, envs, i);
      if envs[i].sender == nd.id {
        SkipOwn(s, Tally(s.prepares, seqId), envs, i, rule);
        continue;
      }
      CountOnePrepare(s, envs, i, seqId, operation, f);
      var r := nd.HandlePrepare(envs[i], f);
      handed := handed + 1;
      if r.Sent? && commit.None? {
        var _ := nd.AddCommit(r.msg.body.seqId, nd.id);
        commit := Some(r.msg);
      }
    }
    assert envs[..|envs|] == envs;
  }

  lemma {:induction false} HearOneCommit(s: NodeState, envs: seq<Envelope>, i: nat, seqId: int, rule: Rule)
    requires i < |envs| && Heard(s, envs[i], rule)
    ensures WithCommits(WithHeardCommits(s, envs[..i], seqId, rule), seqId, {envs[i].sender})
            == WithHeardCommits(s, envs[..i + 1], seqId, rule)
    ensures Tally(WithHeardCommits(s, envs[..i], seqId, rule).commits, seqId) + {envs[i].sender}
            == Tally(s.commits, seqId) + HeardFrom(s, envs[..i + 1], rule)
  {
    HeardFromStep(s, envs, i, rule);
    var heard := HeardFrom(s, envs[..i], rule);
    TallyTwice(s.commits, seqId, heard, {envs[i].sender});
    if heard == {} {
      assert heard + {envs[i].sender} == {envs[i].sender};
    }
  }

  lemma {:induction false} AppliedCommutes(s: NodeState, seqId: int, operation: string, senders: set<string>)
    ensures WithCommits(Applied(s, seqId, operation), seqId, senders) ==
            Applied(WithCommits(s, seqId, senders), seqId, operation)
    ensures Applied(Applied(s, seqId, operation), seqId, operation) == Applied(s, seqId, operation)
  {}

  /** The tally and the quorum test seen by HandleCommit for a Commit that is heard mid-loop. */
  lemma {:induction false} HeardCommitQuorum(
      s: NodeState, envs: seq<Envelope>, i: nat, seqId: int, operation: string, f: int)
    requires i < |envs| && CommitsFor(envs, seqId) && Heard(s, envs[i], Counting(f))
    ensures var t := ReplyNode(s, envs[..i], seqId, operation, Counting(f));
            && AcceptsCommit(t, envs[i])
            && CommitQuorum(t, envs[i], f) ==
               HasQuorumLocal(|Tally(s.commits, seqId) + HeardFrom(s, envs[..i + 1], Counting(f))|, f)
            && (Executes(s, envs[..i], seqId, Counting(f)) ==> CommitQuorum(t, envs[i], f))
  {
    var rule, tally := Counting(f), Tally(s.commits, seqId);
    HearOneCommit(s, envs, i, seqId, rule);
    var t := ReplyNode(s, envs[..i], seqId, operation, rule);
    assert t.commits == WithHeardCommits(s, envs[..i], seqId, rule).commits;
    if Executes(s, envs[..i], seqId, rule) {
      CompletesIffFinalQuorum(s, tally, envs[..i], rule);
      HeardFromStep(s, envs, i, rule);
      SubsetSize(tally + HeardFrom(s, envs[..i], rule), tally + HeardFrom(s, envs[..i + 1], rule));
    }
  }

  /** What one delivery of a Commit does to a node mid-loop: it executes at most once. */
  lemma {:induction false} CountOneCommit(
      s: NodeState, envs: seq<Envelope>, i: nat, seqId: int, operation: string, f: int)
    requires i < |envs| && CommitsFor(envs, seqId) && envs[i].sender != s.id
    ensures var t := ReplyNode(s, envs[..i], seqId, operation, Counting(f));
            && ReplyNode(s, envs[..i + 1], seqId, operation, Counting(f)) == AfterCommit(t, envs[i], f, operation)
            && AcceptsCommit(t, envs[i]) == Heard(s, envs[i], Counting(f))
  {
    var rule, env := Counting(f), envs[i];
    TriggerStep(s, Tally(s.commits, seqId), envs, i, rule);
    if Heard(s, env, rule) {
      HearOneCommit(s, envs, i, seqId, rule);
      HeardCommitQuorum(s, envs, i, seqId, operation, f);
      AppliedCommutes(WithHeardCommits(s, envs[..i], seqId, rule), seqId, operation, {env.sender});
    } else {
      HeardFromStep(s, envs, i, rule);
      assert HeardFrom(s, envs[..i + 1], rule) == HeardFrom(s, envs[..i], rule);
    }
  }

  lemma {:induction false} ReplyOneCommit(s: NodeState, envs: seq<Envelope>, i: nat, seqId: int, call: Call, f: int)
    requires i < |envs| && CommitsFor(envs, seqId) && envs[i].sender != s.id
    ensures var t := ReplyNode(s, envs[..i], seqId, call.operation, Counting(f));
            var r := CommitOutcome(t, envs[i], f, call.operation, call.clientId);
            ReplyMsg(s, envs[..i + 1], seqId, call, Counting(f)) ==
            (if r.Sent? && !Executes(s, envs[..i], seqId, Counting(f)) then Some(r.msg)
             else ReplyMsg(s, envs[..i], seqId, call, Counting(f)))
  {
    CountOneCommit(s, envs, i, seqId, call.operation, f);
    TriggerStep(s, Tally(s.commits, seqId), envs, i, Counting(f));
    if Heard(s, envs[i], Counting(f)) {
      HeardCommitQuorum(s, envs, i, seqId, call.operation, f);
    }
  }

  /** Lines 347-365: deliver every Commit to one node, which executes and replies on a quorum. */
  method CountCommits(nd: Node, envs: seq<Envelope>, seqId: int, call: Call, f: int)
    returns (reply: Option<Reply>, ghost handed: nat)
    requires CommitsFor(envs, seqId)
    modifies nd
    ensures nd.State() == ReplyNode(old(nd.State()), envs, seqId, call.operation, Counting(f))
    ensures reply == ReplyMsg(old(nd.State()), envs, seqId, call, Counting(f))
    ensures handed == Handed(nd.id, envs)
  {
    ghost var s, rule := nd.State(), Counting(f);
    reply, handed := None, 0;
    for i := 0 to |envs|
      invariant nd.State() == ReplyNode(s, envs[..i], seqId, call.operation, rule)
      invariant reply == ReplyMsg(s, envs[..i], seqId, call, rule)
      invariant handed == Handed(s.id, envs[..i])
    {
      HandedStep(s.id, envs, i);
      if envs[i].sender == nd.id {
        SkipOwn(s, Tally(s.commits, seqId), envs, i, rule);
        continue;
      }
      CountOneCommit(s, envs, i, seqId, call.operation, f);
      ReplyOneCommit(s, envs, i, seqId, call, f);
      var r := nd.HandleCommit(envs[i], f, call.operation, call.clientId);
      handed := handed + 1;
      if r.Sent? && reply.None? {
        reply := Some(r.msg);
      }
    }
    assert envs[..|envs|] == envs;
  }

  // ---- The same loops under the reputation rule ------------------------------------------

  /** Tallying a peer's Prepare without authentication, before the weight is looked at. */
  lemma {:induction false} WeighOnePrepare(
      s: NodeState, envs: seq<Envelope>, i: nat, seqId: int, operation: string, total: real)
    requires i < |envs| && envs[i].sender != s.id
    ensures var rule := Weighted(total);
            var t := WithPrepares(CommitNode(s, envs[..i], seqId, rule), seqId, {envs[i].sender});
            var met := HasReputationQuorum(Weight(t.knownReputations, Tally(t.prepares, seqId)), total);
            && CommitNode(s, envs[..i + 1], seqId, rule) ==
               (if met && !Commits(s, envs[..i], seqId, rule) then WithCommits(t, seqId, {s.id}) else t)
            && CommitMsg(s, envs[..i + 1], seqId, operation, rule) ==
               (if met && !Commits(s, envs[..i], seqId, rule) then Some(CommitOf(s, seqId, operation))
                else CommitMsg(s, envs[..i], seqId, operation, rule))
  {
    var rule := Weighted(total);
    TriggerStep(s, Tally(s.prepares, seqId), envs, i, rule);
    HearOnePrepare(s, envs, i, seqId, rule);
  }

  lemma {:induction false} TalliedAgain(m: map<int, set<string>>, seqId: int, sender: string)
    requires sender in Tally(m, seqId)
    ensures m[seqId := Tally(m, seqId) + {sender}] == m
  {
    assert Tally(m, seqId) + {sender} == Tally(m, seqId);
  }

  /** Lines 235-262: HandlePrepare is tried first, but its Commit and the one built directly when
      the count threshold holds it back are the same message. */
  method ProduceCommit(nd: Node, env: Envelope, operation: string, f: int) returns (commit: Envelope)
    requires env.body.Prepare? && env.body.digest == Digest(operation)
    requires env.sender in Tally(nd.prepares, env.body.seqId)
    modifies nd
    ensures nd.State() == WithCommits(old(nd.State()), env.body.seqId, {nd.id})
    ensures commit == CommitOf(old(nd.State()), env.body.seqId, operation)
  {
    TalliedAgain(nd.prepares, env.body.seqId, env.sender);
    var r := nd.HandlePrepare(env, f);
    if !r.Sent? {
      commit := Envelope(nd.id, nd.pubKey, Commit(nd.view, env.body.seqId, env.body.digest, nd.id));
    } else {
      commit := r.msg;
    }
    var _ := nd.AddCommit(commit.body.seqId, nd.id);
  }

  /** Lines 220-264. */
  method WeighPrepares(nd: Node, envs: seq<Envelope>, seqId: int, operation: string, f: int, total: real)
    returns (commit: Option<Envelope>, ghost handed: nat)
    requires PreparesFor(envs, seqId, operation)
    modifies nd
    ensures nd.State() == CommitNode(old(nd.State()), envs, seqId, Weighted(total))
    ensures commit == CommitMsg(old(nd.State()), envs, seqId, operation, Weighted(total))
    ensures handed == Handed(nd.id, envs)
  {
    ghost var s, rule := nd.State(), Weighted(total);
    commit, handed := None, 0;
    for i := 0 to |envs|
      invariant nd.State() == CommitNode(s, envs[..i], seqId, rule)
      invariant commit == CommitMsg(s, envs[..i], seqId, operation, rule)
      invariant handed == Handed(s.id, envs[..i])
    {
      HandedStep(s.id, envs, i);
      if envs[i].sender == nd.id {
        SkipOwn(s, Tally(s.prepares, seqId), envs, i, rule);
        continue;
      }
      WeighOnePrepare(s, envs, i, seqId, operation, total);
      var _ := nd.AddPrepare(envs[i].body.seqId, envs[i].sender);
      handed := handed + 1;
      if commit.Some? {
        continue;
      }
      var w := nd.GetPrepareWeight(envs[i].body.seqId);
      if !HasReputationQuorum(w, total) {
        continue;
      }
      var c := ProduceCommit(nd, envs[i], operation, f);
      commit := Some(c);
    }
    assert envs[..|envs|] == envs;
  }

  lemma {:induction false} WeighOneCommit(
      s: NodeState, envs: seq<Envelope>, i: nat, seqId: int, call: Call, total: real)
    requires i < |envs| && envs[i].sender != s.id
    ensures var rule := Weighted(total);
            var t := WithCommits(ReplyNode(s, envs[..i], seqId, call.operation, rule), seqId, {envs[i].sender});
            var met := HasReputationQuorum(Weight(t.knownReputations, Tally(t.commits, seqId)), total);
            && ReplyNode(s, envs[..i + 1], seqId, call.operation, rule) ==
               (if met && !Executes(s, envs[..i], seqId, rule) then Applied(t, seqId, call.operation) else t)
            && ReplyMsg(s, envs[..i + 1], seqId, call, rule) ==
               (if met && !Executes(s, envs[..i], seqId, rule) then Some(OwnReply(s, envs[i].body.view, seqId, call))
                else ReplyMsg(s, envs[..i], seqId, call, rule))
  {
    var rule := Weighted(total);
    TriggerStep(s, Tally(s.commits, seqId), envs, i, rule);
    HearOneCommit(s, envs, i, seqId, rule);
    AppliedCommutes(WithHeardCommits(s, envs[..i], seqId, rule), seqId, call.operation, {envs[i].sender});
  }

  function OwnReply(s: NodeState, view: int, seqId: int, call: Call): Reply {
    Reply(view, seqId, call.clientId, s.id, OkResult(call.operation))
  }

  /** Lines 322-342: whichever way the reply is made, the operation is applied once. */
  method ProduceReply(nd: Node, env: Envelope, call: Call, f: int) returns (reply: Reply)
    requires env.body.Commit? && env.sender in Tally(nd.commits, env.body.seqId)
    modifies nd
    ensures nd.State() == Applied(old(nd.State()), env.body.seqId, call.operation)
    ensures reply == OwnReply(old(nd.State()), env.body.view, env.body.seqId, call)
  {
    TalliedAgain(nd.commits, env.body.seqId, env.sender);
    var r := nd.HandleCommit(env, f, call.operation, call.clientId);
    if !r.Sent? {
      nd.ApplyOperation(env.body.seqId, call.operation);
      reply := Reply(env.body.view, env.body.seqId, call.clientId, nd.id, OkResult(call.operation));
    } else {
      reply := r.msg;
    }
  }

  /** Lines 307-344. */
  method WeighCommits(nd: Node, envs: seq<Envelope>, seqId: int, call: Call, f: int, total: real)
    returns (reply: Option<Reply>, ghost handed: nat)
    requires CommitsFor(envs, seqId)
    modifies nd
    ensures nd.State() == ReplyNode(old(nd.State()), envs, seqId, call.operation, Weighted(total))
    ensures reply == ReplyMsg(old(nd.State()), envs, seqId, call, Weighted(total))
    ensures handed == Handed(nd.id, envs)
  {
    ghost var s, rule := nd.State(), Weighted(total);
    reply, handed := None, 0;
    for i := 0 to |envs|
      invariant nd.State() == ReplyNode(s, envs[..i], seqId, call.operation, rule)
      invariant reply == ReplyMsg(s, envs[..i], seqId, call, rule)
      invariant handed == Handed(s.id, envs[..i])
    {
      HandedStep(s.id, envs, i);
      if envs[i].sender == nd.id {
        SkipOwn(s, Tally(s.commits, seqId), envs, i, rule);
        continue;
      }
      WeighOneCommit(s, envs, i, seqId, call, total);
      var _ := nd.AddCommit(envs[i].body.seqId, envs[i].sender);
      handed := handed + 1;
      if reply.Some? {
        continue;
      }
      var w := nd.GetCommitWeight(envs[i].body.seqId);
      if !HasReputationQuorum(w, total) {
        continue;
      }
      var r := ProduceReply(nd, envs[i], call, f);
      reply := Some(r);
    }
    assert envs[..|envs|] == envs;
  }
}
