/**
 One PBFT round of a cluster (protocol/pbft.go:168-382) on node values, cut at the three
 points where the engine checks its context. Each phase is given by what it makes of every
 single node; nothing here iterates the way the engine does.
 */
module Round {
  import opened Prelude
  import opened Messages
  import opened Quorum
  import opened Weights
  import opened NodeModel

  /** The quorum rule of an instance: the legacy count of 2f+1, or reputation weight against a total. */
  datatype Rule = Counting(f: int) | Weighted(total: real)

  /** Whether the context is found cancelled at each of the three checks. */
  datatype Context = Context(beforeDelivery: bool, afterPrepare: bool, afterCommit: bool)

  datatype Call = Call(operation: string, clientId: string, ctx: Context)

  datatype Failure =
    | NotLeader
    | CancelledBeforeDelivery
    | NoPrepare
    | CancelledAfterPrepare
    | NoCommit
    | CancelledAfterCommit
    | NoReply

  datatype Outcome = Replies(replies: seq<Reply>) | Failed(why: Failure)

  function RepliesIn(o: Outcome): seq<Reply> {
    if o.Replies? then o.replies else []
  }

  // ---- Quorums ---------------------------------------------------------------------------

  /**
   A peer's message that node `s` takes into its tally. Counting goes through the handlers,
   which authenticate and compare views; the weighted path tallies every peer's message.
   */
  predicate Heard(s: NodeState, env: Envelope, rule: Rule) {
    env.sender != s.id && (rule.Counting? ==> Authentic(s, env) && env.body.view == s.view)
  }

  ghost function HeardFrom(s: NodeState, envs: seq<Envelope>, rule: Rule): set<string> {
    set env | env in envs && Heard(s, env, rule) :: env.sender
  }

  ghost predicate QuorumMet(s: NodeState, senders: set<string>, rule: Rule) {
    match rule
    case Counting(f) => HasQuorumLocal(|senders|, f)
    case Weighted(total) => HasReputationQuorum(Weight(s.knownReputations, senders), total)
  }

  /**
   The index of the message whose arrival first completes a quorum at `s`, given the tally it
   starts from; -1 when none does. Only the arrival of a peer's message can complete one.
   */
  ghost function Trigger(s: NodeState, tally: set<string>, envs: seq<Envelope>, rule: Rule): (k: int)
    ensures -1 <= k < |envs|
    ensures k >= 0 ==> Heard(s, envs[k], rule)
  {
    if envs == [] then -1
    else
      var n := |envs| - 1;
      var k := Trigger(s, tally, envs[..n], rule);
      if k >= 0 then k
      else if Heard(s, envs[n], rule) && QuorumMet(s, tally + HeardFrom(s, envs, rule), rule) then n
      else -1
  }

  ghost predicate Completes(s: NodeState, tally: set<string>, envs: seq<Envelope>, rule: Rule) {
    Trigger(s, tally, envs, rule) >= 0
  }

  // ---- Phase 2: PrePrepare to Prepare ----------------------------------------------------

  function PrepareNode(s: NodeState, pp: Envelope): NodeState {
    if AcceptsPrePrepare(s, pp) then WithPrepares(AfterPrePrepare(s, pp), pp.body.seqId, {s.id}) else s
  }

  function PrepareMsg(s: NodeState, pp: Envelope): Option<Envelope> {
    if AcceptsPrePrepare(s, pp) then Some(PrepareEnvelope(s, pp.body)) else None
  }

  // ---- Phase 3: Prepare to Commit --------------------------------------------------------

  ghost function WithHeardPrepares(s: NodeState, envs: seq<Envelope>, seqId: int, rule: Rule): NodeState {
    var heard := HeardFrom(s, envs, rule);
    if heard == {} then s else WithPrepares(s, seqId, heard)
  }

  ghost predicate Commits(s: NodeState, envs: seq<Envelope>, seqId: int, rule: Rule) {
    Completes(s, Tally(s.prepares, seqId), envs, rule)
  }

  ghost function CommitNode(s: NodeState, envs: seq<Envelope>, seqId: int, rule: Rule): NodeState {
    var t := WithHeardPrepares(s, envs, seqId, rule);
    if Commits(s, envs, seqId, rule) then WithCommits(t, seqId, {s.id}) else t
  }

  ghost function CommitMsg(
      s: NodeState, envs: seq<Envelope>, seqId: int, operation: string, rule: Rule): Option<Envelope> {
    if Commits(s, envs, seqId, rule) then
      Some(Envelope(s.id, s.pubKey, Commit(s.view, seqId, Digest(operation), s.id)))
    else None
  }

  // ---- Phase 4: Commit to Reply ----------------------------------------------------------

  ghost function WithHeardCommits(s: NodeState, envs: seq<Envelope>, seqId: int, rule: Rule): NodeState {
    var heard := HeardFrom(s, envs, rule);
    if heard == {} then s else WithCommits(s, seqId, heard)
  }

  ghost predicate Executes(s: NodeState, envs: seq<Envelope>, seqId: int, rule: Rule) {
    Completes(s, Tally(s.commits, seqId), envs, rule)
  }

  ghost function ReplyNode(s: NodeState, envs: seq<Envelope>, seqId: int, operation: string, rule: Rule): NodeState {
    var t := WithHeardCommits(s, envs, seqId, rule);
    if Executes(s, envs, seqId, rule) then Applied(t, seqId, operation) else t
  }

  ghost function ReplyMsg(s: NodeState, envs: seq<Envelope>, seqId: int, call: Call, rule: Rule): Option<Reply> {
    var k := Trigger(s, Tally(s.commits, seqId), envs, rule);
    if k >= 0 then Some(Reply(envs[k].body.view, seqId, call.clientId, s.id, OkResult(call.operation))) else None
  }

  // ---- Phases of a whole cluster ---------------------------------------------------------

  function PrepareNodes(c: seq<NodeState>, pp: Envelope): (r: seq<NodeState>)
    ensures |r| == |c| && forall i :: 0 <= i < |c| ==> r[i] == PrepareNode(c[i], pp)
  {
    seq(|c|, i requires 0 <= i < |c| => PrepareNode(c[i], pp))
  }

  function PrepareMsgs(c: seq<NodeState>, pp: Envelope): (r: seq<Option<Envelope>>)
    ensures |r| == |c| && forall i :: 0 <= i < |c| ==> r[i] == PrepareMsg(c[i], pp)
  {
    seq(|c|, i requires 0 <= i < |c| => PrepareMsg(c[i], pp))
  }

  ghost function CommitNodes(c: seq<NodeState>, envs: seq<Envelope>, seqId: int, rule: Rule): (r: seq<NodeState>)
    ensures |r| == |c| && forall i :: 0 <= i < |c| ==> r[i] == CommitNode(c[i], envs, seqId, rule)
  {
    seq(|c|, i requires 0 <= i < |c| => CommitNode(c[i], envs, seqId, rule))
  }

  ghost function CommitMsgs(
      c: seq<NodeState>, envs: seq<Envelope>, seqId: int, operation: string, rule: Rule): (r: seq<Option<Envelope>>)
    ensures |r| == |c| && forall i :: 0 <= i < |c| ==> r[i] == CommitMsg(c[i], envs, seqId, operation, rule)
  {
    seq(|c|, i requires 0 <= i < |c| => CommitMsg(c[i], envs, seqId, operation, rule))
  }

  ghost function ReplyNodes(
      c: seq<NodeState>, envs: seq<Envelope>, seqId: int, operation: string, rule: Rule): (r: seq<NodeState>)
    ensures |r| == |c| && forall i :: 0 <= i < |c| ==> r[i] == ReplyNode(c[i], envs, seqId, operation, rule)
  {
    seq(|c|, i requires 0 <= i < |c| => ReplyNode(c[i], envs, seqId, operation, rule))
  }

  ghost function ReplyMsgs(
      c: seq<NodeState>, envs: seq<Envelope>, seqId: int, call: Call, rule: Rule): (r: seq<Option<Reply>>)
    ensures |r| == |c| && forall i :: 0 <= i < |c| ==> r[i] == ReplyMsg(c[i], envs, seqId, call, rule)
  {
    seq(|c|, i requires 0 <= i < |c| => ReplyMsg(c[i], envs, seqId, call, rule))
  }

  // ---- The round as a machine ------------------------------------------------------------

  datatype Progress =
    | Ready
    | Announced(pp: Envelope)
    | Prepared(seqId: int, prepares: seq<Envelope>)
    | Committed(seqId: int, commits: seq<Envelope>)
    | Done(outcome: Outcome)

  /** `nodes[0]` is the leader. */
  datatype RoundState = RoundState(nodes: seq<NodeState>, progress: Progress)

  ghost predicate Staffed(r: RoundState) {
    |r.nodes| > 0
  }

  ghost function Announce(c: seq<NodeState>, call: Call): RoundState
    requires |c| > 0
  {
    if c[0].role != Leader then RoundState(c, Done(Failed(NotLeader)))
    else
      var leader := AfterStart(c[0]);
      RoundState(
        c[0 := leader],
        if call.ctx.beforeDelivery then Done(Failed(CancelledBeforeDelivery))
        else Announced(PrePrepareEnvelope(leader, leader.seqId, call.operation)))
  }

  ghost function PreparePhase(c: seq<NodeState>, pp: Envelope, call: Call): RoundState {
    var envs := Gather(PrepareMsgs(c, pp));
    RoundState(
      PrepareNodes(c, pp),
      if envs == [] then Done(Failed(NoPrepare))
      else if call.ctx.afterPrepare then Done(Failed(CancelledAfterPrepare))
      else Prepared(pp.body.seqId, envs))
  }

  ghost function CommitPhase(c: seq<NodeState>, seqId: int, envs: seq<Envelope>, call: Call, rule: Rule): RoundState {
    var commits := Gather(CommitMsgs(c, envs, seqId, call.operation, rule));
    RoundState(
      CommitNodes(c, envs, seqId, rule),
      if commits == [] then Done(Failed(NoCommit))
      else if call.ctx.afterCommit then Done(Failed(CancelledAfterCommit))
      else Committed(seqId, commits))
  }

  ghost function ReplyPhase(c: seq<NodeState>, seqId: int, envs: seq<Envelope>, call: Call, rule: Rule): RoundState {
    var replies := Gather(ReplyMsgs(c, envs, seqId, call, rule));
    RoundState(
      ReplyNodes(c, envs, seqId, call.operation, rule),
      Done(if replies == [] then Failed(NoReply) else Replies(replies)))
  }

  ghost function Advance(r: RoundState, call: Call, rule: Rule): (next: RoundState)
    requires Staffed(r)
    ensures |next.nodes| == |r.nodes|
  {
    match r.progress
    case Ready => Announce(r.nodes, call)
    case Announced(pp) => PreparePhase(r.nodes, pp, call)
    case Prepared(seqId, envs) => CommitPhase(r.nodes, seqId, envs, call, rule)
    case Committed(seqId, envs) => ReplyPhase(r.nodes, seqId, envs, call, rule)
    case Done(_) => r
  }

  function PhasesLeft(p: Progress): nat {
    match p
    case Ready => 4
    case Announced(_) => 3
    case Prepared(_, _) => 2
    case Committed(_, _) => 1
    case Done(_) => 0
  }

  ghost function RunToEnd(r: RoundState, call: Call, rule: Rule): (final: RoundState)
    requires Staffed(r)
    ensures |final.nodes| == |r.nodes| && final.progress.Done?
    decreases PhasesLeft(r.progress)
  {
    if r.progress.Done? then r else RunToEnd(Advance(r, call, rule), call, rule)
  }

  /** A whole round, from StartPBFT to the outcome. */
  ghost function RunRound(c: seq<NodeState>, call: Call, rule: Rule): RoundState
    requires |c| > 0
  {
    RunToEnd(RoundState(c, Ready), call, rule)
  }

  ghost function Senders(envs: seq<Envelope>): set<string> {
    set env | env in envs :: env.sender
  }

  /** The senders of the round's Prepares: the participants an epoch update rewards. */
  ghost function Participants(c: seq<NodeState>, call: Call): set<string>
    requires |c| > 0
  {
    var r := Announce(c, call);
    if r.progress.Announced? then Senders(Gather(PrepareMsgs(r.nodes, r.progress.pp))) else {}
  }

  // ---- Deliveries ------------------------------------------------------------------------

  /** The messages of a phase that node `id` is handed: all but its own. */
  function Handed(id: string, envs: seq<Envelope>): nat {
    if envs == [] then 0
    else Handed(id, envs[..|envs| - 1]) + (if envs[|envs| - 1].sender != id then 1 else 0)
  }

  function HandedToFirst(c: seq<NodeState>, envs: seq<Envelope>, m: nat): nat
    requires m <= |c|
  {
    if m == 0 then 0 else HandedToFirst(c, envs, m - 1) + Handed(c[m - 1].id, envs)
  }

  function HandedToAll(c: seq<NodeState>, envs: seq<Envelope>): nat {
    HandedToFirst(c, envs, |c|)
  }

  function PhaseDeliveries(r: RoundState): nat {
    match r.progress
    case Announced(_) => |r.nodes|
    case Prepared(_, envs) => HandedToAll(r.nodes, envs)
    case Committed(_, envs) => HandedToAll(r.nodes, envs)
    case _ => 0
  }

  ghost function DeliveriesToEnd(r: RoundState, call: Call, rule: Rule): nat
    requires Staffed(r)
    decreases PhasesLeft(r.progress)
  {
    if r.progress.Done? then 0 else PhaseDeliveries(r) + DeliveriesToEnd(Advance(r, call, rule), call, rule)
  }

  /** A round is its next phase and the rest. */
  lemma {:induction false} OnePhase(r: RoundState, next: RoundState, call: Call, rule: Rule)
    requires Staffed(r) && !r.progress.Done? && next == Advance(r, call, rule)
    ensures RunToEnd(r, call, rule) == RunToEnd(next, call, rule)
    ensures DeliveriesToEnd(r, call, rule) == PhaseDeliveries(r) + DeliveriesToEnd(next, call, rule)
  {}

  lemma {:induction false} HandedStep(id: string, envs: seq<Envelope>, i: nat)
    requires i < |envs|
    ensures Handed(id, envs[..i + 1]) == Handed(id, envs[..i]) + (if envs[i].sender != id then 1 else 0)
  {
    assert envs[..i + 1][..i] == envs[..i];
  }

  // ---- Triggers --------------------------------------------------------------------------

  lemma {:induction false} HeardFromStep(s: NodeState, envs: seq<Envelope>, i: nat, rule: Rule)
    requires i < |envs|
    ensures HeardFrom(s, envs[..i + 1], rule) ==
            HeardFrom(s, envs[..i], rule) + (if Heard(s, envs[i], rule) then {envs[i].sender} else {})
  {
    assert envs[..i + 1] == envs[..i] + [envs[i]];
  }

  lemma {:induction false} TriggerStep(s: NodeState, tally: set<string>, envs: seq<Envelope>, i: nat, rule: Rule)
    requires i < |envs|
    ensures Trigger(s, tally, envs[..i + 1], rule) ==
            if Completes(s, tally, envs[..i], rule) then Trigger(s, tally, envs[..i], rule)
            else if Heard(s, envs[i], rule) && QuorumMet(s, tally + HeardFrom(s, envs[..i + 1], rule), rule) then i
            else -1
  {
    assert envs[..i + 1][..i] == envs[..i];
  }

  lemma {:induction false} QuorumMonotone(s: NodeState, a: set<string>, b: set<string>, rule: Rule)
    requires a <= b && QuorumMet(s, a, rule)
    requires rule.Counting? || NonNegative(s.knownReputations)
    ensures QuorumMet(s, b, rule)
  {
    match rule
    case Counting(f) => SubsetSize(a, b);
    case Weighted(total) => WeightMonotone(s.knownReputations, a, b);
  }

  /**
   The arrival order of a phase's messages is irrelevant: a node completes a quorum exactly when
   it hears at least one peer and the tally with everything it hears is a quorum.
   */
  lemma {:induction false} CompletesIffFinalQuorum(s: NodeState, tally: set<string>, envs: seq<Envelope>, rule: Rule)
    requires rule.Counting? || NonNegative(s.knownReputations)
    ensures Completes(s, tally, envs, rule) <==>
            HeardFrom(s, envs, rule) != {} && QuorumMet(s, tally + HeardFrom(s, envs, rule), rule)
  {
    if envs != [] {
      var n := |envs| - 1;
      CompletesIffFinalQuorum(s, tally, envs[..n], rule);
      assert envs[..n + 1] == envs;
      HeardFromStep(s, envs, n, rule);
      TriggerStep(s, tally, envs, n, rule);
      var before := HeardFrom(s, envs[..n], rule);
      var after := HeardFrom(s, envs, rule);
      if Completes(s, tally, envs[..n], rule) {
        QuorumMonotone(s, tally + before, tally + after, rule);
      } else if Heard(s, envs[n], rule) {
        assert envs[n].sender in after;
      } else {
        assert before == after;
      }
    }
  }
}
