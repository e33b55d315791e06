/**
 The message-at-a-time API of an instance (protocol/pbft.go:390-457, 519-545) as a step system.
 The instance holds the correct nodes; the network keeps everything ever sent, so a delivery may
 come in any order, any number of times, or never.
 */
module StepSystem {
  import opened Prelude
  import opened Messages
  import opened Quorum
  import opened NodeModel

  datatype Packet = Packet(addr: string, env: Envelope)

  /** `nodes[0]` is the leader. `sent` lists the calls of SendFn in order. */
  datatype System = System(nodes: seq<NodeState>, opLog: map<int, string>, sent: seq<Packet>)

  /** What never changes during a run: the fault bound, the address book and the faulty peers. */
  datatype Setting = Setting(f: nat, addrs: map<string, string>, faulty: set<string>)

  function Addressed(s: NodeState, addrs: map<string, string>, env: Envelope): Option<Packet> {
    if s.id in addrs then Some(Packet(addrs[s.id], env)) else None
  }

  function Packets(c: seq<NodeState>, addrs: map<string, string>, env: Envelope): (r: seq<Option<Packet>>)
    ensures |r| == |c| && forall i :: 0 <= i < |c| ==> r[i] == Addressed(c[i], addrs, env)
  {
    seq(|c|, i requires 0 <= i < |c| => Addressed(c[i], addrs, env))
  }

  /** sendToAll: one call per node with an address, in node order. */
  function Broadcast(c: seq<NodeState>, addrs: map<string, string>, env: Envelope): seq<Packet> {
    Gather(Packets(c, addrs, env))
  }

  // ---- Transitions -----------------------------------------------------------------------

  function SendAll(sys: System, env: Envelope, addrs: map<string, string>): System {
    sys.(sent := sys.sent + Broadcast(sys.nodes, addrs, env))
  }

  /** RunPrePrepare, lines 390-401. */
  function Propose(sys: System, operation: string, addrs: map<string, string>): System
    requires |sys.nodes| > 0
  {
    if sys.nodes[0].role != Leader then sys
    else
      var next := AfterStart(sys.nodes[0]);
      SendAll(System(sys.nodes[0 := next], sys.opLog[next.seqId := operation], sys.sent),
              PrePrepareEnvelope(next, next.seqId, operation), addrs)
  }

  /** ReceivePrePrepare at node i, lines 404-414. */
  function OnPrePrepare(sys: System, i: nat, env: Envelope, addrs: map<string, string>): System
    requires i < |sys.nodes|
  {
    var s := sys.nodes[i];
    if !AcceptsPrePrepare(s, env) then sys
    else SendAll(sys.(nodes := sys.nodes[i := AfterPrePrepare(s, env)]), PrepareEnvelope(s, env.body), addrs)
  }

  /** ReceivePrepare at node i, lines 418-431. */
  function OnPrepare(sys: System, i: nat, env: Envelope, f: int, addrs: map<string, string>): System
    requires i < |sys.nodes|
  {
    var s := sys.nodes[i];
    var moved := sys.(nodes := sys.nodes[i := AfterPrepare(s, env)]);
    match PrepareOutcome(s, env, f)
    case Sent(commit) => SendAll(moved, commit, addrs)
    case _ => moved
  }

  /** A sequence number without a stored operation reads as the empty string, lines 143-147. */
  function LoadOp(opLog: map<int, string>, seqId: int): string {
    if seqId in opLog then opLog[seqId] else ""
  }

  /** ReceiveCommit at node i, lines 435-457. */
  function OnCommit(sys: System, i: nat, env: Envelope, f: int): System
    requires i < |sys.nodes|
  {
    sys.(nodes := sys.nodes[i := AfterCommit(sys.nodes[i], env, f, LoadOp(sys.opLog, env.body.seqId))])
  }

  // ---- Runs ------------------------------------------------------------------------------

  /**
   `Skip` is any other draw from the leader's sequence counter (HandleIntraClusterRequest).
   The three deliveries route an envelope by its type to node `i`.
   */
  datatype Step =
    | Start(operation: string)
    | Skip
    | DeliverPrePrepare(i: nat, env: Envelope)
    | DeliverPrepare(i: nat, env: Envelope)
    | DeliverCommit(i: nat, env: Envelope)

  ghost function Net(sys: System): set<Envelope> {
    set p | p in sys.sent :: p.env
  }

  ghost predicate CorrectKey(c: seq<NodeState>, key: Key) {
    exists j :: 0 <= j < |c| && c[j].pubKey == key
  }

  /**
   Signatures are perfect: an envelope under a correct node's key was sent by the system. Anything
   else may be made up at any time by the faulty peers, except a PrePrepare.
   */
  ghost predicate Deliverable(sys: System, env: Envelope) {
    env in Net(sys) || (!CorrectKey(sys.nodes, env.signer) && !env.body.PrePrepare?)
  }

  ghost predicate Enabled(sys: System, step: Step) {
    match step
    case Start(_) => true
    case Skip => true
    case DeliverPrePrepare(i, env) => i < |sys.nodes| && Deliverable(sys, env)
    case DeliverPrepare(i, env) => i < |sys.nodes| && Deliverable(sys, env)
    case DeliverCommit(i, env) => i < |sys.nodes| && Deliverable(sys, env)
  }

  function Take(sys: System, step: Step, cfg: Setting): (next: System)
    requires |sys.nodes| > 0
    ensures |next.nodes| == |sys.nodes|
  {
    match step
    case Start(operation) => Propose(sys, operation, cfg.addrs)
    case Skip => sys.(nodes := sys.nodes[0 := AfterStart(sys.nodes[0])])
    case DeliverPrePrepare(i, env) => if i < |sys.nodes| then OnPrePrepare(sys, i, env, cfg.addrs) else sys
    case DeliverPrepare(i, env) => if i < |sys.nodes| then OnPrepare(sys, i, env, cfg.f, cfg.addrs) else sys
    case DeliverCommit(i, env) => if i < |sys.nodes| then OnCommit(sys, i, env, cfg.f) else sys
  }

  function Run(sys: System, steps: seq<Step>, cfg: Setting): (final: System)
    requires |sys.nodes| > 0
    ensures |final.nodes| == |sys.nodes|
  {
    if steps == [] then sys else Take(Run(sys, steps[..|steps| - 1], cfg), steps[|steps| - 1], cfg)
  }

  ghost predicate ValidRun(sys: System, steps: seq<Step>, cfg: Setting)
    requires |sys.nodes| > 0
  {
    steps != [] ==>
      var before := steps[..|steps| - 1];
      ValidRun(sys, before, cfg) && Enabled(Run(sys, before, cfg), steps[|steps| - 1])
  }

  // ---- Sending and refusing --------------------------------------------------------------

  /** Node by node: one packet to the address of every node that has one. */
  lemma {:induction false} BroadcastStep(c: seq<NodeState>, s: NodeState, addrs: map<string, string>, env: Envelope)
    ensures Broadcast([], addrs, env) == []
    ensures Broadcast(c + [s], addrs, env) ==
            Broadcast(c, addrs, env) + (if s.id in addrs then [Packet(addrs[s.id], env)] else [])
  {
    var packets := Packets(c + [s], addrs, env);
    assert packets[..|c|] == Packets(c, addrs, env);
    assert packets[|c|] == if s.id in addrs then Some(Packet(addrs[s.id], env)) else None;
  }

  /** A PrePrepare from an unknown sender or key, or whose digest is not its message's, changes nothing. */
  lemma {:induction false} RefusedPrePrepare(sys: System, i: nat, env: Envelope, addrs: map<string, string>)
    requires i < |sys.nodes|
    requires !Trusts(sys.nodes[i], env.sender, env.signer)
             || (env.body.PrePrepare? && env.body.digest != Digest(env.body.message))
    ensures OnPrePrepare(sys, i, env, addrs) == sys
  {}

  /**
   A Commit from a trusted sender in the node's view is executed if its sender is at least the 2f+1st and
   the number was not executed before; without a stored operation that logs the empty string.
   */
  lemma {:induction false} CommitLogs(sys: System, i: nat, env: Envelope, f: int)
    requires i < |sys.nodes| && Trusts(sys.nodes[i], env.sender, env.signer)
    requires env.body.Commit? && env.body.view == sys.nodes[i].view
    ensures var s, seqId := sys.nodes[i], env.body.seqId;
            OnCommit(sys, i, env, f).nodes[i].log ==
            if |Tally(s.commits, seqId) + {env.sender}| < 2 * f + 1 || seqId in s.executed then s.log
            else if seqId in sys.opLog then s.log + [sys.opLog[seqId]]
            else s.log + [""]
  {}

  // ---- The network only grows ------------------------------------------------------------

  ghost predicate SomeAddress(c: seq<NodeState>, addrs: map<string, string>) {
    exists i :: 0 <= i < |c| && c[i].id in addrs
  }

  lemma {:induction false} NetAfterSend(sys: System, env: Envelope, addrs: map<string, string>)
    ensures Net(SendAll(sys, env, addrs)) == Net(sys) + (if SomeAddress(sys.nodes, addrs) then {env} else {})
  {
    var packets := Packets(sys.nodes, addrs, env);
    GatherMembers(packets);
    var sent := SendAll(sys, env, addrs).sent;
    forall e
      ensures e in Net(SendAll(sys, env, addrs)) <==> e in Net(sys) || (SomeAddress(sys.nodes, addrs) && e == env)
    {
      if SomeAddress(sys.nodes, addrs) && e == env {
        var i :| 0 <= i < |sys.nodes| && sys.nodes[i].id in addrs;
        assert packets[i] == Some(Packet(addrs[sys.nodes[i].id], env));
        assert Packet(addrs[sys.nodes[i].id], env) in sent;
      }
      if e in Net(sys) {
        var p :| p in sys.sent && p.env == e;
        assert p in sent;
      }
      if e in Net(SendAll(sys, env, addrs)) {
        var p :| p in sent && p.env == e;
        assert p in sys.sent || Some(p) in packets;
      }
    }
  }
}
