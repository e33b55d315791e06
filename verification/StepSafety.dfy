/**
 Safety of the message-at-a-time API over every run: any delivery order, duplication and loss, any
 views, and at most f faulty peers sending arbitrary Prepares and Commits.
 */
module StepSafety {
  import opened Prelude
  import opened Messages
  import opened Quorum
  import opened NodeModel
  import opened StepSystem

  // ---- The invariant ---------------------------------------------------------------------

  /** Every trusted key of a peer that is not faulty is the key of a correct node of that name. */
  ghost predicate HonestDirectory(c: seq<NodeState>, faulty: set<string>) {
    forall i, id, key :: 0 <= i < |c| && Trusts(c[i], id, key) && id !in faulty ==>
      exists j :: 0 <= j < |c| && c[j].id == id && c[j].pubKey == key
  }

  ghost predicate HasPrepareFrom(net: set<Envelope>, sender: string, seqId: int) {
    exists e :: e in net && e.body.Prepare? && e.sender == sender && e.body.seqId == seqId
  }

  ghost predicate HasCommitFrom(net: set<Envelope>, sender: string, seqId: int) {
    exists e :: e in net && e.body.Commit? && e.sender == sender && e.body.seqId == seqId
  }

  /** Everyone in a correct node's tallies either is faulty or really sent that message. */
  ghost predicate PreparesBacked(s: NodeState, net: set<Envelope>, faulty: set<string>) {
    forall seqId, p :: p in Tally(s.prepares, seqId) ==> p in faulty || HasPrepareFrom(net, p, seqId)
  }

  ghost predicate CommitsBacked(s: NodeState, net: set<Envelope>, faulty: set<string>) {
    forall seqId, p :: p in Tally(s.commits, seqId) ==> p in faulty || HasCommitFrom(net, p, seqId)
  }

  ghost predicate ExecutedBacked(s: NodeState, f: nat) {
    forall seqId :: seqId in s.executed ==> HasQuorumLocal(|Tally(s.commits, seqId)|, f)
  }

  /** What a message on the network says about the node that sent it. */
  ghost predicate Earned(e: Envelope, s: NodeState, opLog: map<int, string>, f: nat) {
    && e.sender == s.id && e.signer == s.pubKey
    && (e.body.PrePrepare? || e.body.Prepare? ==> e.body.seqId in opLog)
    && (e.body.Commit? ==> HasQuorumLocal(|Tally(s.prepares, e.body.seqId)|, f))
  }

  ghost predicate NetBacked(sys: System, f: nat) {
    forall e :: e in Net(sys) ==> exists j :: 0 <= j < |sys.nodes| && Earned(e, sys.nodes[j], sys.opLog, f)
  }

  /** `order` lists the executed sequence numbers, once each, in the order of the log. */
  ghost predicate Orders(s: NodeState, opLog: map<int, string>, order: seq<int>) {
    && |order| == |s.log|
    && (forall k :: 0 <= k < |order| ==> order[k] in opLog && s.log[k] == opLog[order[k]])
    && (forall k, l :: 0 <= k < l < |order| ==> order[k] != order[l])
    && (forall seqId :: seqId in s.executed <==> seqId in order)
  }

  ghost predicate LogExplained(s: NodeState, opLog: map<int, string>) {
    exists order :: Orders(s, opLog, order)
  }

  ghost predicate Directory(c: seq<NodeState>, cfg: Setting) {
    && |c| > 0 && DistinctIds(c) && HonestDirectory(c, cfg.faulty)
    && |cfg.faulty| <= cfg.f
  }

  ghost predicate NodeBacked(s: NodeState, sys: System, cfg: Setting) {
    && PreparesBacked(s, Net(sys), cfg.faulty)
    && CommitsBacked(s, Net(sys), cfg.faulty)
    && ExecutedBacked(s, cfg.f)
    && LogExplained(s, sys.opLog)
  }

  ghost predicate Inv(sys: System, cfg: Setting) {
    && Directory(sys.nodes, cfg)
    && (forall i :: 0 <= i < |sys.nodes| ==> NodeBacked(sys.nodes[i], sys, cfg))
    && NetBacked(sys, cfg.f)
    && (forall seqId :: seqId in sys.opLog ==> seqId <= sys.nodes[0].seqId)
  }

  ghost predicate Initial(sys: System, cfg: Setting) {
    && Directory(sys.nodes, cfg)
    && sys.opLog == map[] && sys.sent == []
    && forall i :: 0 <= i < |sys.nodes| ==>
         var s := sys.nodes[i];
         s.prepares == map[] && s.commits == map[] && s.log == [] && s.executed == {}
  }

  lemma {:induction false} InitialInv(sys: System, cfg: Setting)
    requires Initial(sys, cfg)
    ensures Inv(sys, cfg)
  {
    forall i | 0 <= i < |sys.nodes|
      ensures NodeBacked(sys.nodes[i], sys, cfg)
    {
      assert Orders(sys.nodes[i], sys.opLog, []);
    }
  }

  // ---- What a quorum of Commits is worth -------------------------------------------------

  /** A Commit sent by a peer that is not faulty stands on 2f+1 Prepares held by that peer. */
  lemma {:induction false} CommitMeansPrepared(sys: System, cfg: Setting, p: string, seqId: int)
    requires NetBacked(sys, cfg.f) && HasCommitFrom(Net(sys), p, seqId)
    ensures CommittedBy(sys, cfg, p, seqId)
  {
    var e :| e in Net(sys) && e.body.Commit? && e.sender == p && e.body.seqId == seqId;
    var j :| 0 <= j < |sys.nodes| && Earned(e, sys.nodes[j], sys.opLog, cfg.f);
  }

  /** A Prepare tally that reached its quorum stands on a stored operation. */
  lemma {:induction false} PreparedMeansStored(sys: System, cfg: Setting, j: nat, seqId: int)
    requires NetBacked(sys, cfg.f) && |cfg.faulty| <= cfg.f
    requires j < |sys.nodes| && PreparesBacked(sys.nodes[j], Net(sys), cfg.faulty)
    requires HasQuorumLocal(|Tally(sys.nodes[j].prepares, seqId)|, cfg.f)
    ensures seqId in sys.opLog
  {
    var prepared := Tally(sys.nodes[j].prepares, seqId);
    QuorumHasCorrectMajority(prepared, cfg.faulty, cfg.f);
    var q :| q in prepared - cfg.faulty;
    var e :| e in Net(sys) && e.body.Prepare? && e.sender == q && e.body.seqId == seqId;
  }

  /** A Commit tally that reached its quorum stands on a stored operation. */
  lemma {:induction false} CommitQuorumMeansStored(sys: System, cfg: Setting, senders: set<string>, seqId: int)
    returns (witnesses: set<string>)
    requires NetBacked(sys, cfg.f) && |cfg.faulty| <= cfg.f
    requires forall i :: 0 <= i < |sys.nodes| ==> PreparesBacked(sys.nodes[i], Net(sys), cfg.faulty)
    requires HasQuorumLocal(|senders|, cfg.f)
    requires forall p :: p in senders ==> p in cfg.faulty || HasCommitFrom(Net(sys), p, seqId)
    ensures seqId in sys.opLog
    ensures |witnesses| >= cfg.f + 1 && witnesses <= senders && witnesses !! cfg.faulty
    ensures forall p :: p in witnesses ==> CommittedBy(sys, cfg, p, seqId)
  {
    QuorumHasCorrectMajority(senders, cfg.faulty, cfg.f);
    witnesses := senders - cfg.faulty;
    forall p | p in witnesses
      ensures CommittedBy(sys, cfg, p, seqId)
    {
      CommitMeansPrepared(sys, cfg, p, seqId);
    }
    var p :| p in witnesses;
    var j :| 0 <= j < |sys.nodes| && sys.nodes[j].id == p
             && HasQuorumLocal(|Tally(sys.nodes[j].prepares, seqId)|, cfg.f);
    PreparedMeansStored(sys, cfg, j, seqId);
  }

  /** Correct node `p` sent Commit(seqId) and holds 2f+1 distinct Prepares for it. */
  ghost predicate CommittedBy(sys: System, cfg: Setting, p: string, seqId: int) {
    && HasCommitFrom(Net(sys), p, seqId)
    && exists j :: 0 <= j < |sys.nodes| && sys.nodes[j].id == p
                   && HasQuorumLocal(|Tally(sys.nodes[j].prepares, seqId)|, cfg.f)
  }

  // ---- Preservation ----------------------------------------------------------------------

  /** Tallies, the network and the stored operations only grow; identities stay. */
  ghost predicate Grows(a: System, b: System) {
    && |a.nodes| == |b.nodes| && Net(a) <= Net(b)
    && (forall seqId :: seqId in a.opLog ==> seqId in b.opLog && b.opLog[seqId] == a.opLog[seqId])
    && forall i :: 0 <= i < |a.nodes| ==>
         && SameIdentity(a.nodes[i], b.nodes[i])
         && forall seqId :: Tally(a.nodes[i].prepares, seqId) <= Tally(b.nodes[i].prepares, seqId)
  }

  lemma {:induction false} DirectoryStays(a: System, b: System, cfg: Setting)
    requires Directory(a.nodes, cfg) && Grows(a, b)
    ensures Directory(b.nodes, cfg)
  {
    forall i, id, key | 0 <= i < |b.nodes| && Trusts(b.nodes[i], id, key) && id !in cfg.faulty
      ensures exists j :: 0 <= j < |b.nodes| && b.nodes[j].id == id && b.nodes[j].pubKey == key
    {
      assert Trusts(a.nodes[i], id, key);
      var j :| 0 <= j < |a.nodes| && a.nodes[j].id == id && a.nodes[j].pubKey == key;
      assert SameIdentity(a.nodes[j], b.nodes[j]);
    }
  }

  lemma {:induction false} EarnedStays(e: Envelope, a: System, b: System, f: nat)
    requires Grows(a, b)
    requires exists j :: 0 <= j < |a.nodes| && Earned(e, a.nodes[j], a.opLog, f)
    ensures exists j :: 0 <= j < |b.nodes| && Earned(e, b.nodes[j], b.opLog, f)
  {
    var j :| 0 <= j < |a.nodes| && Earned(e, a.nodes[j], a.opLog, f);
    SubsetSize(Tally(a.nodes[j].prepares, e.body.seqId), Tally(b.nodes[j].prepares, e.body.seqId));
    assert Earned(e, b.nodes[j], b.opLog, f);
  }

  lemma {:induction false} BackingStays(s: NodeState, a: System, b: System, cfg: Setting)
    requires Grows(a, b) && NodeBacked(s, a, cfg)
    ensures NodeBacked(s, b, cfg)
  {
    forall seqId, p | p in Tally(s.prepares, seqId) && p !in cfg.faulty
      ensures HasPrepareFrom(Net(b), p, seqId)
    {
      var e :| e in Net(a) && e.body.Prepare? && e.sender == p && e.body.seqId == seqId;
    }
    forall seqId, p | p in Tally(s.commits, seqId) && p !in cfg.faulty
      ensures HasCommitFrom(Net(b), p, seqId)
    {
      var e :| e in Net(a) && e.body.Commit? && e.sender == p && e.body.seqId == seqId;
    }
    var order :| Orders(s, a.opLog, order);
    assert Orders(s, b.opLog, order);
  }

  /**
   One node moved, at most one envelope was sent, and what is new is backed: then the invariant
   holds again.
   */
  lemma {:induction false} InvAfter(a: System, b: System, cfg: Setting, i: nat)
    requires Inv(a, cfg) && Grows(a, b) && i < |a.nodes|
    requires forall k :: 0 <= k < |a.nodes| && k != i ==> b.nodes[k] == a.nodes[k]
    requires NodeBacked(b.nodes[i], b, cfg)
    requires forall e :: e in Net(b) && e !in Net(a) ==> Earned(e, b.nodes[i], b.opLog, cfg.f)
    requires b.nodes[0].seqId >= a.nodes[0].seqId
    requires forall seqId :: seqId in b.opLog && seqId !in a.opLog ==> seqId <= b.nodes[0].seqId
    ensures Inv(b, cfg)
  {
    DirectoryStays(a, b, cfg);
    forall k | 0 <= k < |b.nodes|
      ensures NodeBacked(b.nodes[k], b, cfg)
    {
      if k != i {
        BackingStays(a.nodes[k], a, b, cfg);
      }
    }
    forall e | e in Net(b)
      ensures exists j :: 0 <= j < |b.nodes| && Earned(e, b.nodes[j], b.opLog, cfg.f)
    {
      if e in Net(a) {
        EarnedStays(e, a, b, cfg.f);
      }
    }
  }

  /** An authentic message from a peer that is not faulty was really sent by the system. */
  lemma {:induction false} AuthenticMeansSent(sys: System, cfg: Setting, i: nat, env: Envelope)
    requires Directory(sys.nodes, cfg) && i < |sys.nodes| && Deliverable(sys, env)
    requires Authentic(sys.nodes[i], env) && (env.sender !in cfg.faulty || env.body.PrePrepare?)
    ensures env in Net(sys)
  {
    if env.sender !in cfg.faulty {
      assert Trusts(sys.nodes[i], env.sender, env.signer);
    }
  }

  /** A node whose tallies, log and executions did not change is as well backed as before. */
  lemma {:induction false} SameRecordsBacked(s: NodeState, t: NodeState, a: System, b: System, cfg: Setting)
    requires NodeBacked(s, a, cfg) && Grows(a, b)
    requires t.prepares == s.prepares && t.commits == s.commits && t.log == s.log && t.executed == s.executed
    ensures NodeBacked(t, b, cfg)
  {
    BackingStays(s, a, b, cfg);
    var order :| Orders(s, b.opLog, order);
    assert Orders(t, b.opLog, order);
  }

  /** The leader's counter bounds every stored sequence number, so a proposal never overwrites one. */
  lemma {:induction false} ProposeGrows(a: System, operation: string, addrs: map<string, string>)
    requires |a.nodes| > 0 && a.nodes[0].role == Leader
    requires forall seqId :: seqId in a.opLog ==> seqId <= a.nodes[0].seqId
    ensures var b, next := Propose(a, operation, addrs), AfterStart(a.nodes[0]);
            && Grows(a, b)
            && b.nodes == a.nodes[0 := next] && b.opLog == a.opLog[next.seqId := operation]
            && Net(b) ==
               Net(a) + (if SomeAddress(b.nodes, addrs) then {PrePrepareEnvelope(next, next.seqId, operation)} else {})
  {
    var next := AfterStart(a.nodes[0]);
    var mid := System(a.nodes[0 := next], a.opLog[next.seqId := operation], a.sent);
    assert Net(mid) == Net(a);
    NetAfterSend(mid, PrePrepareEnvelope(next, next.seqId, operation), addrs);
  }

  lemma {:induction false} StartKeepsInv(a: System, operation: string, cfg: Setting)
    requires Inv(a, cfg)
    ensures Inv(Propose(a, operation, cfg.addrs), cfg)
  {
    var b := Propose(a, operation, cfg.addrs);
    if a.nodes[0].role == Leader {
      ProposeGrows(a, operation, cfg.addrs);
      SameRecordsBacked(a.nodes[0], b.nodes[0], a, b, cfg);
      InvAfter(a, b, cfg, 0);
    }
  }

  lemma {:induction false} SkipKeepsInv(a: System, cfg: Setting)
    requires Inv(a, cfg)
    ensures Inv(Take(a, Skip, cfg), cfg)
  {
    var b := Take(a, Skip, cfg);
    assert Net(b) == Net(a);
    SameRecordsBacked(a.nodes[0], b.nodes[0], a, b, cfg);
    InvAfter(a, b, cfg, 0);
  }

  lemma {:induction false} PrePrepareStepGrows(a: System, i: nat, env: Envelope, cfg: Setting)
    requires i < |a.nodes|
    ensures var s, b := a.nodes[i], OnPrePrepare(a, i, env, cfg.addrs);
            && Grows(a, b) && b.opLog == a.opLog && b.nodes == a.nodes[i := AfterPrePrepare(s, env)]
            && Net(b) == Net(a) + (if AcceptsPrePrepare(s, env) && SomeAddress(b.nodes, cfg.addrs)
                                   then {PrepareEnvelope(s, env.body)} else {})
  {
    var s := a.nodes[i];
    HandlersKeepIdentity(s, env, cfg.f, "");
    if AcceptsPrePrepare(s, env) {
      var moved := a.(nodes := a.nodes[i := AfterPrePrepare(s, env)]);
      assert Net(moved) == Net(a);
      NetAfterSend(moved, PrepareEnvelope(s, env.body), cfg.addrs);
    }
  }

  lemma {:induction false} PrePrepareKeepsInv(a: System, i: nat, env: Envelope, cfg: Setting)
    requires Inv(a, cfg) && i < |a.nodes| && Deliverable(a, env)
    ensures Inv(OnPrePrepare(a, i, env, cfg.addrs), cfg)
  {
    var s, b := a.nodes[i], OnPrePrepare(a, i, env, cfg.addrs);
    PrePrepareStepGrows(a, i, env, cfg);
    if AcceptsPrePrepare(s, env) {
      AuthenticMeansSent(a, cfg, i, env);
    }
    SameRecordsBacked(s, b.nodes[i], a, b, cfg);
    InvAfter(a, b, cfg, i);
  }

  /** Tallying an authentic Prepare keeps the node backed, before anything is sent. */
  lemma {:induction false} PrepareTallyBacked(a: System, i: nat, env: Envelope, cfg: Setting)
    requires Inv(a, cfg) && i < |a.nodes| && Deliverable(a, env) && AcceptsPrepare(a.nodes[i], env)
    ensures NodeBacked(AfterPrepare(a.nodes[i], env), a, cfg)
  {
    var s := a.nodes[i];
    var t := AfterPrepare(s, env);
    assert NodeBacked(s, a, cfg);
    if env.sender !in cfg.faulty {
      AuthenticMeansSent(a, cfg, i, env);
      assert HasPrepareFrom(Net(a), env.sender, env.body.seqId);
    }
    assert PreparesBacked(t, Net(a), cfg.faulty);
    var order :| Orders(s, a.opLog, order);
    assert Orders(t, a.opLog, order);
  }

  lemma {:induction false} PrepareStepGrows(a: System, i: nat, env: Envelope, cfg: Setting)
    requires i < |a.nodes|
    ensures var b := OnPrepare(a, i, env, cfg.f, cfg.addrs);
            && Grows(a, b) && b.opLog == a.opLog && b.nodes == a.nodes[i := AfterPrepare(a.nodes[i], env)]
            && forall e :: e in Net(b) && e !in Net(a) ==>
                 AcceptsPrepare(a.nodes[i], env) && PrepareOutcome(a.nodes[i], env, cfg.f) == Handled.Sent(e)
  {
    var r := PrepareOutcome(a.nodes[i], env, cfg.f);
    var moved := a.(nodes := a.nodes[i := AfterPrepare(a.nodes[i], env)]);
    assert Net(moved) == Net(a);
    if r.Sent? {
      NetAfterSend(moved, r.msg, cfg.addrs);
    }
    HandlersKeepIdentity(a.nodes[i], env, cfg.f, "");
  }

  lemma {:induction false} PrepareKeepsInv(a: System, i: nat, env: Envelope, cfg: Setting)
    requires Inv(a, cfg) && i < |a.nodes| && Deliverable(a, env)
    ensures Inv(OnPrepare(a, i, env, cfg.f, cfg.addrs), cfg)
  {
    var b := OnPrepare(a, i, env, cfg.f, cfg.addrs);
    PrepareStepGrows(a, i, env, cfg);
    if AcceptsPrepare(a.nodes[i], env) {
      PrepareTallyBacked(a, i, env, cfg);
    }
    BackingStays(b.nodes[i], a, b, cfg);
    InvAfter(a, b, cfg, i);
  }

  /** Executing a stored operation extends the explanation of the log by one entry. */
  lemma {:induction false} AppliedExplained(s: NodeState, seqId: int, opLog: map<int, string>)
    requires LogExplained(s, opLog) && seqId in opLog
    ensures LogExplained(Applied(s, seqId, opLog[seqId]), opLog)
  {
    if seqId !in s.executed {
      var order :| Orders(s, opLog, order);
      assert Orders(Applied(s, seqId, opLog[seqId]), opLog, order + [seqId]);
    }
  }

  lemma {:induction false} CommitTallyBacked(a: System, i: nat, env: Envelope, cfg: Setting)
    requires Inv(a, cfg) && i < |a.nodes| && Deliverable(a, env) && AcceptsCommit(a.nodes[i], env)
    ensures CommitsBacked(WithCommits(a.nodes[i], env.body.seqId, {env.sender}), Net(a), cfg.faulty)
  {
    if env.sender !in cfg.faulty {
      AuthenticMeansSent(a, cfg, i, env);
      assert HasCommitFrom(Net(a), env.sender, env.body.seqId);
    }
  }

  lemma {:induction false} CommitKeepsInv(a: System, i: nat, env: Envelope, cfg: Setting)
    requires Inv(a, cfg) && i < |a.nodes| && Deliverable(a, env)
    ensures Inv(OnCommit(a, i, env, cfg.f), cfg)
  {
    var s, seqId := a.nodes[i], env.body.seqId;
    var b := OnCommit(a, i, env, cfg.f);
    assert Net(b) == Net(a);
    if AcceptsCommit(s, env) {
      CommitTallyBacked(a, i, env, cfg);
      var t := WithCommits(s, seqId, {env.sender});
      var order :| Orders(s, a.opLog, order);
      assert Orders(t, a.opLog, order);
      TallyGrowsExecuted(s, seqId, env.sender, cfg.f);
      if CommitQuorum(s, env, cfg.f) {
        var _ := CommitQuorumMeansStored(a, cfg, Tally(t.commits, seqId), seqId);
        AppliedExplained(t, seqId, a.opLog);
      }
      assert NodeBacked(b.nodes[i], b, cfg);
    }
    HandlersKeepIdentity(s, env, cfg.f, LoadOp(a.opLog, seqId));
    InvAfter(a, b, cfg, i);
  }

  lemma {:induction false} TallyGrowsExecuted(s: NodeState, seqId: int, sender: string, f: nat)
    requires ExecutedBacked(s, f)
    ensures ExecutedBacked(WithCommits(s, seqId, {sender}), f)
  {
    SubsetSize(Tally(s.commits, seqId), Tally(s.commits, seqId) + {sender});
  }

  // ---- Whole runs ------------------------------------------------------------------------

  lemma {:induction false} StepKeepsInv(a: System, step: Step, cfg: Setting)
    requires Inv(a, cfg) && Enabled(a, step)
    ensures Inv(Take(a, step, cfg), cfg)
  {
    match step
    case Start(operation) => StartKeepsInv(a, operation, cfg);
    case Skip => SkipKeepsInv(a, cfg);
    case DeliverPrePrepare(i, env) => PrePrepareKeepsInv(a, i, env, cfg);
    case DeliverPrepare(i, env) => PrepareKeepsInv(a, i, env, cfg);
    case DeliverCommit(i, env) => CommitKeepsInv(a, i, env, cfg);
  }

  lemma {:induction false} ReachableInv(sys: System, steps: seq<Step>, cfg: Setting)
    requires Initial(sys, cfg) && ValidRun(sys, steps, cfg)
    ensures Inv(Run(sys, steps, cfg), cfg)
  {
    if steps == [] {
      InitialInv(sys, cfg);
    } else {
      ReachableInv(sys, steps[..|steps| - 1], cfg);
      StepKeepsInv(Run(sys, steps[..|steps| - 1], cfg), steps[|steps| - 1], cfg);
    }
  }

  /**
   In every reachable state, an executed sequence number stands on a stored operation and on f+1
   correct nodes that each sent its Commit holding 2f+1 distinct Prepares.
   */
  lemma {:induction false} ExecutedIsCertified(sys: System, steps: seq<Step>, cfg: Setting, i: nat, seqId: int)
    returns (witnesses: set<string>)
    requires Initial(sys, cfg) && ValidRun(sys, steps, cfg)
    requires i < |sys.nodes| && seqId in Run(sys, steps, cfg).nodes[i].executed
    ensures seqId in Run(sys, steps, cfg).opLog
    ensures |witnesses| >= cfg.f + 1 && witnesses !! cfg.faulty
    ensures forall p :: p in witnesses ==> CommittedBy(Run(sys, steps, cfg), cfg, p, seqId)
  {
    ReachableInv(sys, steps, cfg);
    var now := Run(sys, steps, cfg);
    assert NodeBacked(now.nodes[i], now, cfg);
    witnesses := CommitQuorumMeansStored(now, cfg, Tally(now.nodes[i].commits, seqId), seqId);
  }

  // ---- Agreement -------------------------------------------------------------------------

  /**
   Every correct node's log is, in every reachable state, exactly the stored operations of what it
   executed: one entry per executed sequence number, and nothing else.
   */
  lemma {:induction false} LogIsWhatWasStored(sys: System, steps: seq<Step>, cfg: Setting, i: nat)
    requires Initial(sys, cfg) && ValidRun(sys, steps, cfg) && i < |sys.nodes|
    ensures LogExplained(Run(sys, steps, cfg).nodes[i], Run(sys, steps, cfg).opLog)
  {
    ReachableInv(sys, steps, cfg);
    assert NodeBacked(Run(sys, steps, cfg).nodes[i], Run(sys, steps, cfg), cfg);
  }

  lemma {:induction false} RemoveAtMultiset(s: seq<string>, k: nat)
    requires k < |s|
    ensures multiset(s) == multiset(RemoveAt(s, k)) + multiset{s[k]}
  {
    assert s == s[..k] + [s[k]] + s[k + 1..];
  }

  /** The log holds, entry by entry, what is stored under the listed numbers. */
  ghost predicate Lists(opLog: map<int, string>, order: seq<int>, log: seq<string>) {
    |order| == |log| && forall k :: 0 <= k < |order| ==> log[k] == LoadOp(opLog, order[k])
  }

  lemma {:induction false} RemovedStillLists(opLog: map<int, string>, order: seq<int>, log: seq<string>, k: nat)
    requires Lists(opLog, order, log) && k < |order|
    ensures Lists(opLog, RemoveAt(order, k), RemoveAt(log, k))
  {}

  /** Two logs that list the same sequence numbers once each hold the same operations. */
  lemma {:induction false} PermutedLogs(
      opLog: map<int, string>, o: seq<int>, p: seq<int>, l: seq<string>, m: seq<string>)
    requires Lists(opLog, o, l) && Lists(opLog, p, m) && NoRepeats(o) && NoRepeats(p)
    requires forall x :: x in o <==> x in p
    ensures multiset(l) == multiset(m)
    decreases |o|
  {
    assert p != [] ==> p[0] in o;
    if o != [] {
      assert o[0] in p;
      var k :| 0 <= k < |p| && p[k] == o[0];
      assert l[0] == m[k];
      RemoveAtElements(o, 0);
      RemoveAtElements(p, k);
      RemovedStillLists(opLog, o, l, 0);
      RemovedStillLists(opLog, p, m, k);
      PermutedLogs(opLog, RemoveAt(o, 0), RemoveAt(p, k), RemoveAt(l, 0), RemoveAt(m, k));
      RemoveAtMultiset(l, 0);
      RemoveAtMultiset(m, k);
    }
  }

  /**
   The stored operations are common to all nodes, so two correct nodes that executed the same
   sequence numbers hold the same log up to order, in every reachable state.
   */
  lemma {:induction false} LogsAgreeUpToOrder(sys: System, steps: seq<Step>, cfg: Setting, i: nat, j: nat)
    requires Initial(sys, cfg) && ValidRun(sys, steps, cfg) && i < |sys.nodes| && j < |sys.nodes|
    requires Run(sys, steps, cfg).nodes[i].executed == Run(sys, steps, cfg).nodes[j].executed
    ensures multiset(Run(sys, steps, cfg).nodes[i].log) == multiset(Run(sys, steps, cfg).nodes[j].log)
  {
    LogIsWhatWasStored(sys, steps, cfg, i);
    LogIsWhatWasStored(sys, steps, cfg, j);
    var now := Run(sys, steps, cfg);
    var s, t := now.nodes[i], now.nodes[j];
    var o :| Orders(s, now.opLog, o);
    var p :| Orders(t, now.opLog, p);
    assert forall x :: x in o <==> x in p by {
      assert forall x :: x in s.executed <==> x in o;
      assert forall x :: x in t.executed <==> x in p;
    }
    PermutedLogs(now.opLog, o, p, s.log, t.log);
  }

  /** In the log of `s`, explained by `order`, position k is the entry of `seqId`. */
  ghost predicate LoggedAt(s: NodeState, opLog: map<int, string>, order: seq<int>, k: nat, seqId: int) {
    Orders(s, opLog, order) && k < |order| && order[k] == seqId
  }

  /**
   Two correct nodes that executed the same sequence number logged the same operation for it: the
   entry of that number in either log is the one operation stored under it.
   */
  lemma {:induction false} SameOperationLogged(sys: System, steps: seq<Step>, cfg: Setting, i: nat, j: nat, seqId: int)
    returns (o: seq<int>, k: nat, p: seq<int>, l: nat)
    requires Initial(sys, cfg) && ValidRun(sys, steps, cfg) && i < |sys.nodes| && j < |sys.nodes|
    requires seqId in Run(sys, steps, cfg).nodes[i].executed && seqId in Run(sys, steps, cfg).nodes[j].executed
    ensures var now := Run(sys, steps, cfg);
            && LoggedAt(now.nodes[i], now.opLog, o, k, seqId) && LoggedAt(now.nodes[j], now.opLog, p, l, seqId)
            && seqId in now.opLog
            && now.nodes[i].log[k] == now.nodes[j].log[l] == now.opLog[seqId]
  {
    LogIsWhatWasStored(sys, steps, cfg, i);
    LogIsWhatWasStored(sys, steps, cfg, j);
    var now := Run(sys, steps, cfg);
    o :| Orders(now.nodes[i], now.opLog, o);
    p :| Orders(now.nodes[j], now.opLog, p);
    k :| 0 <= k < |o| && o[k] == seqId;
    l :| 0 <= l < |p| && p[l] == seqId;
  }
}
