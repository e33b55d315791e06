/**
 Quiescence implies execution: once everything sent for a sequence number has been delivered to
 2f+1 correct nodes with addresses, every one of them has executed it.
 */
module StepLiveness {
  import opened Prelude
  import opened Messages
  import opened Quorum
  import opened NodeModel
  import opened StepSystem
  import opened StepSafety

  // ---- Nodes answer whatever completes a quorum ------------------------------------------

  ghost predicate CommitSentBy(net: set<Envelope>, s: NodeState, seqId: int) {
    exists e :: e in net && e.body.Commit? && e.sender == s.id && e.signer == s.pubKey
                && e.body.seqId == seqId && e.body.view == s.view
  }

  ghost predicate Responsive(s: NodeState, net: set<Envelope>, f: nat) {
    && (forall seqId :: HasQuorumLocal(|Tally(s.prepares, seqId)|, f) ==> CommitSentBy(net, s, seqId))
    && (forall seqId :: HasQuorumLocal(|Tally(s.commits, seqId)|, f) ==> seqId in s.executed)
  }

  /** A delivery whose message the node accepts has left its trace. */
  ghost predicate Traced(step: Step, sys: System) {
    match step
    case DeliverPrePrepare(i, e) =>
      i < |sys.nodes| && AcceptsPrePrepare(sys.nodes[i], e) ==> PrepareEnvelope(sys.nodes[i], e.body) in Net(sys)
    case DeliverPrepare(i, e) =>
      i < |sys.nodes| && AcceptsPrepare(sys.nodes[i], e) ==> e.sender in Tally(sys.nodes[i].prepares, e.body.seqId)
    case DeliverCommit(i, e) =>
      i < |sys.nodes| && AcceptsCommit(sys.nodes[i], e) ==> e.sender in Tally(sys.nodes[i].commits, e.body.seqId)
    case _ => true
  }

  ghost predicate Announced(sys: System) {
    |sys.nodes| > 0 &&
    forall seqId :: seqId in sys.opLog ==> PrePrepareEnvelope(sys.nodes[0], seqId, sys.opLog[seqId]) in Net(sys)
  }

  ghost predicate Live(sys: System, steps: seq<Step>, cfg: Setting) {
    && SomeAddress(sys.nodes, cfg.addrs)
    && Announced(sys)
    && (forall i :: 0 <= i < |sys.nodes| ==> Responsive(sys.nodes[i], Net(sys), cfg.f))
    && (forall step :: step in steps ==> Traced(step, sys))
  }

  // ---- Preservation ----------------------------------------------------------------------

  ghost predicate Evolves(a: System, b: System) {
    && Grows(a, b)
    && forall i :: 0 <= i < |a.nodes| ==>
         forall seqId :: Tally(a.nodes[i].commits, seqId) <= Tally(b.nodes[i].commits, seqId)
  }

  lemma {:induction false} TraceStays(step: Step, a: System, b: System)
    requires Evolves(a, b) && Traced(step, a)
    ensures Traced(step, b)
  {
    match step
    case DeliverPrePrepare(i, e) => if i < |a.nodes| { SameAcceptance(a.nodes[i], b.nodes[i], e); }
    case DeliverPrepare(i, e) => if i < |a.nodes| { SameAcceptance(a.nodes[i], b.nodes[i], e); }
    case DeliverCommit(i, e) => if i < |a.nodes| { SameAcceptance(a.nodes[i], b.nodes[i], e); }
    case _ =>
  }

  lemma {:induction false} SameAcceptance(s: NodeState, t: NodeState, e: Envelope)
    requires SameIdentity(s, t)
    ensures AcceptsPrePrepare(s, e) == AcceptsPrePrepare(t, e)
    ensures AcceptsPrepare(s, e) == AcceptsPrepare(t, e)
    ensures AcceptsCommit(s, e) == AcceptsCommit(t, e)
  {
    assert Trusts(s, e.sender, e.signer) <==> Trusts(t, e.sender, e.signer);
  }

  lemma {:induction false} LiveAfter(a: System, b: System, steps: seq<Step>, step: Step, cfg: Setting, i: nat)
    requires Live(a, steps, cfg) && Evolves(a, b) && i < |a.nodes|
    requires forall k :: 0 <= k < |a.nodes| && k != i ==> b.nodes[k] == a.nodes[k]
    requires Responsive(b.nodes[i], Net(b), cfg.f) && Traced(step, b) && Announced(b)
    ensures Live(b, steps + [step], cfg)
  {
    var j :| 0 <= j < |a.nodes| && a.nodes[j].id in cfg.addrs;
    assert SameIdentity(a.nodes[j], b.nodes[j]);
    forall k | 0 <= k < |b.nodes|
      ensures Responsive(b.nodes[k], Net(b), cfg.f)
    {
      if k != i {
        ResponsiveStays(a.nodes[k], b.nodes[k], Net(a), Net(b), cfg.f);
      }
    }
    forall s | s in steps
      ensures Traced(s, b)
    {
      TraceStays(s, a, b);
    }
  }

  lemma {:induction false} ResponsiveStays(s: NodeState, t: NodeState, net: set<Envelope>, wider: set<Envelope>, f: nat)
    requires Responsive(s, net, f) && net <= wider && SameIdentity(s, t)
    requires t.prepares == s.prepares && t.commits == s.commits && t.executed == s.executed
    ensures Responsive(t, wider, f)
  {
    forall seqId | HasQuorumLocal(|Tally(t.prepares, seqId)|, f)
      ensures CommitSentBy(wider, t, seqId)
    {
      var e :| e in net && e.body.Commit? && e.sender == s.id && e.signer == s.pubKey
               && e.body.seqId == seqId && e.body.view == s.view;
    }
  }

  lemma {:induction false} AnnouncedStays(a: System, b: System)
    requires Announced(a) && Grows(a, b) && b.opLog == a.opLog
    ensures Announced(b)
  {
    assert SameIdentity(a.nodes[0], b.nodes[0]);
  }

  lemma {:induction false} ProposalAnnounced(a: System, operation: string, cfg: Setting)
    requires Announced(a) && a.nodes[0].role == Leader && SomeAddress(a.nodes, cfg.addrs)
    requires forall seqId :: seqId in a.opLog ==> seqId <= a.nodes[0].seqId
    ensures Announced(Propose(a, operation, cfg.addrs))
  {
    ProposeGrows(a, operation, cfg.addrs);
    SameAddresses(a.nodes, Propose(a, operation, cfg.addrs).nodes, cfg.addrs);
  }

  lemma {:induction false} ProposeEvolves(a: System, operation: string, cfg: Setting)
    requires Inv(a, cfg) && a.nodes[0].role == Leader
    requires Responsive(a.nodes[0], Net(a), cfg.f)
    ensures var b := Propose(a, operation, cfg.addrs);
            && Evolves(a, b) && Responsive(b.nodes[0], Net(b), cfg.f)
            && forall k :: 0 < k < |a.nodes| ==> b.nodes[k] == a.nodes[k]
  {
    var b := Propose(a, operation, cfg.addrs);
    ProposeGrows(a, operation, cfg.addrs);
    ResponsiveStays(a.nodes[0], b.nodes[0], Net(a), Net(b), cfg.f);
  }

  lemma {:induction false} StartKeepsLive(a: System, steps: seq<Step>, operation: string, cfg: Setting)
    requires Inv(a, cfg) && Live(a, steps, cfg)
    ensures Live(Propose(a, operation, cfg.addrs), steps + [Start(operation)], cfg)
  {
    if a.nodes[0].role == Leader {
      ProposeEvolves(a, operation, cfg);
      ProposalAnnounced(a, operation, cfg);
      LiveAfter(a, Propose(a, operation, cfg.addrs), steps, Start(operation), cfg, 0);
    }
  }

  lemma {:induction false} SkipKeepsLive(a: System, steps: seq<Step>, cfg: Setting)
    requires Live(a, steps, cfg)
    ensures Live(Take(a, Skip, cfg), steps + [Skip], cfg)
  {
    var b := Take(a, Skip, cfg);
    assert Net(b) == Net(a);
    ResponsiveStays(a.nodes[0], b.nodes[0], Net(a), Net(b), cfg.f);
    AnnouncedStays(a, b);
    LiveAfter(a, b, steps, Skip, cfg, 0);
  }

  lemma {:induction false} PrePrepareKeepsLive(a: System, steps: seq<Step>, i: nat, env: Envelope, cfg: Setting)
    requires Live(a, steps, cfg) && i < |a.nodes|
    ensures Live(OnPrePrepare(a, i, env, cfg.addrs), steps + [DeliverPrePrepare(i, env)], cfg)
  {
    var s, b := a.nodes[i], OnPrePrepare(a, i, env, cfg.addrs);
    PrePrepareStepGrows(a, i, env, cfg);
    SameAddresses(a.nodes, b.nodes, cfg.addrs);
    SameAcceptance(s, b.nodes[i], env);
    ResponsiveStays(s, b.nodes[i], Net(a), Net(b), cfg.f);
    AnnouncedStays(a, b);
    LiveAfter(a, b, steps, DeliverPrePrepare(i, env), cfg, i);
  }

  lemma {:induction false} SameAddresses(c: seq<NodeState>, d: seq<NodeState>, addrs: map<string, string>)
    requires SomeAddress(c, addrs) && |c| == |d| && forall i :: 0 <= i < |c| ==> c[i].id == d[i].id
    ensures SomeAddress(d, addrs)
  {
    var j :| 0 <= j < |c| && c[j].id in addrs;
    assert d[j].id in addrs;
  }

  /** HandlePrepare answers with a Commit the moment its tally is a quorum. */
  lemma {:induction false} PrepareAnswered(a: System, i: nat, env: Envelope, cfg: Setting)
    requires i < |a.nodes| && SomeAddress(a.nodes, cfg.addrs) && Responsive(a.nodes[i], Net(a), cfg.f)
    requires AcceptsPrepare(a.nodes[i], env)
    ensures var b := OnPrepare(a, i, env, cfg.f, cfg.addrs);
            Responsive(b.nodes[i], Net(b), cfg.f)
  {
    var s, b := a.nodes[i], OnPrepare(a, i, env, cfg.f, cfg.addrs);
    var t, r := AfterPrepare(s, env), PrepareOutcome(s, env, cfg.f);
    var moved := a.(nodes := a.nodes[i := t]);
    assert Net(moved) == Net(a);
    if r.Sent? {
      NetAfterSend(moved, r.msg, cfg.addrs);
      SameAddresses(a.nodes, moved.nodes, cfg.addrs);
      assert r.msg in Net(b);
    }
    forall seqId | HasQuorumLocal(|Tally(t.prepares, seqId)|, cfg.f)
      ensures CommitSentBy(Net(b), t, seqId)
    {
      if seqId != env.body.seqId {
        assert CommitSentBy(Net(a), s, seqId);
      }
    }
  }

  lemma {:induction false} PrepareKeepsLive(a: System, steps: seq<Step>, i: nat, env: Envelope, cfg: Setting)
    requires Live(a, steps, cfg) && i < |a.nodes|
    ensures Live(OnPrepare(a, i, env, cfg.f, cfg.addrs), steps + [DeliverPrepare(i, env)], cfg)
  {
    var s, b := a.nodes[i], OnPrepare(a, i, env, cfg.f, cfg.addrs);
    PrepareStepGrows(a, i, env, cfg);
    SameAcceptance(s, b.nodes[i], env);
    if AcceptsPrepare(s, env) {
      PrepareAnswered(a, i, env, cfg);
    } else {
      ResponsiveStays(s, b.nodes[i], Net(a), Net(b), cfg.f);
    }
    AnnouncedStays(a, b);
    LiveAfter(a, b, steps, DeliverPrepare(i, env), cfg, i);
  }

  /** HandleCommit executes the moment its tally is a quorum. */
  lemma {:induction false} CommitAnswered(s: NodeState, net: set<Envelope>, env: Envelope, f: nat, operation: string)
    requires Responsive(s, net, f)
    ensures Responsive(AfterCommit(s, env, f, operation), net, f)
  {
    var t := AfterCommit(s, env, f, operation);
    assert t.prepares == s.prepares && t.id == s.id && t.pubKey == s.pubKey && t.view == s.view;
    forall seqId | HasQuorumLocal(|Tally(t.prepares, seqId)|, f)
      ensures CommitSentBy(net, t, seqId)
    {
      assert CommitSentBy(net, s, seqId);
    }
    forall seqId | HasQuorumLocal(|Tally(t.commits, seqId)|, f)
      ensures seqId in t.executed
    {
      assert seqId != env.body.seqId ==> Tally(t.commits, seqId) == Tally(s.commits, seqId);
    }
  }

  lemma {:induction false} CommitTalliesGrow(s: NodeState, env: Envelope, f: nat, operation: string)
    ensures var t := AfterCommit(s, env, f, operation);
            && SameIdentity(s, t) && t.prepares == s.prepares
            && forall seqId :: Tally(s.commits, seqId) <= Tally(t.commits, seqId)
  {
    HandlersKeepIdentity(s, env, f, operation);
  }

  lemma {:induction false} CommitStepGrows(a: System, i: nat, env: Envelope, f: nat)
    requires i < |a.nodes|
    ensures Evolves(a, OnCommit(a, i, env, f)) && Net(OnCommit(a, i, env, f)) == Net(a)
  {
    assert OnCommit(a, i, env, f).sent == a.sent;
    CommitTalliesGrow(a.nodes[i], env, f, LoadOp(a.opLog, env.body.seqId));
  }

  lemma {:induction false} CommitKeepsLive(a: System, steps: seq<Step>, i: nat, env: Envelope, cfg: Setting)
    requires Live(a, steps, cfg) && i < |a.nodes|
    ensures Live(OnCommit(a, i, env, cfg.f), steps + [DeliverCommit(i, env)], cfg)
  {
    var b := OnCommit(a, i, env, cfg.f);
    CommitStepGrows(a, i, env, cfg.f);
    SameAcceptance(a.nodes[i], b.nodes[i], env);
    CommitAnswered(a.nodes[i], Net(a), env, cfg.f, LoadOp(a.opLog, env.body.seqId));
    AnnouncedStays(a, b);
    LiveAfter(a, b, steps, DeliverCommit(i, env), cfg, i);
  }

  lemma {:induction false} StepKeepsLive(a: System, steps: seq<Step>, step: Step, cfg: Setting)
    requires Inv(a, cfg) && Live(a, steps, cfg) && Enabled(a, step)
    ensures Live(Take(a, step, cfg), steps + [step], cfg)
  {
    match step
    case Start(operation) => StartKeepsLive(a, steps, operation, cfg);
    case Skip => SkipKeepsLive(a, steps, cfg);
    case DeliverPrePrepare(i, env) => PrePrepareKeepsLive(a, steps, i, env, cfg);
    case DeliverPrepare(i, env) => PrepareKeepsLive(a, steps, i, env, cfg);
    case DeliverCommit(i, env) => CommitKeepsLive(a, steps, i, env, cfg);
  }

  lemma {:induction false} ReachableLive(sys: System, steps: seq<Step>, cfg: Setting)
    requires Initial(sys, cfg) && ValidRun(sys, steps, cfg) && SomeAddress(sys.nodes, cfg.addrs)
    ensures Live(Run(sys, steps, cfg), steps, cfg)
  {
    if steps != [] {
      var before, step := steps[..|steps| - 1], steps[|steps| - 1];
      ReachableInv(sys, before, cfg);
      ReachableLive(sys, before, cfg);
      StepKeepsLive(Run(sys, before, cfg), before, step, cfg);
      assert steps == before + [step];
    }
  }

  // ---- Quiescence ------------------------------------------------------------------------

  /** The delivery step that hands `env` to node i. */
  function DeliveryOf(i: nat, env: Envelope): Step {
    match env.body
    case PrePrepare(_, _, _, _) => DeliverPrePrepare(i, env)
    case Prepare(_, _, _, _) => DeliverPrepare(i, env)
    case Commit(_, _, _, _) => DeliverCommit(i, env)
  }

  /** Every message of the system for `seqId` has been handed to node i at least once. */
  ghost predicate Quiescent(sys: System, steps: seq<Step>, i: nat, seqId: int) {
    forall env :: env in Net(sys) && env.body.seqId == seqId ==> DeliveryOf(i, env) in steps
  }

  /** Nodes of one view that hold the leader's and each other's keys (and their own). */
  ghost predicate Linked(c: seq<NodeState>, group: set<nat>) {
    && |c| > 0
    && (forall i :: i in group ==> i < |c| && c[i].view == c[0].view && Trusts(c[i], c[0].id, c[0].pubKey))
    && (forall i, j :: i in group && j in group ==> Trusts(c[i], c[j].id, c[j].pubKey))
  }

  function GroupIds(c: seq<NodeState>, group: set<nat>): set<string>
    requires forall i :: i in group ==> i < |c|
  {
    set i | i in group :: c[i].id
  }

  lemma {:induction false} GroupIdsCount(c: seq<NodeState>, group: set<nat>)
    requires DistinctIds(c) && forall i :: i in group ==> i < |c|
    ensures |GroupIds(c, group)| == |group|
    decreases group
  {
    if group != {} {
      var i :| i in group;
      GroupIdsCount(c, group - {i});
      assert GroupIds(c, group) == GroupIds(c, group - {i}) + {c[i].id};
      assert forall j :: j in group - {i} ==> c[j].id != c[i].id;
    }
  }

  /** Everyone in the group tallied everyone's Prepare. */
  lemma {:induction false} AllPrepared(now: System, steps: seq<Step>, cfg: Setting, group: set<nat>, seqId: int, h: nat)
    requires Live(now, steps, cfg) && Linked(now.nodes, group) && seqId in now.opLog && h in group
    requires forall g :: g in group ==> Quiescent(now, steps, g, seqId)
    ensures GroupIds(now.nodes, group) <= Tally(now.nodes[h].prepares, seqId)
  {
    var pp := PrePrepareEnvelope(now.nodes[0], seqId, now.opLog[seqId]);
    forall g | g in group
      ensures now.nodes[g].id in Tally(now.nodes[h].prepares, seqId)
    {
      assert Traced(DeliveryOf(g, pp), now);
      var e := PrepareEnvelope(now.nodes[g], pp.body);
      assert e in Net(now);
      assert Trusts(now.nodes[h], e.sender, e.signer);
      assert Traced(DeliveryOf(h, e), now);
    }
  }

  /** Everyone in the group has sent its Commit. */
  lemma {:induction false} EachSentCommit(
      now: System, steps: seq<Step>, cfg: Setting, group: set<nat>, seqId: int, g: nat)
    requires Live(now, steps, cfg) && Linked(now.nodes, group) && seqId in now.opLog && g in group
    requires DistinctIds(now.nodes) && HasQuorumLocal(|group|, cfg.f)
    requires forall g :: g in group ==> Quiescent(now, steps, g, seqId)
    ensures CommitSentBy(Net(now), now.nodes[g], seqId)
  {
    AllPrepared(now, steps, cfg, group, seqId, g);
    GroupIdsCount(now.nodes, group);
    SubsetSize(GroupIds(now.nodes, group), Tally(now.nodes[g].prepares, seqId));
  }

  lemma {:induction false} AllCommitted(
      now: System, steps: seq<Step>, cfg: Setting, group: set<nat>, seqId: int, h: nat)
    requires Live(now, steps, cfg) && Linked(now.nodes, group) && seqId in now.opLog && h in group
    requires DistinctIds(now.nodes) && HasQuorumLocal(|group|, cfg.f)
    requires forall g :: g in group ==> Quiescent(now, steps, g, seqId)
    ensures GroupIds(now.nodes, group) <= Tally(now.nodes[h].commits, seqId)
  {
    forall g | g in group
      ensures now.nodes[g].id in Tally(now.nodes[h].commits, seqId)
    {
      EachSentCommit(now, steps, cfg, group, seqId, g);
      CommitReachesPeer(now, steps, group, seqId, g, h);
    }
  }

  lemma {:induction false} CommitReachesPeer(now: System, steps: seq<Step>, group: set<nat>, seqId: int, g: nat, h: nat)
    requires Linked(now.nodes, group) && g in group && h in group
    requires CommitSentBy(Net(now), now.nodes[g], seqId) && Quiescent(now, steps, h, seqId)
    requires forall step :: step in steps ==> Traced(step, now)
    ensures now.nodes[g].id in Tally(now.nodes[h].commits, seqId)
  {
    var s := now.nodes[g];
    var e :| e in Net(now) && e.body.Commit? && e.sender == s.id && e.signer == s.pubKey
             && e.body.seqId == seqId && e.body.view == s.view;
    assert Trusts(now.nodes[h], e.sender, e.signer);
    assert Traced(DeliveryOf(h, e), now);
  }

  /**
   If at least 2f+1 linked correct nodes have been handed everything sent for a proposed sequence
   number, each of them has executed it, and its log holds the stored operation for it once.
   */
  lemma {:induction false} QuiescenceImpliesExecution(
      sys: System, steps: seq<Step>, cfg: Setting, group: set<nat>, seqId: int)
    requires Initial(sys, cfg) && ValidRun(sys, steps, cfg) && SomeAddress(sys.nodes, cfg.addrs)
    requires Linked(sys.nodes, group) && HasQuorumLocal(|group|, cfg.f)
    requires seqId in Run(sys, steps, cfg).opLog
    requires forall g :: g in group ==> Quiescent(Run(sys, steps, cfg), steps, g, seqId)
    ensures forall g :: g in group ==>
              var s := Run(sys, steps, cfg).nodes[g];
              seqId in s.executed && LogExplained(s, Run(sys, steps, cfg).opLog)
  {
    ReachableInv(sys, steps, cfg);
    ReachableLive(sys, steps, cfg);
    IdentitiesStay(sys, steps, cfg);
    LinkedStays(sys.nodes, Run(sys, steps, cfg).nodes, group);
    forall g | g in group
      ensures seqId in Run(sys, steps, cfg).nodes[g].executed
      ensures LogExplained(Run(sys, steps, cfg).nodes[g], Run(sys, steps, cfg).opLog)
    {
      QuiescentNodeExecuted(Run(sys, steps, cfg), steps, cfg, group, seqId, g);
      LogIsWhatWasStored(sys, steps, cfg, g);
    }
  }

  lemma {:induction false} QuiescentNodeExecuted(
      now: System, steps: seq<Step>, cfg: Setting, group: set<nat>, seqId: int, g: nat)
    requires Live(now, steps, cfg) && Linked(now.nodes, group) && seqId in now.opLog && g in group
    requires DistinctIds(now.nodes) && HasQuorumLocal(|group|, cfg.f)
    requires forall g :: g in group ==> Quiescent(now, steps, g, seqId)
    ensures seqId in now.nodes[g].executed
  {
    AllCommitted(now, steps, cfg, group, seqId, g);
    GroupIdsCount(now.nodes, group);
    SubsetSize(GroupIds(now.nodes, group), Tally(now.nodes[g].commits, seqId));
  }

  lemma {:induction false} LinkedStays(c: seq<NodeState>, d: seq<NodeState>, group: set<nat>)
    requires Linked(c, group) && |c| == |d| && forall i :: 0 <= i < |c| ==> SameIdentity(c[i], d[i])
    ensures Linked(d, group)
  {
    forall i, j | i in group && j in group
      ensures Trusts(d[i], d[j].id, d[j].pubKey) && Trusts(d[i], d[0].id, d[0].pubKey) && d[i].view == d[0].view
    {
      assert SameIdentity(c[i], d[i]) && SameIdentity(c[j], d[j]) && SameIdentity(c[0], d[0]);
      assert Trusts(c[i], c[j].id, c[j].pubKey);
    }
  }

  lemma {:induction false} IdentitiesStay(sys: System, steps: seq<Step>, cfg: Setting)
    requires |sys.nodes| > 0
    ensures forall i :: 0 <= i < |sys.nodes| ==> SameIdentity(sys.nodes[i], Run(sys, steps, cfg).nodes[i])
  {
    if steps != [] {
      var before, step := steps[..|steps| - 1], steps[|steps| - 1];
      IdentitiesStay(sys, before, cfg);
      var a, b := Run(sys, before, cfg), Run(sys, steps, cfg);
      forall i | 0 <= i < |sys.nodes|
        ensures SameIdentity(sys.nodes[i], b.nodes[i])
      {
        StepKeepsIdentity(a, step, cfg, i);
        assert SameIdentity(sys.nodes[i], a.nodes[i]) && SameIdentity(a.nodes[i], b.nodes[i]);
      }
    }
  }

  /** A step changes at most the nodes it names, and those only by a handler. */
  lemma {:induction false} StepKeepsIdentity(a: System, step: Step, cfg: Setting, j: nat)
    requires j < |a.nodes|
    ensures SameIdentity(a.nodes[j], Take(a, step, cfg).nodes[j])
  {
    var s := a.nodes[j];
    match step
    case DeliverPrePrepare(i, env) => if i == j { HandlersKeepIdentity(s, env, cfg.f, ""); }
    case DeliverPrepare(i, env) => if i == j { HandlersKeepIdentity(s, env, cfg.f, ""); }
    case DeliverCommit(i, env) => if i == j { HandlersKeepIdentity(s, env, cfg.f, LoadOp(a.opLog, env.body.seqId)); }
    case _ =>
  }
}
