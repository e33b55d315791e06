/**
 What the messages of the message-at-a-time API say about operations, over every run. A node sends its
 Commit with the digest of the Prepare that completed its quorum, and compares digests with nobody.
 */
module StepDigests {
  import opened Prelude
  import opened Messages
  import opened Quorum
  import opened NodeModel
  import opened StepSystem
  import opened StepSafety

  /** The message carries the digest of the operation stored under its number, and names its sender. */
  ghost predicate Names(e: Envelope, opLog: map<int, string>) {
    && e.body.seqId in opLog && e.body.digest == Digest(opLog[e.body.seqId])
    && match e.body
       case PrePrepare(_, seqId, _, message) => message == opLog[seqId]
       case Prepare(_, _, _, nodeId) => nodeId == e.sender
       case Commit(_, _, _, nodeId) => nodeId == e.sender
  }

  /** A message on the network, unless it is a Commit that may answer a faulty peer's Prepare. */
  ghost predicate NetNames(sys: System, cfg: Setting) {
    forall e :: e in Net(sys) && (cfg.faulty == {} || !e.body.Commit?) ==> Names(e, sys.opLog)
  }

  lemma {:induction false} NamesStay(a: System, b: System, cfg: Setting)
    requires NetNames(a, cfg) && Grows(a, b)
    requires forall e :: e in Net(b) && e !in Net(a) && (cfg.faulty == {} || !e.body.Commit?) ==> Names(e, b.opLog)
    ensures NetNames(b, cfg)
  {
    forall e | e in Net(b) && (cfg.faulty == {} || !e.body.Commit?)
      ensures Names(e, b.opLog)
    {
      if e in Net(a) {
        assert Names(e, a.opLog);
      }
    }
  }

  lemma {:induction false} StartKeepsNames(a: System, operation: string, cfg: Setting)
    requires Inv(a, cfg) && NetNames(a, cfg)
    ensures NetNames(Propose(a, operation, cfg.addrs), cfg)
  {
    if a.nodes[0].role == Leader {
      ProposeGrows(a, operation, cfg.addrs);
      NamesStay(a, Propose(a, operation, cfg.addrs), cfg);
    }
  }

  lemma {:induction false} PrePrepareKeepsNames(a: System, i: nat, env: Envelope, cfg: Setting)
    requires Inv(a, cfg) && i < |a.nodes| && Deliverable(a, env) && NetNames(a, cfg)
    ensures NetNames(OnPrePrepare(a, i, env, cfg.addrs), cfg)
  {
    PrePrepareStepGrows(a, i, env, cfg);
    if AcceptsPrePrepare(a.nodes[i], env) {
      AuthenticMeansSent(a, cfg, i, env);
      assert Names(env, a.opLog);
    }
    NamesStay(a, OnPrePrepare(a, i, env, cfg.addrs), cfg);
  }

  lemma {:induction false} PrepareKeepsNames(a: System, i: nat, env: Envelope, cfg: Setting)
    requires Inv(a, cfg) && i < |a.nodes| && Deliverable(a, env) && NetNames(a, cfg)
    ensures NetNames(OnPrepare(a, i, env, cfg.f, cfg.addrs), cfg)
  {
    PrepareStepGrows(a, i, env, cfg);
    if AcceptsPrepare(a.nodes[i], env) && cfg.faulty == {} {
      AuthenticMeansSent(a, cfg, i, env);
      assert Names(env, a.opLog);
    }
    NamesStay(a, OnPrepare(a, i, env, cfg.f, cfg.addrs), cfg);
  }

  lemma {:induction false} StepKeepsNames(a: System, step: Step, cfg: Setting)
    requires Inv(a, cfg) && Enabled(a, step) && NetNames(a, cfg)
    ensures NetNames(Take(a, step, cfg), cfg)
  {
    match step
    case Start(operation) => StartKeepsNames(a, operation, cfg);
    case Skip => assert Net(Take(a, step, cfg)) == Net(a);
    case DeliverPrePrepare(i, env) => PrePrepareKeepsNames(a, i, env, cfg);
    case DeliverPrepare(i, env) => PrepareKeepsNames(a, i, env, cfg);
    case DeliverCommit(i, env) => assert Net(Take(a, step, cfg)) == Net(a);
  }

  /**
   In every reachable state each PrePrepare and each Prepare on the network carries the digest of the
   operation stored under its number, and so does each Commit when no peer is faulty.
   */
  lemma {:induction false} MessagesNameStoredOperations(sys: System, steps: seq<Step>, cfg: Setting)
    requires Initial(sys, cfg) && ValidRun(sys, steps, cfg)
    ensures NetNames(Run(sys, steps, cfg), cfg)
  {
    if steps == [] {
      assert Net(sys) == {};
    } else {
      var before := steps[..|steps| - 1];
      ReachableInv(sys, before, cfg);
      MessagesNameStoredOperations(sys, before, cfg);
      StepKeepsNames(Run(sys, before, cfg), steps[|steps| - 1], cfg);
    }
  }

  /**
   With a faulty peer the digest of a Commit is out of the leader's hands: whatever digest the Prepare
   carries that completes the quorum, the Commit carries it, although the others carry another.
   */
  lemma {:induction false} CommitRepeatsLastDigest(sys: System, i: nat, env: Envelope, cfg: Setting)
    requires i < |sys.nodes| && Trusts(sys.nodes[i], env.sender, env.signer)
    requires env.body.Prepare? && env.body.view == sys.nodes[i].view
    requires |Tally(sys.nodes[i].prepares, env.body.seqId) + {env.sender}| >= 2 * cfg.f + 1
    ensures var s := sys.nodes[i];
            var commit := Envelope(s.id, s.pubKey, Commit(s.view, env.body.seqId, env.body.digest, s.id));
            && Net(OnPrepare(sys, i, env, cfg.f, cfg.addrs)) ==
               Net(sys) + (if SomeAddress(sys.nodes, cfg.addrs) then {commit} else {})
            && (env.body.seqId in sys.opLog ==>
                  (Names(commit, sys.opLog) <==> env.body.digest == Digest(sys.opLog[env.body.seqId])))
  {
    var s := sys.nodes[i];
    var moved := sys.(nodes := sys.nodes[i := AfterPrepare(s, env)]);
    var commit := Envelope(s.id, s.pubKey, Commit(s.view, env.body.seqId, env.body.digest, s.id));
    assert Net(moved) == Net(sys);
    NetAfterSend(moved, commit, cfg.addrs);
    SameAddresses(sys.nodes, moved.nodes, cfg.addrs);
  }

  lemma {:induction false} SameAddresses(c: seq<NodeState>, d: seq<NodeState>, addrs: map<string, string>)
    requires |c| == |d| && forall k :: 0 <= k < |c| ==> c[k].id == d[k].id
    ensures SomeAddress(c, addrs) <==> SomeAddress(d, addrs)
  {
    if SomeAddress(c, addrs) {
      var k :| 0 <= k < |c| && c[k].id in addrs;
      assert d[k].id in addrs;
    }
    if SomeAddress(d, addrs) {
      var k :| 0 <= k < |d| && d[k].id in addrs;
      assert c[k].id in addrs;
    }
  }

  // ---- A forged digest -------------------------------------------------------------------

  function KeyOf(id: string): Key {
    if id == "a" then Key(0) else if id == "b" then Key(1) else Key(2)
  }

  function Vehicle(id: string, role: Role): NodeState {
    var keys := map["a" := Some(KeyOf("a")), "b" := Some(KeyOf("b")), "x" := Some(KeyOf("x"))];
    NodeState(id, role, KeyOf(id), keys, 0, 0, map[], map[], [], {}, 0.0, 0.0, map[])
  }

  function Announcement(): Envelope {
    Envelope("a", KeyOf("a"), PrePrepare(0, 1, Digest("op"), "op"))
  }

  function PrepareFrom(id: string, message: string): Envelope {
    Envelope(id, KeyOf(id), Prepare(0, 1, Digest(message), id))
  }

  /** The leader "a" and the replica "b", which also know the faulty peer "x". */
  function TwoVehicles(): System {
    System([Vehicle("a", Leader), Vehicle("b", Replica)], map[], [])
  }

  function OneFaulty(): Setting {
    Setting(1, map["a" := "address"], {"x"})
  }

  /** Operation "op" is announced under number 1, and the leader has tallied these Prepares for it. */
  ghost predicate Underway(sys: System, senders: set<string>) {
    && |sys.nodes| == 2
    && (forall i :: 0 <= i < 2 ==>
          SameIdentity(TwoVehicles().nodes[i], sys.nodes[i]) && Trusts(sys.nodes[i], "a", KeyOf("a")))
    && sys.opLog == map[1 := "op"] && Tally(sys.nodes[0].prepares, 1) == senders && Announcement() in Net(sys)
  }

  lemma {:induction false} Announced()
    ensures Initial(TwoVehicles(), OneFaulty())
    ensures Underway(Take(TwoVehicles(), Start("op"), OneFaulty()), {})
  {
    var sys, cfg := TwoVehicles(), OneFaulty();
    var started := sys.nodes[0 := AfterStart(sys.nodes[0])];
    assert started[0].id in cfg.addrs;
    forall i, id, key | 0 <= i < 2 && Trusts(sys.nodes[i], id, key) && id !in cfg.faulty
      ensures exists j :: 0 <= j < 2 && sys.nodes[j].id == id && sys.nodes[j].pubKey == key
    {
      assert id == sys.nodes[0].id || id == sys.nodes[1].id;
    }
    ProposeGrows(sys, "op", cfg.addrs);
  }

  lemma {:induction false} PrepareSent(sys: System, senders: set<string>, i: nat)
    requires Underway(sys, senders) && i < 2
    ensures var next := Take(sys, DeliverPrePrepare(i, Announcement()), OneFaulty());
            Underway(next, senders) && PrepareFrom(sys.nodes[i].id, "op") in Net(next) && Net(sys) <= Net(next)
  {
    var next := Take(sys, DeliverPrePrepare(i, Announcement()), OneFaulty());
    PrePrepareStepGrows(sys, i, Announcement(), OneFaulty());
    assert AcceptsPrePrepare(sys.nodes[i], Announcement());
    assert next.nodes[0].id in OneFaulty().addrs;
    assert PrepareEnvelope(sys.nodes[i], Announcement().body) == PrepareFrom(sys.nodes[i].id, "op");
  }

  lemma {:induction false} PrepareTallied(sys: System, senders: set<string>, i: nat)
    requires Underway(sys, senders) && i < 2 && PrepareFrom(sys.nodes[i].id, "op") in Net(sys)
    ensures var step := DeliverPrepare(0, PrepareFrom(sys.nodes[i].id, "op"));
            var next := Take(sys, step, OneFaulty());
            Enabled(sys, step) && Underway(next, senders + {sys.nodes[i].id}) && Net(sys) <= Net(next)
  {
    var env := PrepareFrom(sys.nodes[i].id, "op");
    PrepareStepGrows(sys, 0, env, OneFaulty());
    assert Trusts(sys.nodes[0], env.sender, env.signer);
    assert AcceptsPrepare(sys.nodes[0], env);
  }

  lemma {:induction false} MoreSteps(sys: System, steps: seq<Step>, step: Step, cfg: Setting)
    requires |sys.nodes| > 0 && ValidRun(sys, steps, cfg) && Enabled(Run(sys, steps, cfg), step)
    ensures ValidRun(sys, steps + [step], cfg)
    ensures Run(sys, steps + [step], cfg) == Take(Run(sys, steps, cfg), step, cfg)
  {
    assert (steps + [step])[..|steps|] == steps;
  }

  /** Both correct nodes have sent their Prepare. */
  lemma {:induction false} BothAnswered() returns (steps: seq<Step>)
    ensures ValidRun(TwoVehicles(), steps, OneFaulty())
    ensures var now := Run(TwoVehicles(), steps, OneFaulty());
            Underway(now, {}) && PrepareFrom("a", "op") in Net(now) && PrepareFrom("b", "op") in Net(now)
  {
    var sys, cfg := TwoVehicles(), OneFaulty();
    steps := [Start("op")];
    Announced();
    MoreSteps(sys, [], Start("op"), cfg);
    assert [] + [Start("op")] == steps;
    for i := 0 to 2
      invariant ValidRun(sys, steps, cfg) && Underway(Run(sys, steps, cfg), {})
      invariant forall k :: 0 <= k < i ==> PrepareFrom(sys.nodes[k].id, "op") in Net(Run(sys, steps, cfg))
    {
      PrepareSent(Run(sys, steps, cfg), {}, i);
      MoreSteps(sys, steps, DeliverPrePrepare(i, Announcement()), cfg);
      steps := steps + [DeliverPrePrepare(i, Announcement())];
    }
    assert sys.nodes[0].id == "a" && sys.nodes[1].id == "b";
  }

  /** The leader has tallied both. */
  lemma {:induction false} BothPrepared() returns (steps: seq<Step>)
    ensures ValidRun(TwoVehicles(), steps, OneFaulty())
    ensures Underway(Run(TwoVehicles(), steps, OneFaulty()), {"a", "b"})
  {
    var sys, cfg := TwoVehicles(), OneFaulty();
    steps := BothAnswered();
    PrepareTallied(Run(sys, steps, cfg), {}, 0);
    MoreSteps(sys, steps, DeliverPrepare(0, PrepareFrom("a", "op")), cfg);
    steps := steps + [DeliverPrepare(0, PrepareFrom("a", "op"))];
    PrepareTallied(Run(sys, steps, cfg), {"a"}, 1);
    MoreSteps(sys, steps, DeliverPrepare(0, PrepareFrom("b", "op")), cfg);
    steps := steps + [DeliverPrepare(0, PrepareFrom("b", "op"))];
    assert {} + {"a"} + {"b"} == {"a", "b"};
  }

  /**
   HandlePrepare is documented to compare the digest with the one accepted before. It does not: one faulty
   peer makes a correct leader send a Commit for an operation that nobody has stored.
   */
  lemma {:induction false} ForgedDigestSpreads() returns (steps: seq<Step>, commit: Envelope)
    ensures Initial(TwoVehicles(), OneFaulty()) && ValidRun(TwoVehicles(), steps, OneFaulty())
    ensures var now := Run(TwoVehicles(), steps, OneFaulty());
            && commit in Net(now) && commit.sender == "a" && commit.body.Commit?
            && commit.body.seqId in now.opLog && commit.body.digest != Digest(now.opLog[commit.body.seqId])
  {
    var cfg := OneFaulty();
    Announced();
    var before := BothPrepared();
    var now, env := Run(TwoVehicles(), before, cfg), PrepareFrom("x", "forged");
    assert {"a", "b"} + {"x"} == {"a", "b", "x"};
    assert Trusts(TwoVehicles().nodes[0], "x", KeyOf("x"));
    assert !CorrectKey(now.nodes, env.signer);
    assert now.nodes[0].id in cfg.addrs;
    CommitRepeatsLastDigest(now, 0, env, cfg);
    MoreSteps(TwoVehicles(), before, DeliverPrepare(0, env), cfg);
    steps := before + [DeliverPrepare(0, env)];
    commit := Envelope("a", KeyOf("a"), Commit(0, 1, Digest("forged"), "a"));
  }
}
