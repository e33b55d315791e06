/**
 What one round of RunPBFT amounts to, for any key knowledge and any views: three nested sets of
 nodes, described without loops and without order.
 */
module QuorumSets {
  import opened Prelude
  import opened Messages
  import opened Quorum
  import opened Weights
  import opened NodeModel
  import opened Round

  // ---- The declarative sets, for a cluster whose leader is c[0] --------------------------

  ghost predicate Accepting(c: seq<NodeState>, s: NodeState)
    requires |c| > 0
  {
    Trusts(s, c[0].id, c[0].pubKey)
  }

  /** Node `s` takes messages of the round from node `t`. */
  ghost predicate Hears(c: seq<NodeState>, s: NodeState, t: NodeState, rule: Rule)
    requires |c| > 0
  {
    t.id != s.id && (rule.Counting? ==> Trusts(s, t.id, t.pubKey) && s.view == c[0].view)
  }

  ghost function PreparesHeard(c: seq<NodeState>, s: NodeState, rule: Rule): set<string>
    requires |c| > 0
  {
    set t | t in c && Accepting(c, t) && Hears(c, s, t, rule) :: t.id
  }

  /** The Prepare tally of `s`: its own, if it accepted, and those it heard. */
  ghost function PrepareTally(c: seq<NodeState>, s: NodeState, rule: Rule): set<string>
    requires |c| > 0
  {
    (if Accepting(c, s) then {s.id} else {}) + PreparesHeard(c, s, rule)
  }

  ghost predicate Committing(c: seq<NodeState>, s: NodeState, rule: Rule)
    requires |c| > 0
  {
    PreparesHeard(c, s, rule) != {} && QuorumMet(s, PrepareTally(c, s, rule), rule)
  }

  ghost function CommitsHeard(c: seq<NodeState>, s: NodeState, rule: Rule): set<string>
    requires |c| > 0
  {
    set t | t in c && Committing(c, t, rule) && Hears(c, s, t, rule) :: t.id
  }

  ghost function CommitTally(c: seq<NodeState>, s: NodeState, rule: Rule): set<string>
    requires |c| > 0
  {
    (if Committing(c, s, rule) then {s.id} else {}) + CommitsHeard(c, s, rule)
  }

  ghost predicate Replying(c: seq<NodeState>, s: NodeState, rule: Rule)
    requires |c| > 0
  {
    CommitsHeard(c, s, rule) != {} && QuorumMet(s, CommitTally(c, s, rule), rule)
  }

  // ---- One phase at a time ---------------------------------------------------------------

  /** Nothing about `seqId` has reached the node yet. */
  ghost predicate Fresh(s: NodeState, seqId: int) {
    Tally(s.prepares, seqId) == {} && Tally(s.commits, seqId) == {} && seqId !in s.executed
  }

  ghost predicate Weighable(s: NodeState, rule: Rule) {
    rule.Counting? || NonNegative(s.knownReputations)
  }

  /** The leader's own announcement, as every phase of the round sees it. */
  ghost predicate AnnouncedBy(c: seq<NodeState>, pp: Envelope, seqId: int, operation: string) {
    |c| > 0 && pp == PrePrepareEnvelope(c[0], seqId, operation)
  }

  lemma {:induction false} PrepareTraffic(c: seq<NodeState>, pp: Envelope, seqId: int, operation: string, e: Envelope)
    requires AnnouncedBy(c, pp, seqId, operation)
    ensures e in Gather(PrepareMsgs(c, pp)) <==>
            exists t :: t in c && Accepting(c, t) && e == PrepareEnvelope(t, pp.body)
  {
    var msgs := PrepareMsgs(c, pp);
    GatherMembers(msgs);
    if e in Gather(msgs) {
      var i :| 0 <= i < |c| && msgs[i] == Some(e);
      assert c[i] in c && Accepting(c, c[i]);
    }
    if t :| t in c && Accepting(c, t) && e == PrepareEnvelope(t, pp.body) {
      var i :| 0 <= i < |c| && c[i] == t;
      assert msgs[i] == Some(e);
    }
  }

  lemma {:induction false} HeardPrepareIsThere(
      c: seq<NodeState>, pp: Envelope, seqId: int, operation: string, i: nat, rule: Rule, id: string)
    requires AnnouncedBy(c, pp, seqId, operation) && i < |c|
    requires id in HeardFrom(PrepareNode(c[i], pp), Gather(PrepareMsgs(c, pp)), rule)
    ensures id in PreparesHeard(c, c[i], rule)
  {
    var s, envs := PrepareNode(c[i], pp), Gather(PrepareMsgs(c, pp));
    var e :| e in envs && Heard(s, e, rule) && e.sender == id;
    PrepareTraffic(c, pp, seqId, operation, e);
    var t :| t in c && Accepting(c, t) && e == PrepareEnvelope(t, pp.body);
    HearingIsHearing(c, pp, i, t, e, rule);
  }

  lemma {:induction false} PrepareThereIsHeard(
      c: seq<NodeState>, pp: Envelope, seqId: int, operation: string, i: nat, rule: Rule, id: string)
    requires AnnouncedBy(c, pp, seqId, operation) && i < |c|
    requires id in PreparesHeard(c, c[i], rule)
    ensures id in HeardFrom(PrepareNode(c[i], pp), Gather(PrepareMsgs(c, pp)), rule)
  {
    var t :| t in c && Accepting(c, t) && Hears(c, c[i], t, rule) && t.id == id;
    var e := PrepareEnvelope(t, pp.body);
    PrepareTraffic(c, pp, seqId, operation, e);
    HearingIsHearing(c, pp, i, t, e, rule);
  }

  /** Being heard, for the Prepare of node t after phase 2, is hearing node t. */
  lemma {:induction false} HearingIsHearing(
      c: seq<NodeState>, pp: Envelope, i: nat, t: NodeState, e: Envelope, rule: Rule)
    requires |c| > 0 && i < |c| && pp.body.PrePrepare? && pp.body.view == c[0].view && e == PrepareEnvelope(t, pp.body)
    ensures Heard(PrepareNode(c[i], pp), e, rule) == Hears(c, c[i], t, rule)
  {
    HandlersKeepIdentity(c[i], pp, 0, "");
    assert Trusts(PrepareNode(c[i], pp), t.id, t.pubKey) == Trusts(c[i], t.id, t.pubKey);
  }

  lemma {:induction false} PreparesHeardExactly(
      c: seq<NodeState>, pp: Envelope, seqId: int, operation: string, i: nat, rule: Rule)
    requires AnnouncedBy(c, pp, seqId, operation) && i < |c|
    ensures HeardFrom(PrepareNode(c[i], pp), Gather(PrepareMsgs(c, pp)), rule) == PreparesHeard(c, c[i], rule)
  {
    forall id
      ensures id in HeardFrom(PrepareNode(c[i], pp), Gather(PrepareMsgs(c, pp)), rule) <==>
              id in PreparesHeard(c, c[i], rule)
    {
      if id in HeardFrom(PrepareNode(c[i], pp), Gather(PrepareMsgs(c, pp)), rule) {
        HeardPrepareIsThere(c, pp, seqId, operation, i, rule, id);
      }
      if id in PreparesHeard(c, c[i], rule) {
        PrepareThereIsHeard(c, pp, seqId, operation, i, rule, id);
      }
    }
  }

  lemma {:induction false} PrepareNodeRecords(s: NodeState, pp: Envelope, seqId: int)
    requires pp.body.seqId == seqId
    ensures var t := PrepareNode(s, pp);
            && SameIdentity(s, t) && t.log == s.log && t.executed == s.executed
            && t.knownReputations == s.knownReputations
            && Tally(t.prepares, seqId) == Tally(s.prepares, seqId) + (if AcceptsPrePrepare(s, pp) then {s.id} else {})
            && t.commits == s.commits
  {
    HandlersKeepIdentity(s, pp, 0, "");
  }

  lemma {:induction false} TallyRecords(s: NodeState, seqId: int, senders: set<string>)
    ensures SameIdentity(s, WithPrepares(s, seqId, senders)) && SameIdentity(s, WithCommits(s, seqId, senders))
    ensures Tally(WithPrepares(s, seqId, senders).prepares, seqId) == Tally(s.prepares, seqId) + senders
    ensures Tally(WithCommits(s, seqId, senders).commits, seqId) == Tally(s.commits, seqId) + senders
  {}

  lemma {:induction false} CommitNodeRecords(s: NodeState, envs: seq<Envelope>, seqId: int, rule: Rule)
    ensures var t := CommitNode(s, envs, seqId, rule);
            && SameIdentity(s, t) && t.log == s.log && t.executed == s.executed
            && t.knownReputations == s.knownReputations
            && Tally(t.prepares, seqId) == Tally(s.prepares, seqId) + HeardFrom(s, envs, rule)
            && Tally(t.commits, seqId) ==
               Tally(s.commits, seqId) + (if Commits(s, envs, seqId, rule) then {s.id} else {})
  {
    var heard := HeardFrom(s, envs, rule);
    var t := WithHeardPrepares(s, envs, seqId, rule);
    TallyRecords(s, seqId, heard);
    assert SameIdentity(s, t) && Tally(t.prepares, seqId) == Tally(s.prepares, seqId) + heard;
    TallyRecords(t, seqId, {s.id});
  }

  lemma {:induction false} ReplyNodeRecords(
      s: NodeState, envs: seq<Envelope>, seqId: int, operation: string, rule: Rule)
    ensures var t := ReplyNode(s, envs, seqId, operation, rule);
            && SameIdentity(s, t) && t.knownReputations == s.knownReputations
            && Tally(t.commits, seqId) == Tally(s.commits, seqId) + HeardFrom(s, envs, rule)
            && t.log == s.log + (if Executes(s, envs, seqId, rule) && seqId !in s.executed then [operation] else [])
  {}

  /** Phase 3 at one node: whether it produces its Commit. */
  lemma {:induction false} CommitDecision(
      c: seq<NodeState>, pp: Envelope, seqId: int, operation: string, i: nat, rule: Rule)
    requires AnnouncedBy(c, pp, seqId, operation) && i < |c| && Fresh(c[i], seqId) && Weighable(c[i], rule)
    ensures Commits(PrepareNode(c[i], pp), Gather(PrepareMsgs(c, pp)), seqId, rule) == Committing(c, c[i], rule)
    ensures CommitMsg(PrepareNode(c[i], pp), Gather(PrepareMsgs(c, pp)), seqId, operation, rule) ==
            if Committing(c, c[i], rule) then Some(CommitOf(c[i], seqId, operation)) else None
  {
    var s, envs := PrepareNode(c[i], pp), Gather(PrepareMsgs(c, pp));
    PrepareNodeRecords(c[i], pp, seqId);
    PreparesHeardExactly(c, pp, seqId, operation, i, rule);
    assert Tally(s.prepares, seqId) + HeardFrom(s, envs, rule) == PrepareTally(c, c[i], rule);
    CompletesIffFinalQuorum(s, Tally(s.prepares, seqId), envs, rule);
  }

  /** The tallies a node ends phase 3 with. */
  lemma {:induction false} CommitTallies(
      c: seq<NodeState>, pp: Envelope, seqId: int, operation: string, i: nat, rule: Rule)
    requires AnnouncedBy(c, pp, seqId, operation) && i < |c| && Fresh(c[i], seqId) && Weighable(c[i], rule)
    ensures var t := AfterCommitPhase(c, pp, seqId, rule)[i];
            && SameIdentity(c[i], t) && t.log == c[i].log && t.executed == c[i].executed
            && t.knownReputations == c[i].knownReputations
            && Tally(t.prepares, seqId) == PrepareTally(c, c[i], rule)
            && Tally(t.commits, seqId) == if Committing(c, c[i], rule) then {c[i].id} else {}
  {
    var s, envs := PrepareNode(c[i], pp), Gather(PrepareMsgs(c, pp));
    PrepareNodeRecords(c[i], pp, seqId);
    CommitNodeRecords(s, envs, seqId, rule);
    PreparesHeardExactly(c, pp, seqId, operation, i, rule);
    CommitDecision(c, pp, seqId, operation, i, rule);
    assert AfterCommitPhase(c, pp, seqId, rule)[i] == CommitNode(s, envs, seqId, rule);
    assert Tally(s.prepares, seqId) == if Accepting(c, c[i]) then {c[i].id} else {};
  }

  ghost function CommitTraffic(
      c: seq<NodeState>, pp: Envelope, seqId: int, operation: string, rule: Rule): seq<Envelope> {
    Gather(CommitMsgs(PrepareNodes(c, pp), Gather(PrepareMsgs(c, pp)), seqId, operation, rule))
  }

  ghost function AfterCommitPhase(c: seq<NodeState>, pp: Envelope, seqId: int, rule: Rule): (r: seq<NodeState>)
    ensures |r| == |c|
  {
    CommitNodes(PrepareNodes(c, pp), Gather(PrepareMsgs(c, pp)), seqId, rule)
  }

  /** What each node contributes to the traffic of phase 3. */
  lemma {:induction false} CommitTrafficSlots(
      c: seq<NodeState>, pp: Envelope, seqId: int, operation: string, rule: Rule)
    requires AnnouncedBy(c, pp, seqId, operation)
    requires forall i :: 0 <= i < |c| ==> Fresh(c[i], seqId) && Weighable(c[i], rule)
    ensures forall i :: 0 <= i < |c| ==>
              CommitMsgs(PrepareNodes(c, pp), Gather(PrepareMsgs(c, pp)), seqId, operation, rule)[i]
              == if Committing(c, c[i], rule) then Some(CommitOf(c[i], seqId, operation)) else None
  {
    forall i | 0 <= i < |c|
      ensures CommitMsgs(PrepareNodes(c, pp), Gather(PrepareMsgs(c, pp)), seqId, operation, rule)[i]
              == if Committing(c, c[i], rule) then Some(CommitOf(c[i], seqId, operation)) else None
    {
      CommitDecision(c, pp, seqId, operation, i, rule);
    }
  }

  lemma {:induction false} CommitTrafficMembers(
      c: seq<NodeState>, pp: Envelope, seqId: int, operation: string, rule: Rule, e: Envelope)
    requires AnnouncedBy(c, pp, seqId, operation)
    requires forall i :: 0 <= i < |c| ==> Fresh(c[i], seqId) && Weighable(c[i], rule)
    ensures e in CommitTraffic(c, pp, seqId, operation, rule) <==>
            exists t :: t in c && Committing(c, t, rule) && e == CommitOf(t, seqId, operation)
  {
    var msgs := CommitMsgs(PrepareNodes(c, pp), Gather(PrepareMsgs(c, pp)), seqId, operation, rule);
    GatherMembers(msgs);
    CommitTrafficSlots(c, pp, seqId, operation, rule);
    SlotsHold(c, msgs, seqId, operation, rule, e);
  }

  lemma {:induction false} SlotsHold(
      c: seq<NodeState>, msgs: seq<Option<Envelope>>, seqId: int, operation: string, rule: Rule, e: Envelope)
    requires |c| == |msgs| && |c| > 0
    requires forall i :: 0 <= i < |c| ==>
               msgs[i] == if Committing(c, c[i], rule) then Some(CommitOf(c[i], seqId, operation)) else None
    ensures Some(e) in msgs <==> exists t :: t in c && Committing(c, t, rule) && e == CommitOf(t, seqId, operation)
  {
    if Some(e) in msgs {
      var i :| 0 <= i < |msgs| && msgs[i] == Some(e);
      assert c[i] in c;
    }
    if t :| t in c && Committing(c, t, rule) && e == CommitOf(t, seqId, operation) {
      var i :| 0 <= i < |c| && c[i] == t;
      assert msgs[i] == Some(e);
    }
  }

  /** A node that commits is in the leader's view, when Commits are authenticated. */
  lemma {:induction false} CommitterView(c: seq<NodeState>, t: NodeState, rule: Rule)
    requires |c| > 0 && Committing(c, t, rule) && rule.Counting?
    ensures t.view == c[0].view
  {
    var id :| id in PreparesHeard(c, t, rule);
  }

  lemma {:induction false} CommitHeardOne(
      c: seq<NodeState>, pp: Envelope, seqId: int, operation: string, s: NodeState, i: nat, rule: Rule, id: string)
    requires AnnouncedBy(c, pp, seqId, operation) && i < |c| && SameIdentity(c[i], s)
    requires forall i :: 0 <= i < |c| ==> Fresh(c[i], seqId) && Weighable(c[i], rule)
    ensures id in HeardFrom(s, CommitTraffic(c, pp, seqId, operation, rule), rule) <==>
            id in CommitsHeard(c, c[i], rule)
  {
    var envs := CommitTraffic(c, pp, seqId, operation, rule);
    if id in HeardFrom(s, envs, rule) {
      var e :| e in envs && Heard(s, e, rule) && e.sender == id;
      CommitTrafficMembers(c, pp, seqId, operation, rule, e);
      var t :| t in c && Committing(c, t, rule) && e == CommitOf(t, seqId, operation);
      if rule.Counting? {
        CommitterView(c, t, rule);
        assert Trusts(s, e.sender, e.signer);
      }
      assert Hears(c, c[i], t, rule);
    } else if id in CommitsHeard(c, c[i], rule) {
      var t :| t in c && Committing(c, t, rule) && Hears(c, c[i], t, rule) && t.id == id;
      var e := CommitOf(t, seqId, operation);
      CommitTrafficMembers(c, pp, seqId, operation, rule, e);
      if rule.Counting? {
        CommitterView(c, t, rule);
        assert Trusts(s, t.id, t.pubKey);
      }
      assert Heard(s, e, rule);
    }
  }

  lemma {:induction false} CommitsHeardExactly(
      c: seq<NodeState>, pp: Envelope, seqId: int, operation: string, s: NodeState, i: nat, rule: Rule)
    requires AnnouncedBy(c, pp, seqId, operation) && i < |c| && SameIdentity(c[i], s)
    requires forall i :: 0 <= i < |c| ==> Fresh(c[i], seqId) && Weighable(c[i], rule)
    ensures HeardFrom(s, CommitTraffic(c, pp, seqId, operation, rule), rule) == CommitsHeard(c, c[i], rule)
  {
    forall id
      ensures id in HeardFrom(s, CommitTraffic(c, pp, seqId, operation, rule), rule) <==>
              id in CommitsHeard(c, c[i], rule)
    {
      CommitHeardOne(c, pp, seqId, operation, s, i, rule, id);
    }
  }

  /** The tally phase 4 leaves at one node. */
  lemma {:induction false} ReplyTally(
      c: seq<NodeState>, pp: Envelope, seqId: int, operation: string, i: nat, rule: Rule)
    requires AnnouncedBy(c, pp, seqId, operation) && i < |c|
    requires forall i :: 0 <= i < |c| ==> Fresh(c[i], seqId) && Weighable(c[i], rule)
    ensures var s, envs := AfterCommitPhase(c, pp, seqId, rule)[i], CommitTraffic(c, pp, seqId, operation, rule);
            && HeardFrom(s, envs, rule) == CommitsHeard(c, c[i], rule)
            && Tally(s.commits, seqId) + CommitsHeard(c, c[i], rule) == CommitTally(c, c[i], rule)
            && s.knownReputations == c[i].knownReputations
  {
    CommitTallies(c, pp, seqId, operation, i, rule);
    CommitsHeardExactly(c, pp, seqId, operation, AfterCommitPhase(c, pp, seqId, rule)[i], i, rule);
  }

  /** Phase 4 at one node: whether it executes and replies. */
  lemma {:induction false} ReplyDecision(
      c: seq<NodeState>, pp: Envelope, seqId: int, operation: string, i: nat, rule: Rule)
    requires AnnouncedBy(c, pp, seqId, operation) && i < |c|
    requires forall i :: 0 <= i < |c| ==> Fresh(c[i], seqId) && Weighable(c[i], rule)
    ensures Executes(AfterCommitPhase(c, pp, seqId, rule)[i], CommitTraffic(c, pp, seqId, operation, rule), seqId, rule)
            == Replying(c, c[i], rule)
  {
    var s, envs := AfterCommitPhase(c, pp, seqId, rule)[i], CommitTraffic(c, pp, seqId, operation, rule);
    ReplyTally(c, pp, seqId, operation, i, rule);
    CompletesIffFinalQuorum(s, Tally(s.commits, seqId), envs, rule);
  }

  // ---- The sets depend only on identities ------------------------------------------------

  /** Same nodes as far as quorums go: identities and reputation maps. */
  ghost predicate SameElectorate(c: seq<NodeState>, d: seq<NodeState>) {
    && |c| == |d|
    && forall i :: 0 <= i < |c| ==> SameIdentity(c[i], d[i]) && c[i].knownReputations == d[i].knownReputations
  }

  lemma {:induction false} HearsStable(c: seq<NodeState>, d: seq<NodeState>, i: nat, j: nat, rule: Rule)
    requires SameElectorate(c, d) && i < |c| && j < |c|
    ensures Hears(c, c[i], c[j], rule) == Hears(d, d[i], d[j], rule)
    ensures Accepting(c, c[j]) == Accepting(d, d[j])
  {
    assert SameIdentity(c[i], d[i]) && SameIdentity(c[j], d[j]) && SameIdentity(c[0], d[0]);
  }

  lemma {:induction false} PreparesHeardWithin(c: seq<NodeState>, d: seq<NodeState>, i: nat, rule: Rule)
    requires SameElectorate(c, d) && i < |c|
    ensures PreparesHeard(c, c[i], rule) <= PreparesHeard(d, d[i], rule)
  {
    forall id | id in PreparesHeard(c, c[i], rule)
      ensures id in PreparesHeard(d, d[i], rule)
    {
      var t :| t in c && Accepting(c, t) && Hears(c, c[i], t, rule) && t.id == id;
      var j :| 0 <= j < |c| && c[j] == t;
      HearsStable(c, d, i, j, rule);
      assert d[j] in d;
    }
  }

  lemma {:induction false} PreparesHeardStable(c: seq<NodeState>, d: seq<NodeState>, i: nat, rule: Rule)
    requires SameElectorate(c, d) && i < |c|
    ensures PreparesHeard(c, c[i], rule) == PreparesHeard(d, d[i], rule)
  {
    PreparesHeardWithin(c, d, i, rule);
    PreparesHeardWithin(d, c, i, rule);
    var x, y := PreparesHeard(c, c[i], rule), PreparesHeard(d, d[i], rule);
    assert x == y;
  }

  lemma {:induction false} PrepareTallyStable(c: seq<NodeState>, d: seq<NodeState>, i: nat, rule: Rule)
    requires SameElectorate(c, d) && i < |c|
    ensures PrepareTally(c, c[i], rule) == PrepareTally(d, d[i], rule)
  {
    PreparesHeardStable(c, d, i, rule);
    HearsStable(c, d, i, i, rule);
    assert c[i].id == d[i].id by { assert SameIdentity(c[i], d[i]); }
  }

  lemma {:induction false} CommittingStable(c: seq<NodeState>, d: seq<NodeState>, i: nat, rule: Rule)
    requires SameElectorate(c, d) && i < |c|
    ensures Committing(c, c[i], rule) == Committing(d, d[i], rule)
  {
    PreparesHeardStable(c, d, i, rule);
    PrepareTallyStable(c, d, i, rule);
  }

  lemma {:induction false} CommitsHeardWithin(c: seq<NodeState>, d: seq<NodeState>, i: nat, rule: Rule)
    requires SameElectorate(c, d) && i < |c|
    ensures CommitsHeard(c, c[i], rule) <= CommitsHeard(d, d[i], rule)
  {
    forall id | id in CommitsHeard(c, c[i], rule)
      ensures id in CommitsHeard(d, d[i], rule)
    {
      var t :| t in c && Committing(c, t, rule) && Hears(c, c[i], t, rule) && t.id == id;
      var j :| 0 <= j < |c| && c[j] == t;
      HearsStable(c, d, i, j, rule);
      CommittingStable(c, d, j, rule);
      assert d[j] in d;
    }
  }

  lemma {:induction false} CommitsHeardStable(c: seq<NodeState>, d: seq<NodeState>, i: nat, rule: Rule)
    requires SameElectorate(c, d) && i < |c|
    ensures CommitsHeard(c, c[i], rule) == CommitsHeard(d, d[i], rule)
  {
    CommitsHeardWithin(c, d, i, rule);
    CommitsHeardWithin(d, c, i, rule);
    var x, y := CommitsHeard(c, c[i], rule), CommitsHeard(d, d[i], rule);
    assert x == y;
  }

  lemma {:induction false} CommitTallyStable(c: seq<NodeState>, d: seq<NodeState>, i: nat, rule: Rule)
    requires SameElectorate(c, d) && i < |c|
    ensures CommitTally(c, c[i], rule) == CommitTally(d, d[i], rule)
  {
    CommitsHeardStable(c, d, i, rule);
    CommittingStable(c, d, i, rule);
    assert c[i].id == d[i].id by { assert SameIdentity(c[i], d[i]); }
  }

  lemma {:induction false} ReplyingStable(c: seq<NodeState>, d: seq<NodeState>, i: nat, rule: Rule)
    requires SameElectorate(c, d) && i < |c|
    ensures Replying(c, c[i], rule) == Replying(d, d[i], rule)
  {
    CommitsHeardStable(c, d, i, rule);
    CommitTallyStable(c, d, i, rule);
  }

  // ---- The whole round -------------------------------------------------------------------

  predicate Uncancelled(call: Call) {
    !call.ctx.beforeDelivery && !call.ctx.afterPrepare && !call.ctx.afterCommit
  }

  ghost predicate SomeoneAccepts(c: seq<NodeState>)
    requires |c| > 0
  {
    exists i :: 0 <= i < |c| && Accepting(c, c[i])
  }

  ghost predicate SomeoneCommits(c: seq<NodeState>, rule: Rule)
    requires |c| > 0
  {
    exists i :: 0 <= i < |c| && Committing(c, c[i], rule)
  }

  ghost predicate SomeoneReplies(c: seq<NodeState>, rule: Rule)
    requires |c| > 0
  {
    exists i :: 0 <= i < |c| && Replying(c, c[i], rule)
  }

  ghost function ReplierSlots(c: seq<NodeState>, rule: Rule): (r: seq<Option<string>>)
    requires |c| > 0
    ensures |r| == |c| && forall i :: 0 <= i < |c| ==> r[i] == if Replying(c, c[i], rule) then Some(c[i].id) else None
  {
    seq(|c|, i requires 0 <= i < |c| => if Replying(c, c[i], rule) then Some(c[i].id) else None)
  }

  /** The repliers' IDs, in node order. */
  ghost function ReplierIds(c: seq<NodeState>, rule: Rule): seq<string>
    requires |c| > 0
  {
    Gather(ReplierSlots(c, rule))
  }

  function NodeIds(replies: seq<Reply>): seq<string> {
    seq(|replies|, k requires 0 <= k < |replies| => replies[k].nodeId)
  }

  /** The cluster once the leader has drawn its sequence number. */
  function Started(c: seq<NodeState>): (a: seq<NodeState>)
    requires |c| > 0
    ensures |a| == |c|
  {
    c[0 := AfterStart(c[0])]
  }

  ghost predicate ReadyFor(c: seq<NodeState>, rule: Rule) {
    && |c| > 0 && DistinctIds(c) && c[0].role == Leader
    && forall i :: 0 <= i < |c| ==> Fresh(c[i], c[0].seqId + 1) && Weighable(c[i], rule)
  }

  lemma {:induction false} StartedReady(c: seq<NodeState>, operation: string, rule: Rule)
    requires ReadyFor(c, rule)
    ensures SameElectorate(c, Started(c))
    ensures AnnouncedBy(Started(c), PrePrepareEnvelope(Started(c)[0], c[0].seqId + 1, operation),
                        c[0].seqId + 1, operation)
    ensures forall i :: 0 <= i < |c| ==> Fresh(Started(c)[i], c[0].seqId + 1) && Weighable(Started(c)[i], rule)
  {}

  /** An uncancelled round, phase by phase. */
  lemma {:induction false} UncancelledRound(c: seq<NodeState>, call: Call, rule: Rule)
    requires |c| > 0 && c[0].role == Leader && Uncancelled(call)
    ensures var a, seqId := Started(c), c[0].seqId + 1;
            var pp := PrePrepareEnvelope(a[0], seqId, call.operation);
            RunRound(c, call, rule) ==
            if Gather(PrepareMsgs(a, pp)) == [] then RoundState(PrepareNodes(a, pp), Done(Failed(NoPrepare)))
            else if CommitTraffic(a, pp, seqId, call.operation, rule) == [] then
              RoundState(AfterCommitPhase(a, pp, seqId, rule), Done(Failed(NoCommit)))
            else
              ReplyPhase(AfterCommitPhase(a, pp, seqId, rule), seqId,
                         CommitTraffic(a, pp, seqId, call.operation, rule), call, rule)
  {
    var a, seqId := Started(c), c[0].seqId + 1;
    var pp := PrePrepareEnvelope(a[0], seqId, call.operation);
    var r1 := Announce(c, call);
    assert r1 == RoundState(a, Announced(pp));
    var r2 := PreparePhase(a, pp, call);
    assert Advance(r1, call, rule) == r2;
    assert RunRound(c, call, rule) == RunToEnd(r1, call, rule) == RunToEnd(r2, call, rule);
    if r2.progress.Prepared? {
      var r3 := CommitPhase(r2.nodes, seqId, r2.progress.prepares, call, rule);
      assert Advance(r2, call, rule) == r3;
      assert RunToEnd(r2, call, rule) == RunToEnd(r3, call, rule);
      if r3.progress.Committed? {
        var r4 := Advance(r3, call, rule);
        assert RunToEnd(r3, call, rule) == RunToEnd(r4, call, rule) == r4;
      }
    }
  }

  /** Some message of a phase is on its way exactly when some node sent it. */
  lemma {:induction false} PreparesAreSent(a: seq<NodeState>, pp: Envelope, seqId: int, operation: string)
    requires AnnouncedBy(a, pp, seqId, operation)
    ensures Gather(PrepareMsgs(a, pp)) != [] <==> SomeoneAccepts(a)
  {
    var prepares := Gather(PrepareMsgs(a, pp));
    if prepares != [] {
      PrepareTraffic(a, pp, seqId, operation, prepares[0]);
    }
    if i :| 0 <= i < |a| && Accepting(a, a[i]) {
      PrepareTraffic(a, pp, seqId, operation, PrepareEnvelope(a[i], pp.body));
    }
  }

  lemma {:induction false} CommitsAreSent(a: seq<NodeState>, pp: Envelope, seqId: int, operation: string, rule: Rule)
    requires AnnouncedBy(a, pp, seqId, operation)
    requires forall i :: 0 <= i < |a| ==> Fresh(a[i], seqId) && Weighable(a[i], rule)
    ensures CommitTraffic(a, pp, seqId, operation, rule) != [] <==> SomeoneCommits(a, rule)
  {
    var commits := CommitTraffic(a, pp, seqId, operation, rule);
    if commits != [] {
      CommitTrafficMembers(a, pp, seqId, operation, rule, commits[0]);
    }
    if i :| 0 <= i < |a| && Committing(a, a[i], rule) {
      CommitTrafficMembers(a, pp, seqId, operation, rule, CommitOf(a[i], seqId, operation));
    }
  }

  // ---- The theorem -----------------------------------------------------------------------

  /** Without acceptors nobody commits, and without committers nobody replies. */
  lemma {:induction false} NoTrafficNoQuorum(c: seq<NodeState>, i: nat, rule: Rule)
    requires i < |c|
    ensures !SomeoneAccepts(c) ==> !Committing(c, c[i], rule)
    ensures !SomeoneCommits(c, rule) ==> !Replying(c, c[i], rule)
  {
    if Committing(c, c[i], rule) {
      var id :| id in PreparesHeard(c, c[i], rule);
      var t :| t in c && Accepting(c, t) && Hears(c, c[i], t, rule) && t.id == id;
    }
    if Replying(c, c[i], rule) {
      var id :| id in CommitsHeard(c, c[i], rule);
      var t :| t in c && Committing(c, t, rule) && Hears(c, c[i], t, rule) && t.id == id;
    }
  }

  /** Exactly the logs of the repliers grow, by the operation. */
  lemma {:induction false} RoundLogs(c: seq<NodeState>, call: Call, rule: Rule, i: nat)
    requires ReadyFor(c, rule) && Uncancelled(call) && i < |c|
    ensures RunRound(c, call, rule).nodes[i].log ==
            c[i].log + (if Replying(c, c[i], rule) then [call.operation] else [])
  {
    var a, seqId := Started(c), c[0].seqId + 1;
    var pp := PrePrepareEnvelope(a[0], seqId, call.operation);
    StartedReady(c, call.operation, rule);
    UncancelledRound(c, call, rule);
    PreparesAreSent(a, pp, seqId, call.operation);
    CommitsAreSent(a, pp, seqId, call.operation, rule);
    ReplyingStable(c, a, i, rule);
    PrepareNodeRecords(a[i], pp, seqId);
    CommitTallies(a, pp, seqId, call.operation, i, rule);
    ReplyDecision(a, pp, seqId, call.operation, i, rule);
    ReplyNodeRecords(AfterCommitPhase(a, pp, seqId, rule)[i], CommitTraffic(a, pp, seqId, call.operation, rule), seqId,
                     call.operation, rule);
    NoTrafficNoQuorum(a, i, rule);
    SomeoneChain(a, rule);
  }

  /** A reply slot that is filled exactly when `id` is, with that node's reply up to the view field. */
  predicate ReplyFits(r: Option<Reply>, id: Option<string>, seqId: int, call: Call) {
    && r.Some? == id.Some?
    && (r.Some? ==>
          && r.value.nodeId == id.value && r.value.timestamp == seqId
          && r.value.clientId == call.clientId && r.value.result == OkResult(call.operation))
  }

  lemma {:induction false} GatherReplies(msgs: seq<Option<Reply>>, ids: seq<Option<string>>)
    requires |msgs| == |ids|
    requires forall i :: 0 <= i < |ids| ==>
             msgs[i].Some? == ids[i].Some? && (msgs[i].Some? ==> msgs[i].value.nodeId == ids[i].value)
    ensures NodeIds(Gather(msgs)) == Gather(ids)
  {
    if msgs != [] {
      var n := |msgs| - 1;
      GatherReplies(msgs[..n], ids[..n]);
    }
  }

  lemma {:induction false} ReplyShape(c: seq<NodeState>, call: Call, rule: Rule, i: nat)
    requires ReadyFor(c, rule) && i < |c|
    ensures var a, seqId := Started(c), c[0].seqId + 1;
            var pp := PrePrepareEnvelope(a[0], seqId, call.operation);
            ReplyFits(ReplyMsg(AfterCommitPhase(a, pp, seqId, rule)[i],
                               CommitTraffic(a, pp, seqId, call.operation, rule), seqId, call, rule),
                      ReplierSlots(c, rule)[i], seqId, call)
  {
    var a, seqId := Started(c), c[0].seqId + 1;
    var pp := PrePrepareEnvelope(a[0], seqId, call.operation);
    StartedReady(c, call.operation, rule);
    ReplyingStable(c, a, i, rule);
    CommitTallies(a, pp, seqId, call.operation, i, rule);
    ReplyDecision(a, pp, seqId, call.operation, i, rule);
  }

  /**
   An uncancelled round succeeds exactly when somebody replies. Its replies then come from exactly
   the repliers, once each and in node order, for this sequence number, client and operation; when
   it fails, the reason names the first of the three sets that is empty.
   */
  lemma {:induction false} RoundOutcome(c: seq<NodeState>, call: Call, rule: Rule)
    requires ReadyFor(c, rule) && Uncancelled(call)
    ensures var outcome := RunRound(c, call, rule).progress.outcome;
            if SomeoneReplies(c, rule) then
              && outcome.Replies? && NodeIds(outcome.replies) == ReplierIds(c, rule)
              && (forall r :: r in outcome.replies ==>
                    && r.timestamp == c[0].seqId + 1 && r.clientId == call.clientId
                    && r.result == "OK:" + call.operation)
            else if SomeoneCommits(c, rule) then outcome == Failed(NoReply)
            else if SomeoneAccepts(c) then outcome == Failed(NoCommit)
            else outcome == Failed(NoPrepare)
  {
    var a, seqId := Started(c), c[0].seqId + 1;
    var pp := PrePrepareEnvelope(a[0], seqId, call.operation);
    StartedReady(c, call.operation, rule);
    UncancelledRound(c, call, rule);
    PreparesAreSent(a, pp, seqId, call.operation);
    CommitsAreSent(a, pp, seqId, call.operation, rule);
    SomeoneStable(c, a, rule);
    SomeoneChain(c, rule);
    ReplyList(c, call, rule);
  }

  /** A round whose PrePrepare goes out, phase by phase. */
  lemma {:induction false} RoundByPhases(c: seq<NodeState>, call: Call, rule: Rule)
    requires |c| > 0 && c[0].role == Leader && !call.ctx.beforeDelivery
    ensures var a, seqId := Started(c), c[0].seqId + 1;
            var pp := PrePrepareEnvelope(a[0], seqId, call.operation);
            var outcome := RunRound(c, call, rule).progress.outcome;
            && (Gather(PrepareMsgs(a, pp)) == [] ==> outcome == Failed(NoPrepare))
            && (Gather(PrepareMsgs(a, pp)) != [] && call.ctx.afterPrepare ==> outcome == Failed(CancelledAfterPrepare))
            && (Gather(PrepareMsgs(a, pp)) != [] && !call.ctx.afterPrepare ==>
                  && (CommitTraffic(a, pp, seqId, call.operation, rule) == [] ==> outcome == Failed(NoCommit))
                  && (CommitTraffic(a, pp, seqId, call.operation, rule) != [] && call.ctx.afterCommit ==>
                        outcome == Failed(CancelledAfterCommit)))
  {
    var a, seqId := Started(c), c[0].seqId + 1;
    var pp := PrePrepareEnvelope(a[0], seqId, call.operation);
    var r0, r1, r2 := RoundState(c, Ready), RoundState(a, Announced(pp)), PreparePhase(a, pp, call);
    assert Announce(c, call) == r1;
    OnePhase(r0, r1, call, rule);
    OnePhase(r1, r2, call, rule);
    if r2.progress.Prepared? {
      OnePhase(r2, CommitPhase(r2.nodes, seqId, r2.progress.prepares, call, rule), call, rule);
    }
  }

  /**
   How any call fails: for the first reason met, in the order of the phases, an empty set of senders
   before the cancellation that follows its phase.
   */
  lemma {:induction false} FailureReason(c: seq<NodeState>, call: Call, rule: Rule)
    requires |c| > 0 && (c[0].role == Leader ==> ReadyFor(c, rule))
    ensures var outcome := RunRound(c, call, rule).progress.outcome;
            if c[0].role != Leader then outcome == Failed(NotLeader)
            else if call.ctx.beforeDelivery then outcome == Failed(CancelledBeforeDelivery)
            else if !SomeoneAccepts(c) then outcome == Failed(NoPrepare)
            else if call.ctx.afterPrepare then outcome == Failed(CancelledAfterPrepare)
            else if !SomeoneCommits(c, rule) then outcome == Failed(NoCommit)
            else if call.ctx.afterCommit then outcome == Failed(CancelledAfterCommit)
            else if !SomeoneReplies(c, rule) then outcome == Failed(NoReply)
            else outcome.Replies?
  {
    if c[0].role != Leader || call.ctx.beforeDelivery {
      OnePhase(RoundState(c, Ready), Announce(c, call), call, rule);
    } else {
      var a, seqId := Started(c), c[0].seqId + 1;
      var pp := PrePrepareEnvelope(a[0], seqId, call.operation);
      StartedReady(c, call.operation, rule);
      RoundByPhases(c, call, rule);
      PreparesAreSent(a, pp, seqId, call.operation);
      CommitsAreSent(a, pp, seqId, call.operation, rule);
      SomeoneStable(c, a, rule);
      SomeoneChain(c, rule);
      if Uncancelled(call) {
        RoundOutcome(c, call, rule);
      }
    }
  }

  // ---- What messages say -----------------------------------------------------------------

  /** Every Commit of a round names the round's number, the digest of its operation and its sender. */
  lemma {:induction false} CommitNamesOperation(
      a: seq<NodeState>, pp: Envelope, seqId: int, operation: string, rule: Rule, e: Envelope)
    requires e in CommitTraffic(a, pp, seqId, operation, rule)
    ensures e.body == Commit(e.body.view, seqId, Digest(operation), e.sender)
  {
    var msgs := CommitMsgs(PrepareNodes(a, pp), Gather(PrepareMsgs(a, pp)), seqId, operation, rule);
    GatherMembers(msgs);
    var i :| 0 <= i < |msgs| && msgs[i] == Some(e);
  }


  lemma {:induction false} CommitInLeaderView(
      a: seq<NodeState>, pp: Envelope, seqId: int, operation: string, f: int, e: Envelope)
    requires AnnouncedBy(a, pp, seqId, operation)
    requires e in CommitTraffic(a, pp, seqId, operation, Counting(f))
    ensures e.body.Commit? && e.body.view == a[0].view
  {
    var prepares := Gather(PrepareMsgs(a, pp));
    var msgs := CommitMsgs(PrepareNodes(a, pp), prepares, seqId, operation, Counting(f));
    GatherMembers(msgs);
    var i :| 0 <= i < |msgs| && msgs[i] == Some(e);
    var s := PrepareNode(a[i], pp);
    var k := Trigger(s, Tally(s.prepares, seqId), prepares, Counting(f));
    PrepareTraffic(a, pp, seqId, operation, prepares[k]);
  }

  /** Counted replies carry the leader's view. */
  lemma {:induction false} RepliesInLeaderView(c: seq<NodeState>, call: Call, f: int, r: Reply)
    requires |c| > 0 && c[0].role == Leader && Uncancelled(call)
    requires r in RepliesIn(RunRound(c, call, Counting(f)).progress.outcome)
    ensures r.view == c[0].view
  {
    var a, seqId, rule := Started(c), c[0].seqId + 1, Counting(f);
    var pp := PrePrepareEnvelope(a[0], seqId, call.operation);
    var d, envs := AfterCommitPhase(a, pp, seqId, rule), CommitTraffic(a, pp, seqId, call.operation, rule);
    UncancelledRound(c, call, rule);
    var msgs := ReplyMsgs(d, envs, seqId, call, rule);
    GatherMembers(msgs);
    var i :| 0 <= i < |msgs| && msgs[i] == Some(r);
    var k := Trigger(d[i], Tally(d[i].commits, seqId), envs, rule);
    CommitInLeaderView(a, pp, seqId, call.operation, f, envs[k]);
  }

  lemma {:induction false} SomeoneStable(c: seq<NodeState>, d: seq<NodeState>, rule: Rule)
    requires SameElectorate(c, d) && |c| > 0
    ensures SomeoneAccepts(c) == SomeoneAccepts(d)
    ensures SomeoneCommits(c, rule) == SomeoneCommits(d, rule)
  {
    forall i | 0 <= i < |c|
      ensures Accepting(c, c[i]) == Accepting(d, d[i])
      ensures Committing(c, c[i], rule) == Committing(d, d[i], rule)
    {
      HearsStable(c, d, i, i, rule);
      CommittingStable(c, d, i, rule);
    }
  }

  lemma {:induction false} SomeoneChain(c: seq<NodeState>, rule: Rule)
    requires |c| > 0
    ensures SomeoneReplies(c, rule) ==> SomeoneCommits(c, rule)
    ensures SomeoneCommits(c, rule) ==> SomeoneAccepts(c)
  {
    if i :| 0 <= i < |c| && Replying(c, c[i], rule) {
      NoTrafficNoQuorum(c, i, rule);
    }
    if i :| 0 <= i < |c| && Committing(c, c[i], rule) {
      NoTrafficNoQuorum(c, i, rule);
    }
  }

  /** The reply list of phase 4. */
  lemma {:induction false} ReplyList(c: seq<NodeState>, call: Call, rule: Rule)
    requires ReadyFor(c, rule)
    ensures var a, seqId := Started(c), c[0].seqId + 1;
            var pp := PrePrepareEnvelope(a[0], seqId, call.operation);
            var replies := Gather(ReplyMsgs(AfterCommitPhase(a, pp, seqId, rule),
                                            CommitTraffic(a, pp, seqId, call.operation, rule), seqId, call, rule));
            && NodeIds(replies) == ReplierIds(c, rule)
            && (replies != [] <==> SomeoneReplies(c, rule))
            && forall r :: r in replies ==>
                 r.timestamp == seqId && r.clientId == call.clientId && r.result == OkResult(call.operation)
  {
    var a, seqId := Started(c), c[0].seqId + 1;
    var pp := PrePrepareEnvelope(a[0], seqId, call.operation);
    var msgs := ReplyMsgs(AfterCommitPhase(a, pp, seqId, rule), CommitTraffic(a, pp, seqId, call.operation, rule),
                          seqId, call, rule);
    forall i | 0 <= i < |c|
      ensures ReplyFits(msgs[i], ReplierSlots(c, rule)[i], seqId, call)
    {
      ReplyShape(c, call, rule, i);
    }
    FittingReplies(msgs, ReplierSlots(c, rule), seqId, call);
    FilledSlots(c, rule);
  }

  lemma {:induction false} FilledSlots(c: seq<NodeState>, rule: Rule)
    requires |c| > 0
    ensures SomeoneReplies(c, rule) <==> exists i :: 0 <= i < |c| && ReplierSlots(c, rule)[i].Some?
  {
    if i :| 0 <= i < |c| && Replying(c, c[i], rule) {
      assert ReplierSlots(c, rule)[i].Some?;
    }
  }

  lemma {:induction false} FittingReplies(msgs: seq<Option<Reply>>, ids: seq<Option<string>>, seqId: int, call: Call)
    requires |msgs| == |ids| && forall i :: 0 <= i < |ids| ==> ReplyFits(msgs[i], ids[i], seqId, call)
    ensures NodeIds(Gather(msgs)) == Gather(ids)
    ensures Gather(msgs) != [] <==> exists i :: 0 <= i < |ids| && ids[i].Some?
    ensures forall r :: r in Gather(msgs) ==>
              r.timestamp == seqId && r.clientId == call.clientId && r.result == OkResult(call.operation)
  {
    GatherReplies(msgs, ids);
    GatherMembers(msgs);
    if Gather(msgs) != [] {
      assert Some(Gather(msgs)[0]) in msgs;
    }
    if i :| 0 <= i < |ids| && ids[i].Some? {
      assert msgs[i].value in Gather(msgs);
    }
  }

  // ---- Agreement inside one round --------------------------------------------------------

  /** In a cluster of at most 3f+1 nodes, what two repliers executed rests on f+1 common committers. */
  lemma {:induction false} RepliersShareCommitters(c: seq<NodeState>, f: nat, i: nat, j: nat)
    requires 0 < |c| <= 3 * f + 1 && i < |c| && j < |c|
    requires Replying(c, c[i], Counting(f)) && Replying(c, c[j], Counting(f))
    ensures |CommitTally(c, c[i], Counting(f)) * CommitTally(c, c[j], Counting(f))| >= f + 1
  {
    var all := Ids(c);
    IdCount(c);
    QuorumsIntersect(all, CommitTally(c, c[i], Counting(f)), CommitTally(c, c[j], Counting(f)), f);
  }

  lemma {:induction false} IdCount(c: seq<NodeState>)
    ensures |Ids(c)| <= |c|
    ensures DistinctIds(c) ==> |Ids(c)| == |c|
  {
    if c != [] {
      var n := |c| - 1;
      IdCount(c[..n]);
      var before := Ids(c[..n]);
      assert c == c[..n] + [c[n]];
      assert Ids(c) == before + {c[n].id};
      assert DistinctIds(c) ==> c[n].id !in before;
    }
  }
}
