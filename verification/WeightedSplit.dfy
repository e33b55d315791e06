/**
 One ordinary RunPBFT call with its reputation update is enough to split weighted quorums: nodes that
 do not hold the leader's key take no part, their scores fall, and they go on counting themselves for
 their initial scores (protocol/pbft.go:218-379, node/node.go:521-530).
 */
module WeightedSplit {
  import opened Prelude
  import opened Weights
  import opened NodeModel
  import opened Round
  import opened Epochs
  import opened PbftInstance
  import opened QuorumSets
  import opened Runs
  import opened ReputationEpochs
  import opened WeightedRounds
  import Messages

  // ---- Sums over six nodes ---------------------------------------------------------------

  function Share(s: NodeState, senders: set<string>): real {
    if s.id in senders then s.reputation else 0.0
  }

  lemma {:induction false} WeightStep(c: seq<NodeState>, m: nat, senders: set<string>)
    requires m < |c|
    ensures TrueWeight(c[..m + 1], senders) == TrueWeight(c[..m], senders) + Share(c[m], senders)
    ensures TotalScore(c[..m + 1]) == TotalScore(c[..m]) + c[m].reputation
  {
    assert c[..m + 1][..m] == c[..m];
  }

  lemma {:induction false} SumsOfSix(c: seq<NodeState>, senders: set<string>)
    requires |c| == 6
    ensures TrueWeight(c, senders) == Share(c[0], senders) + Share(c[1], senders) + Share(c[2], senders)
                                      + Share(c[3], senders) + Share(c[4], senders) + Share(c[5], senders)
    ensures TotalScore(c) == c[0].reputation + c[1].reputation + c[2].reputation
                             + c[3].reputation + c[4].reputation + c[5].reputation
  {
    WeightStep(c, 0, senders);
    WeightStep(c, 1, senders);
    WeightStep(c, 2, senders);
    WeightStep(c, 3, senders);
    WeightStep(c, 4, senders);
    WeightStep(c, 5, senders);
    assert c[..0] == [] && c[..6] == c;
  }

  // ---- The cluster -----------------------------------------------------------------------

  /** Four nodes that start at 10 and hold the leader's key, and two that start at 9 and do not. */
  ghost predicate FourAndTwo(c: seq<NodeState>) {
    && |c| == 6 && Founded(c) && Runnable(c, Weighted(58.0))
    && (forall i :: 0 <= i < 6 ==> SelfWeight(c[i]) == c[i].reputation)
    && (forall i :: 0 <= i < 4 ==> Accepting(c, c[i]) && c[i].reputation == 10.0)
    && (forall i :: 4 <= i < 6 ==> !Accepting(c, c[i]) && c[i].reputation == 9.0)
  }

  lemma {:induction false} FourAccept(c: seq<NodeState>)
    requires FourAndTwo(c)
    ensures Acceptors(c) == {c[0].id, c[1].id, c[2].id, c[3].id} && |Acceptors(c)| == 4
    ensures Acceptors(c) <= Ids(c)
  {
    var acceptors, four := Acceptors(c), {c[0].id, c[1].id, c[2].id, c[3].id};
    assert c[0] in c && c[1] in c && c[2] in c && c[3] in c;
    forall id | id in acceptors
      ensures id in four
    {
      var t :| t in c && Accepting(c, t) && t.id == id;
      var i :| 0 <= i < |c| && c[i] == t;
    }
    assert acceptors == four;
  }

  /** The four reach the threshold floor(2 * 58 / 3) + 1 = 39 by everyone's map. */
  lemma {:induction false} FourSuffice(c: seq<NodeState>)
    requires FourAndTwo(c)
    ensures AcceptorsSuffice(c, 58.0) && TotalScore(c) == 58.0
  {
    FourAccept(c);
    SumsOfSix(c, Acceptors(c));
    forall s | s in c
      ensures HasReputationQuorum(Weight(s.knownReputations, Acceptors(c)), 58.0)
    {
      var k :| 0 <= k < |c| && c[k] == s;
      WeightIsTrueUpToSelf(c, k, Acceptors(c));
    }
  }

  ghost predicate Steep(t: Tuning) {
    Sound(t) && 0.0 < t.alpha <= 0.2 * t.beta && 0.0 <= t.gamma <= 0.1
  }

  /** The scores one epoch makes of the four and of the two. */
  lemma {:induction false} OneUpdate(t: Tuning)
    requires Steep(t)
    ensures 10.0 <= Updated(10.0, 10.0, true, t.alpha, t.beta, t.gamma, t.ln) <= 10.2
    ensures 0.0 <= Updated(9.0, 9.0, false, t.alpha, t.beta, t.gamma, t.ln) <= 0.9
  {
    var denominator := t.ln(0.0) + t.beta;
    assert denominator >= t.beta;
    QuotientShrinks(t.alpha, t.beta, denominator);
    assert (t.alpha / t.beta) * t.beta == t.alpha;
    assert (0.2 - t.alpha / t.beta) * t.beta >= 0.0;
  }

  // ---- After the call --------------------------------------------------------------------

  /** Six nodes with scores r, r, r, r, w, w that count themselves for 10, 10, 10, 10, 9, 9. */
  ghost predicate Fallen(d: seq<NodeState>, r: real, w: real) {
    && |d| == 6 && Synchronised(d) && 10.0 <= r <= 10.2 && 0.0 <= w <= 0.9
    && (forall i :: 0 <= i < 4 ==> d[i].reputation == r && SelfWeight(d[i]) == 10.0)
    && (forall i :: 4 <= i < 6 ==> d[i].reputation == w && SelfWeight(d[i]) == 9.0)
  }

  /** Disjoint sender sets that two nodes each take for a quorum. */
  ghost predicate Split(d: seq<NodeState>, i: nat, k: nat, a: set<string>, b: set<string>)
    requires i < |d| && k < |d|
  {
    && a !! b && a <= Ids(d) && b <= Ids(d)
    && HasReputationQuorum(Weight(d[i].knownReputations, a), TotalScore(d))
    && HasReputationQuorum(Weight(d[k].knownReputations, b), TotalScore(d))
  }

  /** A fallen node and any two of the four reach the threshold by the fallen node's map. */
  lemma {:induction false} FallenQuorum(d: seq<NodeState>, r: real, w: real, k: nat, x: nat, y: nat)
    requires Fallen(d, r, w) && 4 <= k < 6 && x < y < 4
    ensures {d[k].id, d[x].id, d[y].id} <= Ids(d)
    ensures HasReputationQuorum(Weight(d[k].knownReputations, {d[k].id, d[x].id, d[y].id}), TotalScore(d))
  {
    var a := {d[k].id, d[x].id, d[y].id};
    assert d[k] in d && d[x] in d && d[y] in d;
    WeightIsTrueUpToSelf(d, k, a);
    SumsOfSix(d, a);
  }

  lemma {:induction false} FallenSplits(d: seq<NodeState>, r: real, w: real)
    requires Fallen(d, r, w)
    ensures Split(d, 4, 5, {d[4].id, d[0].id, d[1].id}, {d[5].id, d[2].id, d[3].id})
  {
    FallenQuorum(d, r, w, 4, 0, 1);
    FallenQuorum(d, r, w, 5, 2, 3);
  }

  lemma {:induction false} SameNames(c: seq<NodeState>, e: seq<NodeState>)
    requires SameElectorate(c, e)
    ensures DistinctIds(c) == DistinctIds(e)
    ensures forall i :: 0 <= i < |c| ==> e[i].id == c[i].id
  {
    forall i | 0 <= i < |c|
      ensures e[i].id == c[i].id
    {
      assert SameIdentity(c[i], e[i]);
    }
  }

  lemma {:induction false} EpochAt(c: seq<NodeState>, e: seq<NodeState>, participants: set<string>, t: Tuning, i: nat)
    requires FourAndTwo(c) && SameElectorate(c, e) && SameScores(c, e) && Steep(t) && i < 6
    requires participants == {c[0].id, c[1].id, c[2].id, c[3].id}
    ensures var d := EpochUpdate(e, participants, t);
            && SelfWeight(d[i]) == c[i].reputation
            && d[i].reputation == if i < 4 then Updated(10.0, 10.0, true, t.alpha, t.beta, t.gamma, t.ln)
                                  else Updated(9.0, 9.0, false, t.alpha, t.beta, t.gamma, t.ln)
  {
    SameNames(c, e);
    EpochSynchronises(e, participants, t);
    assert SameIdentity(c[i], e[i]);
    assert e[i].id in participants <==> i < 4;
  }

  /** An epoch that rewards the first four and not the last two. */
  lemma {:induction false} EpochFells(c: seq<NodeState>, e: seq<NodeState>, participants: set<string>, t: Tuning)
    returns (r: real, w: real)
    requires FourAndTwo(c) && SameElectorate(c, e) && SameScores(c, e) && Steep(t)
    requires participants == {c[0].id, c[1].id, c[2].id, c[3].id}
    ensures Fallen(EpochUpdate(e, participants, t), r, w)
  {
    r := Updated(10.0, 10.0, true, t.alpha, t.beta, t.gamma, t.ln);
    w := Updated(9.0, 9.0, false, t.alpha, t.beta, t.gamma, t.ln);
    OneUpdate(t);
    SameNames(c, e);
    EpochSynchronises(e, participants, t);
    forall i | 0 <= i < 6
      ensures EpochUpdate(e, participants, t)[i].reputation == (if i < 4 then r else w)
      ensures SelfWeight(EpochUpdate(e, participants, t)[i]) == c[i].reputation
    {
      EpochAt(c, e, participants, t, i);
    }
  }

  /**
   One uncancelled RunPBFT call on such a cluster succeeds, and its update leaves weighted quorums
   without a common member: each of the two nodes that took no part completes a quorum with two of the
   four, and the quorums are disjoint.
   */
  lemma {:induction false} DecayedSelfWeightsSplit(c: seq<NodeState>, call: Call, t: Tuning)
    requires FourAndTwo(c) && Uncancelled(call) && Steep(t)
    ensures RunRound(c, call, Weighted(TotalScore(c))).progress.outcome.Replies?
    ensures var d := RoundThenEpoch(c, call, Weighted(TotalScore(c)), true, t);
            && Synchronised(d)
            && Split(d, 4, 5, {d[4].id, d[0].id, d[1].id}, {d[5].id, d[2].id, d[3].id})
  {
    FourSuffice(c);
    FourAccept(c);
    RoundWhenSufficient(c, call, 58.0);
    OneCall(c, call, Weighted(58.0));
    ParticipantsAreAcceptors(c, call);
    var r, w := EpochFells(c, RunRound(c, call, Weighted(58.0)).nodes, Participants(c, call), t);
    FallenSplits(RoundThenEpoch(c, call, Weighted(58.0), true, t), r, w);
  }

  const SCORES: map<string, real> := map["a" := 10.0, "b" := 10.0, "c" := 10.0, "d" := 10.0, "e" := 9.0, "f" := 9.0]

  function Vehicle(id: string, role: Role, keys: map<string, Option<Messages.Key>>, score: real): NodeState {
    NodeState(id, role, Messages.Key(0), keys, 0, 0, map[], map[], [], {}, score, score, SCORES)
  }

  function SixVehicles(): seq<NodeState> {
    var keys := map["a" := Some(Messages.Key(0))];
    [Vehicle("a", Leader, keys, 10.0), Vehicle("b", Replica, keys, 10.0), Vehicle("c", Replica, keys, 10.0),
     Vehicle("d", Replica, keys, 10.0), Vehicle("e", Replica, map[], 9.0), Vehicle("f", Replica, map[], 9.0)]
  }

  lemma {:induction false} VehicleAt(i: nat)
    requires i < 6
    ensures var s := SixVehicles()[i];
            && |s.id| == 1 && s.id[0] as int == 97 + i
            && s.id in SCORES && s.reputation == s.baseReputation == SCORES[s.id] > 0.0 && s.knownReputations == SCORES
  {}

  lemma {:induction false} SixVehiclesFounded()
    ensures |SixVehicles()| == 6 && Founded(SixVehicles())
    ensures forall i :: 0 <= i < 6 ==> SelfWeight(SixVehicles()[i]) == SixVehicles()[i].reputation
  {
    var c := SixVehicles();
    forall i | 0 <= i < |c|
      ensures c[i].id[0] as int == 97 + i && c[i].id in SCORES && c[i].knownReputations == SCORES
      ensures c[i].reputation == c[i].baseReputation == SCORES[c[i].id] > 0.0
    {
      VehicleAt(i);
    }
  }

  lemma {:induction false} SixVehiclesRunnable()
    ensures |SixVehicles()| == 6 && Runnable(SixVehicles(), Weighted(58.0))
  {
    var c := SixVehicles();
    SixVehiclesFounded();
    forall i, x | 0 <= i < 6 && x > 0
      ensures Fresh(c[i], x) && NonNegative(c[i].knownReputations)
    {}
  }

  /** Such a cluster exists. */
  lemma {:induction false} FourAndTwoExist() returns (c: seq<NodeState>)
    ensures FourAndTwo(c)
  {
    c := SixVehicles();
    SixVehiclesFounded();
    SixVehiclesRunnable();
    assert forall i :: 0 <= i < 4 ==> Accepting(c, c[i]);
  }
}
