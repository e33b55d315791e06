/**
 The reputation path over whole runs: a cluster that starts at equal scores and takes part in every
 round reaches the weighted Prepare and Commit quorums in every round, forever, although every node
 keeps counting itself for its initial score only (node/node.go:525-527).
 */
module WeightedLiveness {
  import opened Prelude
  import opened Weights
  import opened NodeModel
  import opened Round
  import opened Epochs
  import opened PbftInstance
  import opened QuorumSets
  import opened Runs
  import opened ReputationEpochs
  import opened WeightedRounds

  /** All scores are `r`, all base scores and self-weights are `base`. */
  ghost predicate Uniform(c: seq<NodeState>, r: real, base: real) {
    && PeersKnown(c)
    && forall i :: 0 <= i < |c| ==>
         c[i].reputation == r && c[i].baseReputation == base && SelfWeight(c[i]) == base
         && NonNegative(c[i].knownReputations)
  }

  ghost predicate LeaderTrusted(c: seq<NodeState>) {
    |c| > 0 && forall i :: 0 <= i < |c| ==> Accepting(c, c[i])
  }

  ghost predicate Healthy(c: seq<NodeState>, total: real, r: real, base: real) {
    && |c| >= 3 && Runnable(c, Weighted(total)) && LeaderTrusted(c)
    && Uniform(c, r, base) && r >= base >= 1.0 && total == TotalScore(c)
  }

  // ---- One round -------------------------------------------------------------------------

  lemma {:induction false} UniformTotal(c: seq<NodeState>, r: real)
    requires forall i :: 0 <= i < |c| ==> c[i].reputation == r
    ensures TotalScore(c) == Times(|c|, r)
    ensures TrueWeight(c, Ids(c)) == Times(|c|, r)
  {
    UniformSum(c, Ids(c), r);
  }

  lemma {:induction false} UniformSum(c: seq<NodeState>, senders: set<string>, r: real)
    requires forall i :: 0 <= i < |c| ==> c[i].reputation == r && c[i].id in senders
    ensures TotalScore(c) == Times(|c|, r)
    ensures TrueWeight(c, senders) == Times(|c|, r)
  {
    if c != [] {
      UniformSum(c[..|c| - 1], senders, r);
      assert |c| as real == (|c| - 1) as real + 1.0;
    }
  }

  /** (n-1)R + R_init reaches floor(2nR/3) + 1. */
  lemma {:induction false} FrozenSelfWeightSuffices(n: nat, r: real, base: real, total: real)
    requires n >= 3 && r >= base >= 1.0 && total == Times(n, r)
    ensures HasReputationQuorum(total + base - r, total)
  {
    assert (n as real - 3.0) * r >= 0.0;
    assert total >= 3.0 * r;
  }

  lemma {:induction false} AcceptorsAreAll(c: seq<NodeState>)
    requires LeaderTrusted(c)
    ensures Acceptors(c) == Ids(c)
  {
    var acceptors, all := Acceptors(c), Ids(c);
    forall id | id in all
      ensures id in acceptors
    {
      var i :| 0 <= i < |c| && c[i].id == id;
      assert Accepting(c, c[i]);
    }
    assert acceptors == all;
  }

  /** By everyone's map, everyone together weighs the true total up to the own, frozen entry. */
  lemma {:induction false} UniformWeight(c: seq<NodeState>, r: real, base: real, s: NodeState)
    requires DistinctIds(c) && Uniform(c, r, base) && s in c
    ensures Weight(s.knownReputations, Ids(c)) == TotalScore(c) + base - r
    ensures NonNegative(s.knownReputations)
  {
    var k :| 0 <= k < |c| && c[k] == s;
    WeightIsTrueUpToSelf(c, k, Ids(c));
    UniformTotal(c, r);
  }

  lemma {:induction false} UniformSuffices(c: seq<NodeState>, total: real, r: real, base: real)
    requires |c| >= 2 && DistinctIds(c) && LeaderTrusted(c) && Uniform(c, r, base) && total == TotalScore(c)
    ensures AcceptorsSuffice(c, total) <==> HasReputationQuorum(total + base - r, total)
    ensures !HasReputationQuorum(total + base - r, total) ==> NobodyCommits(c, total)
  {
    AcceptorsAreAll(c);
    IdCount(c);
    forall s | s in c
      ensures Weight(s.knownReputations, Ids(c)) == total + base - r
      ensures !HasReputationQuorum(total + base - r, total) ==> !Committing(c, s, Weighted(total))
    {
      UniformWeight(c, r, base, s);
      CommitsByWeight(c, s, total);
    }
    assert c[0] in c;
  }

  /**
   The exact condition: a cluster of at least two nodes with equal scores and a trusted leader succeeds
   in a round if and only if nobody cancels it and the total, less what a score exceeds the frozen
   self-weight by, reaches the threshold of the total.
   */
  lemma {:induction false} UniformRoundSucceedsIff(c: seq<NodeState>, total: real, r: real, base: real, call: Call)
    requires |c| >= 2 && Runnable(c, Weighted(total)) && LeaderTrusted(c) && Uniform(c, r, base)
             && total == TotalScore(c)
    ensures RunRound(c, call, Weighted(total)).progress.outcome.Replies? <==>
            Uncancelled(call) && HasReputationQuorum(total + base - r, total)
  {
    UniformSuffices(c, total, r, base);
    if !HasReputationQuorum(total + base - r, total) {
      RoundWhenNobodyCommits(c, call, total);
    } else if Uncancelled(call) {
      RoundWhenSufficient(c, call, total);
    } else {
      OneCall(c, call, Weighted(total));
    }
  }

  /** Two nodes stall exactly when one true and one frozen score together miss the threshold of two true ones. */
  lemma {:induction false} TwoNodesStall(c: seq<NodeState>, r: real, base: real, call: Call)
    requires |c| == 2 && Runnable(c, Weighted(TotalScore(c))) && LeaderTrusted(c) && Uniform(c, r, base)
             && Uncancelled(call)
    ensures RunRound(c, call, Weighted(TotalScore(c))).progress.outcome.Failed? <==> r + base < Threshold(2.0 * r)
  {
    UniformRoundSucceedsIff(c, TotalScore(c), r, base, call);
    UniformTotal(c, r);
    assert Times(2, r) == 2.0 * r;
  }

  /** They do from three times the frozen self-weight on, and already at 1.5 against 1. */
  lemma {:induction false} TwoNodesStallEarly(c: seq<NodeState>, r: real, base: real, call: Call)
    requires |c| == 2 && Runnable(c, Weighted(TotalScore(c))) && LeaderTrusted(c) && Uniform(c, r, base)
    requires (base >= 0.0 && r >= 3.0 * base) || (r == 1.5 && base == 1.0)
    ensures RunRound(c, call, Weighted(TotalScore(c))).progress.outcome.Failed?
  {
    if Uncancelled(call) {
      TwoNodesStall(c, r, base, call);
    } else {
      OneCall(c, call, Weighted(TotalScore(c)));
    }
  }

  lemma {:induction false} HealthySuffices(c: seq<NodeState>, total: real, r: real, base: real)
    requires Healthy(c, total, r, base)
    ensures AcceptorsSuffice(c, total)
  {
    UniformSuffices(c, total, r, base);
    UniformTotal(c, r);
    FrozenSelfWeightSuffices(|c|, r, base, total);
  }

  // ---- One round and its epoch -----------------------------------------------------------

  lemma {:induction false} RoundLogOfAll(c: seq<NodeState>, total: real, r: real, base: real, call: Call, i: nat)
    requires Healthy(c, total, r, base) && Uncancelled(call) && i < |c|
    ensures RunRound(c, call, Weighted(total)).nodes[i].log == c[i].log + [call.operation]
  {
    HealthySuffices(c, total, r, base);
    LogWhenSufficient(c, call, total, i);
  }

  /** A round that nobody cancels is answered by every node. */
  lemma {:induction false} RoundOfAll(c: seq<NodeState>, total: real, r: real, base: real, call: Call)
    requires Healthy(c, total, r, base) && Uncancelled(call)
    ensures var outcome := RunRound(c, call, Weighted(total)).progress.outcome;
            outcome.Replies? && |outcome.replies| == |c|
  {
    HealthySuffices(c, total, r, base);
    RoundWhenSufficient(c, call, total);
  }

  /** Everyone sends a Prepare, so everyone is rewarded. */
  lemma {:induction false} EveryoneParticipates(c: seq<NodeState>, call: Call, i: nat)
    requires LeaderTrusted(c) && c[0].role == Leader && !call.ctx.beforeDelivery && i < |c|
    ensures c[i].id in Participants(c, call)
  {
    ParticipantsAreAcceptors(c, call);
    AcceptorsAreAll(c);
    assert c[i] in c;
  }

  /** The state after a successful round and its epoch update. */
  ghost function Next(c: seq<NodeState>, total: real, call: Call, t: Tuning): (d: seq<NodeState>)
    requires |c| > 0 && Sound(t)
    ensures |d| == |c|
  {
    RoundThenEpoch(c, call, Weighted(total), true, t)
  }

  /** An epoch changes scores and score maps, nothing else. */
  lemma {:induction false} EpochKeepsRecords(c: seq<NodeState>, participants: set<string>, t: Tuning, i: nat)
    requires Sound(t) && i < |c|
    ensures var d := EpochUpdate(c, participants, t)[i];
            && SameIdentity(c[i], d) && d.log == c[i].log && d.seqId == c[i].seqId
            && d.prepares == c[i].prepares && d.commits == c[i].commits && d.executed == c[i].executed
  {}

  function NextScore(r: real, base: real, t: Tuning): real
    requires Sound(t)
  {
    Updated(r, base, true, t.alpha, t.beta, t.gamma, t.ln)
  }

  lemma {:induction false} ScoresOnlyRise(r: real, base: real, t: Tuning)
    requires Sound(t) && t.alpha >= 0.0 && r >= base >= 1.0
    ensures NextScore(r, base, t) >= r
  {
    var denominator := t.ln(Max(r - base, 0.0)) + t.beta;
    var q := t.alpha / denominator;
    assert q * denominator == t.alpha;
    assert q >= 0.0;
  }

  lemma {:induction false} EpochKeepsRunnable(c: seq<NodeState>, participants: set<string>, t: Tuning, total: real)
    requires Sound(t) && Runnable(c, Weighted(total)) && LeaderTrusted(c)
    requires forall i :: 0 <= i < |c| ==> NonNegative(EpochUpdate(c, participants, t)[i].knownReputations)
    ensures var d := EpochUpdate(c, participants, t);
            Runnable(d, Weighted(TotalScore(d))) && LeaderTrusted(d)
  {
    var d := EpochUpdate(c, participants, t);
    forall i | 0 <= i < |c|
      ensures SameIdentity(c[i], d[i]) && Accepting(d, d[i])
      ensures forall x :: x > d[0].seqId ==> Fresh(d[i], x)
    {
      EpochKeepsRecords(c, participants, t, i);
      EpochKeepsRecords(c, participants, t, 0);
      assert Accepting(c, c[i]);
      forall x | x > d[0].seqId
        ensures Fresh(d[i], x)
      {
        assert Fresh(c[i], x);
      }
    }
  }

  /** Maps stay non-negative: peers' entries are scores, the own entry does not move. */
  lemma {:induction false} EpochMapsNonNegative(c: seq<NodeState>, participants: set<string>, t: Tuning, i: nat)
    requires DistinctIds(c) && Sound(t) && i < |c| && NonNegative(c[i].knownReputations)
    ensures NonNegative(EpochUpdate(c, participants, t)[i].knownReputations)
  {
    var scored := ScoredAll(c, participants, t);
    ScoreMapHolds(scored);
    forall id | id in ScoreMap(scored)
      ensures ScoreMap(scored)[id] >= 0.0
    {
      var j :| 0 <= j < |scored| && scored[j].id == id;
    }
  }

  lemma {:induction false} EpochOfAll(
      c: seq<NodeState>, participants: set<string>, t: Tuning, total: real, r: real, base: real)
    requires Healthy(c, total, r, base) && Sound(t) && t.alpha >= 0.0
    requires forall i :: 0 <= i < |c| ==> c[i].id in participants
    ensures var d := EpochUpdate(c, participants, t);
            Healthy(d, TotalScore(d), NextScore(r, base, t), base)
  {
    var d := EpochUpdate(c, participants, t);
    forall i | 0 <= i < |c|
      ensures NonNegative(d[i].knownReputations)
    {
      EpochMapsNonNegative(c, participants, t, i);
    }
    EpochKeepsRunnable(c, participants, t, total);
    EpochSynchronises(c, participants, t);
    ScoresOnlyRise(r, base, t);
  }

  lemma {:induction false} RoundKeepsHealth(c: seq<NodeState>, total: real, r: real, base: real, call: Call)
    requires Healthy(c, total, r, base)
    ensures Healthy(RunRound(c, call, Weighted(total)).nodes, total, r, base)
  {
    OneCall(c, call, Weighted(total));
    var d := RunRound(c, call, Weighted(total)).nodes;
    forall i | 0 <= i < |c|
      ensures Accepting(d, d[i]) && SelfWeight(d[i]) == base && NonNegative(d[i].knownReputations)
    {
      HearsStable(c, d, i, i, Weighted(total));
      assert SameIdentity(c[i], d[i]);
      assert Accepting(c, c[i]) && SelfWeight(c[i]) == base;
    }
    SamePeers(c, d);
    SameTotal(c, d);
  }

  lemma {:induction false} SamePeers(c: seq<NodeState>, d: seq<NodeState>)
    requires PeersKnown(c) && SameElectorate(c, d) && SameScores(c, d)
    ensures PeersKnown(d)
  {
    forall i, j | 0 <= i < |d| && 0 <= j < |d| && i != j
      ensures d[j].id in d[i].knownReputations && d[i].knownReputations[d[j].id] == d[j].reputation
    {
      assert SameIdentity(c[i], d[i]) && SameIdentity(c[j], d[j]);
    }
  }

  lemma {:induction false} SameTotal(c: seq<NodeState>, d: seq<NodeState>)
    requires SameScores(c, d)
    ensures TotalScore(c) == TotalScore(d)
  {
    if c != [] {
      SameTotal(c[..|c| - 1], d[..|d| - 1]);
    }
  }

  lemma {:induction false} NextIsHealthy(c: seq<NodeState>, total: real, r: real, base: real, call: Call, t: Tuning)
    requires Healthy(c, total, r, base) && Uncancelled(call) && Sound(t) && t.alpha >= 0.0
    ensures var d := Next(c, total, call, t);
            Healthy(d, TotalScore(d), NextScore(r, base, t), base)
  {
    var e := RunRound(c, call, Weighted(total)).nodes;
    RoundOfAll(c, total, r, base, call);
    RoundKeepsHealth(c, total, r, base, call);
    OneCall(c, call, Weighted(total));
    forall i | 0 <= i < |e|
      ensures e[i].id in Participants(c, call)
    {
      EveryoneParticipates(c, call, i);
      assert SameIdentity(c[i], e[i]);
    }
    EpochOfAll(e, Participants(c, call), t, total, r, base);
  }

  lemma {:induction false} NextLog(c: seq<NodeState>, total: real, r: real, base: real, call: Call, t: Tuning, i: nat)
    requires Healthy(c, total, r, base) && Uncancelled(call) && Sound(t) && i < |c|
    ensures Next(c, total, call, t)[i].log == c[i].log + [call.operation]
  {
    RoundOfAll(c, total, r, base, call);
    RoundLogOfAll(c, total, r, base, call, i);
    EpochKeepsRecords(RunRound(c, call, Weighted(total)).nodes, Participants(c, call), t, i);
  }

  // ---- Forever ---------------------------------------------------------------------------

  /** The cluster after a sequence of RunPBFT calls with automatic reputation updates. */
  ghost function Lifetime(c: seq<NodeState>, calls: seq<Call>, t: Tuning): (d: seq<NodeState>)
    requires |c| > 0 && Sound(t)
    ensures |d| == |c|
  {
    if calls == [] then c
    else
      var before := Lifetime(c, calls[..|calls| - 1], t);
      Next(before, TotalScore(before), calls[|calls| - 1], t)
  }

  function ScoreAfter(base: real, n: nat, t: Tuning): real
    requires Sound(t)
  {
    if n == 0 then base else NextScore(ScoreAfter(base, n - 1, t), base, t)
  }

  lemma {:induction false} StaysHealthy(c: seq<NodeState>, base: real, calls: seq<Call>, t: Tuning)
    requires Healthy(c, TotalScore(c), base, base) && Sound(t) && t.alpha >= 0.0
    requires forall k :: 0 <= k < |calls| ==> Uncancelled(calls[k])
    ensures Healthy(Lifetime(c, calls, t), TotalScore(Lifetime(c, calls, t)), ScoreAfter(base, |calls|, t), base)
  {
    if calls != [] {
      var before := calls[..|calls| - 1];
      StaysHealthy(c, base, before, t);
      var d := Lifetime(c, before, t);
      NextIsHealthy(d, TotalScore(d), ScoreAfter(base, |before|, t), base, calls[|calls| - 1], t);
    }
  }

  /**
   Every round of the run is answered by every node: both weighted quorums are reached by all, in
   every round, whatever the number of rounds.
   */
  lemma {:induction false} EveryRoundSucceeds(c: seq<NodeState>, base: real, calls: seq<Call>, t: Tuning, k: nat)
    requires Healthy(c, TotalScore(c), base, base) && Sound(t) && t.alpha >= 0.0 && k < |calls|
    requires forall j :: 0 <= j < |calls| ==> Uncancelled(calls[j])
    ensures var d := Lifetime(c, calls[..k], t);
            var outcome := RunRound(d, calls[k], Weighted(TotalScore(d))).progress.outcome;
            outcome.Replies? && |outcome.replies| == |c|
  {
    StaysHealthy(c, base, calls[..k], t);
    var d := Lifetime(c, calls[..k], t);
    RoundOfAll(d, TotalScore(d), ScoreAfter(base, k, t), base, calls[k]);
  }

  function Operations(calls: seq<Call>): (r: seq<string>)
    ensures |r| == |calls|
  {
    seq(|calls|, k requires 0 <= k < |calls| => calls[k].operation)
  }

  /** All logs stay in step: each is the initial log followed by every operation, in order. */
  lemma {:induction false} LifetimeLogs(c: seq<NodeState>, base: real, calls: seq<Call>, t: Tuning, i: nat)
    requires Healthy(c, TotalScore(c), base, base) && Sound(t) && t.alpha >= 0.0 && i < |c|
    requires forall j :: 0 <= j < |calls| ==> Uncancelled(calls[j])
    ensures Lifetime(c, calls, t)[i].log == c[i].log + Operations(calls)
  {
    if calls != [] {
      var before, last := calls[..|calls| - 1], calls[|calls| - 1];
      LifetimeLogs(c, base, before, t, i);
      StaysHealthy(c, base, before, t);
      var d := Lifetime(c, before, t);
      NextLog(d, TotalScore(d), ScoreAfter(base, |before|, t), base, last, t, i);
      assert Operations(calls) == Operations(before) + [last.operation];
    }
  }
}
