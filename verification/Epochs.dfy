/** One reputation epoch of a cluster (protocol/pbft.go:472-497) on node values. */
module Epochs {
  import opened Prelude
  import opened Weights
  import opened NodeModel

  datatype Tuning = Tuning(alpha: real, beta: real, gamma: real, ln: real -> real)

  /** beta > 0 keeps the reward's denominator away from zero. */
  ghost predicate Sound(t: Tuning) {
    t.beta > 0.0 && LogLike(t.ln)
  }

  function Scored(s: NodeState, honest: bool, t: Tuning): NodeState
    requires Sound(t)
  {
    s.(reputation := Updated(s.reputation, s.baseReputation, honest, t.alpha, t.beta, t.gamma, t.ln))
  }

  function ScoredAll(c: seq<NodeState>, participants: set<string>, t: Tuning): (r: seq<NodeState>)
    requires Sound(t)
    ensures |r| == |c| && forall i :: 0 <= i < |c| ==> r[i] == Scored(c[i], c[i].id in participants, t)
  {
    seq(|c|, i requires 0 <= i < |c| => Scored(c[i], c[i].id in participants, t))
  }

  function ScoreMap(c: seq<NodeState>): map<string, real> {
    if c == [] then map[]
    else
      var last := c[|c| - 1];
      ScoreMap(c[..|c| - 1])[last.id := last.reputation]
  }

  function TotalScore(c: seq<NodeState>): real {
    if c == [] then 0.0 else TotalScore(c[..|c| - 1]) + c[|c| - 1].reputation
  }

  /** Everybody learns the score vector, except that nobody's entry for itself changes. */
  function Synced(s: NodeState, scores: map<string, real>): NodeState {
    s.(knownReputations := s.knownReputations + (scores - {s.id}))
  }

  function SyncedAll(c: seq<NodeState>, scores: map<string, real>): (r: seq<NodeState>)
    ensures |r| == |c| && forall i :: 0 <= i < |c| ==> r[i] == Synced(c[i], scores)
  {
    seq(|c|, i requires 0 <= i < |c| => Synced(c[i], scores))
  }

  function EpochUpdate(c: seq<NodeState>, participants: set<string>, t: Tuning): (r: seq<NodeState>)
    requires Sound(t)
    ensures |r| == |c|
  {
    var scored := ScoredAll(c, participants, t);
    SyncedAll(scored, ScoreMap(scored))
  }

  // ---- What an epoch does to a score -----------------------------------------------------

  /** How far a score lies above its base. */
  function Excess(s: NodeState): (x: real)
    ensures x >= 0.0
  {
    if s.reputation > s.baseReputation then s.reputation - s.baseReputation else 0.0
  }

  /**
   The gain of a node that took part, times the logarithmic denominator, is alpha; a score that would
   become negative becomes 0.
   */
  ghost predicate Rewarded(s: NodeState, after: NodeState, t: Tuning) {
    var denominator := t.ln(Excess(s)) + t.beta;
    && after.reputation >= 0.0
    && (after.reputation > 0.0 ==> (after.reputation - s.reputation) * denominator == t.alpha)
    && (after.reputation == 0.0 ==> s.reputation * denominator + t.alpha <= 0.0)
  }

  /** A node that took no part keeps the share gamma of its score, and at least 0. */
  ghost predicate Decayed(s: NodeState, after: NodeState, t: Tuning) {
    && after.reputation >= 0.0
    && (after.reputation > 0.0 ==> after.reputation == t.gamma * s.reputation)
    && (after.reputation == 0.0 ==> t.gamma * s.reputation <= 0.0)
  }

  lemma {:induction false} Quotient(a: real, r: real, d: real)
    requires d > 0.0
    ensures (a / d) * d == a && (r + a / d) * d == r * d + a
    ensures r + a / d <= 0.0 ==> r * d + a <= 0.0
  {
    var q := a / d;
    assert q * d == a;
    assert (r + q) * d == r * d + q * d;
    if r + q <= 0.0 {
      assert (0.0 - (r + q)) * d >= 0.0;
    }
  }

  lemma {:induction false} RewardedScore(s: NodeState, after: NodeState, t: Tuning)
    requires Sound(t) && after.reputation == Scored(s, true, t).reputation
    ensures Rewarded(s, after, t)
  {
    assert Max(s.reputation - s.baseReputation, 0.0) == Excess(s);
    Quotient(t.alpha, s.reputation, t.ln(Excess(s)) + t.beta);
  }

  lemma {:induction false} DecayedScore(s: NodeState, after: NodeState, t: Tuning)
    requires Sound(t) && after.reputation == Scored(s, false, t).reputation
    ensures Decayed(s, after, t)
  {
    assert s.reputation * t.gamma == t.gamma * s.reputation;
  }

  /** What one epoch makes of every score: a reward for each participant, decay for everybody else. */
  lemma {:induction false} EpochScores(c: seq<NodeState>, participants: set<string>, t: Tuning, i: nat)
    requires Sound(t) && i < |c|
    ensures c[i].id in participants ==> Rewarded(c[i], EpochUpdate(c, participants, t)[i], t)
    ensures c[i].id !in participants ==> Decayed(c[i], EpochUpdate(c, participants, t)[i], t)
  {
    var d := EpochUpdate(c, participants, t);
    assert d[i].reputation == Scored(c[i], c[i].id in participants, t).reputation;
    if c[i].id in participants {
      RewardedScore(c[i], d[i], t);
    } else {
      DecayedScore(c[i], d[i], t);
    }
  }

  /** With a reward of alpha >= 0, a participant's gain times its denominator is exactly alpha. */
  lemma {:induction false} ParticipantGains(c: seq<NodeState>, participants: set<string>, t: Tuning, i: nat)
    requires Sound(t) && t.alpha >= 0.0 && i < |c| && c[i].reputation >= 0.0 && c[i].id in participants
    ensures var gain := EpochUpdate(c, participants, t)[i].reputation - c[i].reputation;
            gain * (t.ln(Excess(c[i])) + t.beta) == t.alpha && gain >= 0.0 && (t.alpha > 0.0 ==> gain > 0.0)
  {
    EpochScores(c, participants, t, i);
    assert c[i].reputation * (t.ln(Excess(c[i])) + t.beta) >= 0.0;
  }

  /** A node that took no part ends at exactly gamma times its score. */
  lemma {:induction false} AbsenceDecays(c: seq<NodeState>, participants: set<string>, t: Tuning, i: nat)
    requires Sound(t) && t.gamma >= 0.0 && i < |c| && c[i].reputation >= 0.0 && c[i].id !in participants
    ensures EpochUpdate(c, participants, t)[i].reputation == t.gamma * c[i].reputation
  {
    EpochScores(c, participants, t, i);
    assert t.gamma * c[i].reputation >= 0.0;
  }

  ghost predicate Monotone(ln: real -> real) {
    forall x, y :: 0.0 <= x <= y ==> ln(x) <= ln(y)
  }

  lemma {:induction false} LargerDivisor(g: real, h: real, d: real, e: real)
    requires 0.0 < d <= e && g * d == h * e && h >= 0.0
    ensures g >= h
  {
    assert h * (e - d) >= 0.0;
    assert (g - h) * d >= 0.0;
  }

  /** The further a participant is above its base score, the less it gains. */
  lemma {:induction false} GainsDiminish(c: seq<NodeState>, participants: set<string>, t: Tuning, i: nat, j: nat)
    requires Sound(t) && Monotone(t.ln) && t.alpha >= 0.0 && i < |c| && j < |c|
    requires c[i].id in participants && c[j].id in participants
    requires c[i].reputation >= 0.0 && c[j].reputation >= 0.0 && Excess(c[i]) <= Excess(c[j])
    ensures var d := EpochUpdate(c, participants, t);
            d[i].reputation - c[i].reputation >= d[j].reputation - c[j].reputation
  {
    var d := EpochUpdate(c, participants, t);
    var x, y := t.ln(Excess(c[i])) + t.beta, t.ln(Excess(c[j])) + t.beta;
    ParticipantGains(c, participants, t, i);
    ParticipantGains(c, participants, t, j);
    LargerDivisor(d[i].reputation - c[i].reputation, d[j].reputation - c[j].reputation, x, y);
  }
}
