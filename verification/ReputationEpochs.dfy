/**
 Reputation over any number of epochs (protocol/pbft.go:472-497, node/node.go:419-530): who knows
 what, how large scores get, and when weighted quorums must overlap.
 */
module ReputationEpochs {
  import opened Prelude
  import opened Weights
  import opened NodeModel
  import opened Epochs
  import opened QuorumSets
  import Messages

  /** Every node's map agrees with the true scores of its peers. */
  ghost predicate PeersKnown(c: seq<NodeState>) {
    forall i, j :: 0 <= i < |c| && 0 <= j < |c| && i != j ==>
      c[j].id in c[i].knownReputations && c[i].knownReputations[c[j].id] == c[j].reputation
  }

  /** What a node counts its own message for. */
  function SelfWeight(s: NodeState): real {
    RepOf(s.knownReputations, s.id)
  }

  ghost predicate ScoresNonNegative(c: seq<NodeState>) {
    forall i :: 0 <= i < |c| ==> c[i].reputation >= 0.0
  }

  // ---- One epoch -------------------------------------------------------------------------

  lemma {:induction false} ScoreMapHolds(c: seq<NodeState>)
    requires DistinctIds(c)
    ensures forall j :: 0 <= j < |c| ==> c[j].id in ScoreMap(c) && ScoreMap(c)[c[j].id] == c[j].reputation
    ensures forall id :: id in ScoreMap(c) ==> id in Ids(c)
  {
    if c != [] {
      var n := |c| - 1;
      ScoreMapHolds(c[..n]);
      assert forall id :: id in Ids(c[..n]) ==> id in Ids(c);
    }
  }

  lemma {:induction false} SyncMakesPeersKnown(c: seq<NodeState>)
    requires DistinctIds(c)
    ensures PeersKnown(SyncedAll(c, ScoreMap(c)))
    ensures forall i :: 0 <= i < |c| ==> SelfWeight(SyncedAll(c, ScoreMap(c))[i]) == SelfWeight(c[i])
  {
    ScoreMapHolds(c);
    var scores := ScoreMap(c);
    var d := SyncedAll(c, scores);
    forall i, j | 0 <= i < |c| && 0 <= j < |c| && i != j
      ensures d[j].id in d[i].knownReputations && d[i].knownReputations[d[j].id] == d[j].reputation
    {
      assert c[j].id in scores - {c[i].id};
    }
  }

  /** After any epoch every map agrees with the peers' scores, and nobody's own entry has moved. */
  lemma {:induction false} EpochSynchronises(c: seq<NodeState>, participants: set<string>, t: Tuning)
    requires DistinctIds(c) && Sound(t)
    ensures var d := EpochUpdate(c, participants, t);
            && PeersKnown(d) && DistinctIds(d) && ScoresNonNegative(d)
            && forall i :: 0 <= i < |c| ==>
                 && d[i].id == c[i].id && d[i].baseReputation == c[i].baseReputation
                 && SelfWeight(d[i]) == SelfWeight(c[i])
                 && d[i].reputation == Scored(c[i], c[i].id in participants, t).reputation
  {
    var scored := ScoredAll(c, participants, t);
    assert forall i :: 0 <= i < |c| ==> scored[i].id == c[i].id;
    SyncMakesPeersKnown(scored);
  }

  // ---- Any number of epochs --------------------------------------------------------------

  function AfterEpochs(c: seq<NodeState>, history: seq<set<string>>, t: Tuning): (r: seq<NodeState>)
    requires Sound(t)
    ensures |r| == |c|
  {
    if history == [] then c
    else EpochUpdate(AfterEpochs(c, history[..|history| - 1], t), history[|history| - 1], t)
  }

  ghost predicate Founded(c: seq<NodeState>) {
    && DistinctIds(c) && PeersKnown(c)
    && forall i :: 0 <= i < |c| ==> c[i].reputation == c[i].baseReputation >= 0.0
  }

  lemma {:induction false} RewardBound(r: real, base: real, honest: bool, t: Tuning)
    requires Sound(t) && t.alpha >= 0.0 && 0.0 <= t.gamma <= 1.0 && r >= 0.0
    ensures 0.0 <= Updated(r, base, honest, t.alpha, t.beta, t.gamma, t.ln) <= r + t.alpha / t.beta
  {
    var excess := Max(r - base, 0.0);
    var denominator := t.ln(excess) + t.beta;
    assert denominator >= t.beta;
    QuotientShrinks(t.alpha, t.beta, denominator);
    assert r * t.gamma <= r by { ShrinkProduct(r, t.gamma); }
  }

  lemma {:induction false} ShrinkProduct(r: real, g: real)
    requires r >= 0.0 && 0.0 <= g <= 1.0
    ensures 0.0 <= r * g <= r
  {
    assert r * (1.0 - g) >= 0.0;
  }

  lemma {:induction false} QuotientShrinks(a: real, b: real, d: real)
    requires a >= 0.0 && 0.0 < b <= d
    ensures 0.0 <= a / d <= a / b
  {
    var q := a / d;
    assert q * d == a;
    assert q >= 0.0;
    assert q * (d - b) >= 0.0;
    assert q * b <= a;
    assert (a / b) * b == a;
    assert (a / b - q) * b >= 0.0;
  }

  lemma {:induction false} EpochsSynchronised(c: seq<NodeState>, history: seq<set<string>>, t: Tuning)
    requires Founded(c) && Sound(t)
    ensures var d := AfterEpochs(c, history, t);
            && PeersKnown(d) && DistinctIds(d) && ScoresNonNegative(d)
            && forall i :: 0 <= i < |c| ==>
                 && d[i].id == c[i].id && d[i].baseReputation == c[i].baseReputation
                 && SelfWeight(d[i]) == SelfWeight(c[i])
  {
    if history != [] {
      var before := history[..|history| - 1];
      EpochsSynchronised(c, before, t);
      EpochSynchronises(AfterEpochs(c, before, t), history[|history| - 1], t);
    }
  }

  lemma {:induction false} OneEpochBound(c: seq<NodeState>, participants: set<string>, t: Tuning, i: nat)
    requires DistinctIds(c) && ScoresNonNegative(c) && i < |c|
    requires Sound(t) && t.alpha >= 0.0 && 0.0 <= t.gamma <= 1.0
    ensures 0.0 <= EpochUpdate(c, participants, t)[i].reputation <= c[i].reputation + t.alpha / t.beta
  {
    EpochSynchronises(c, participants, t);
    RewardBound(c[i].reputation, c[i].baseReputation, c[i].id in participants, t);
  }

  /** The most a score that starts at `base` can reach in `n` epochs that add at most `share` each. */
  function Cap(base: real, n: nat, share: real): real {
    if n == 0 then base else Cap(base, n - 1, share) + share
  }

  function Times(n: nat, share: real): real {
    n as real * share
  }

  lemma {:induction false} CapIsLinear(base: real, n: nat, share: real)
    ensures Cap(base, n, share) == base + Times(n, share)
  {
    if n > 0 {
      CapIsLinear(base, n - 1, share);
      assert n as real == (n - 1) as real + 1.0;
    }
  }

  lemma {:induction false} ScoreWithinCap(c: seq<NodeState>, history: seq<set<string>>, t: Tuning, i: nat)
    requires Founded(c) && Sound(t) && t.alpha >= 0.0 && 0.0 <= t.gamma <= 1.0 && i < |c|
    ensures 0.0 <= AfterEpochs(c, history, t)[i].reputation <= Cap(c[i].baseReputation, |history|, t.alpha / t.beta)
  {
    if history != [] {
      var before := history[..|history| - 1];
      ScoreWithinCap(c, before, t, i);
      EpochsSynchronised(c, before, t);
      OneEpochBound(AfterEpochs(c, before, t), history[|history| - 1], t, i);
    }
  }

  /** After T epochs no score is negative or exceeds R_init + T * (alpha / beta). */
  lemma {:induction false} ScoreBound(c: seq<NodeState>, history: seq<set<string>>, t: Tuning, i: nat)
    requires Founded(c) && Sound(t) && t.alpha >= 0.0 && 0.0 <= t.gamma <= 1.0 && i < |c|
    ensures 0.0 <= AfterEpochs(c, history, t)[i].reputation <= c[i].baseReputation + Times(|history|, t.alpha / t.beta)
  {
    ScoreWithinCap(c, history, t, i);
    CapIsLinear(c[i].baseReputation, |history|, t.alpha / t.beta);
  }

  // ---- True weight -----------------------------------------------------------------------

  /** The combined score of the cluster members in `senders`. */
  function TrueWeight(c: seq<NodeState>, senders: set<string>): real {
    if c == [] then 0.0
    else
      var last := c[|c| - 1];
      TrueWeight(c[..|c| - 1], senders) + (if last.id in senders then last.reputation else 0.0)
  }

  lemma {:induction false} TrueWeightInclusionExclusion(c: seq<NodeState>, a: set<string>, b: set<string>)
    ensures TrueWeight(c, a) + TrueWeight(c, b) == TrueWeight(c, a + b) + TrueWeight(c, a * b)
  {
    if c != [] {
      TrueWeightInclusionExclusion(c[..|c| - 1], a, b);
    }
  }

  lemma {:induction false} TrueWeightBounds(c: seq<NodeState>, senders: set<string>)
    requires ScoresNonNegative(c)
    ensures 0.0 <= TrueWeight(c, senders) <= TotalScore(c)
  {
    if c != [] {
      TrueWeightBounds(c[..|c| - 1], senders);
    }
  }

  /** The weight of `senders` by a map, summed along the cluster. */
  function MapWeight(known: map<string, real>, c: seq<NodeState>, senders: set<string>): real {
    if c == [] then 0.0
    else
      var last := c[|c| - 1];
      MapWeight(known, c[..|c| - 1], senders) + (if last.id in senders then RepOf(known, last.id) else 0.0)
  }

  lemma {:induction false} MapWeightIgnoresStrangers(
      known: map<string, real>, c: seq<NodeState>, senders: set<string>, id: string)
    requires id !in Ids(c)
    ensures MapWeight(known, c, senders) == MapWeight(known, c, senders - {id})
  {
    if c != [] {
      var n := |c| - 1;
      assert c[n] in c;
      assert forall s :: s in c[..n] ==> s in c;
      MapWeightIgnoresStrangers(known, c[..n], senders, id);
    }
  }

  /** The sum over a set of members is the sum along the cluster. */
  lemma {:induction false} WeightAlongCluster(known: map<string, real>, c: seq<NodeState>, senders: set<string>)
    requires DistinctIds(c) && senders <= Ids(c)
    ensures Weight(known, senders) == MapWeight(known, c, senders)
  {
    if c == [] {
      assert senders == {};
    } else {
      var n := |c| - 1;
      var id := c[n].id;
      assert c == c[..n] + [c[n]];
      assert Ids(c) == Ids(c[..n]) + {id};
      NotEarlier(c);
      if id in senders {
        WeightRemove(known, senders, id);
        MapWeightIgnoresStrangers(known, c[..n], senders, id);
        WeightAlongCluster(known, c[..n], senders - {id});
      } else {
        WeightAlongCluster(known, c[..n], senders);
      }
    }
  }

  lemma {:induction false} NotEarlier(c: seq<NodeState>)
    requires DistinctIds(c) && c != []
    ensures c[|c| - 1].id !in Ids(c[..|c| - 1])
  {
    assert forall s :: s in c[..|c| - 1] ==> s.id != c[|c| - 1].id;
  }

  /** Node k's map is off by exactly the difference between its frozen self-weight and its score. */
  lemma {:induction false} MapWeightOff(c: seq<NodeState>, k: nat, m: nat, senders: set<string>)
    requires DistinctIds(c) && PeersKnown(c) && k < |c| && m <= |c|
    ensures MapWeight(c[k].knownReputations, c[..m], senders) ==
            TrueWeight(c[..m], senders)
              + (if k < m && c[k].id in senders then SelfWeight(c[k]) - c[k].reputation else 0.0)
  {
    if m > 0 {
      MapWeightOff(c, k, m - 1, senders);
      assert c[..m][..m - 1] == c[..m - 1];
    }
  }

  lemma {:induction false} WeightIsTrueUpToSelf(c: seq<NodeState>, k: nat, senders: set<string>)
    requires DistinctIds(c) && PeersKnown(c) && k < |c| && senders <= Ids(c)
    ensures Weight(c[k].knownReputations, senders) ==
            TrueWeight(c, senders) + (if c[k].id in senders then SelfWeight(c[k]) - c[k].reputation else 0.0)
  {
    WeightAlongCluster(c[k].knownReputations, c, senders);
    MapWeightOff(c, k, |c|, senders);
    assert c[..|c|] == c;
  }

  // ---- Quorum intersection ---------------------------------------------------------------

  /** A node's map never overstates any set of members exactly when its own score is not below its self-weight. */
  lemma {:induction false} NeverOvercountsIff(c: seq<NodeState>, k: nat)
    requires DistinctIds(c) && PeersKnown(c) && k < |c|
    ensures (forall senders :: senders <= Ids(c) ==> Weight(c[k].knownReputations, senders) <= TrueWeight(c, senders))
            <==> SelfWeight(c[k]) <= c[k].reputation
  {
    if SelfWeight(c[k]) <= c[k].reputation {
      forall senders | senders <= Ids(c)
        ensures Weight(c[k].knownReputations, senders) <= TrueWeight(c, senders)
      {
        WeightIsTrueUpToSelf(c, k, senders);
      }
    } else {
      assert c[k] in c;
      WeightIsTrueUpToSelf(c, k, {c[k].id});
      assert {c[k].id} <= Ids(c);
      assert Weight(c[k].knownReputations, {c[k].id}) > TrueWeight(c, {c[k].id});
    }
  }

  /** By how much a node's map can overstate a set: its frozen self-weight, where that exceeds its score. */
  function Overcount(s: NodeState): real {
    Max(SelfWeight(s) - s.reputation, 0.0)
  }

  /** How far two thresholds overshoot four thirds of the total; the rounding keeps it in (0, 2]. */
  function Slack(total: real): (r: real)
    ensures 0.0 < r <= 2.0
  {
    2.0 * Threshold(total) - 4.0 * total / 3.0
  }

  /** Two overcounts that stay within the slack together, or one too small for its node ever to see a quorum. */
  predicate Tolerable(x: real, y: real, total: real) {
    x + y < Slack(total) || total + x < Threshold(total) || total + y < Threshold(total)
  }

  ghost predicate Synchronised(c: seq<NodeState>) {
    DistinctIds(c) && PeersKnown(c) && ScoresNonNegative(c)
  }

  /** What nodes i and k take for quorums overlaps in more than a third of the true weight. */
  ghost predicate Overlapping(c: seq<NodeState>, i: nat, k: nat)
    requires i < |c| && k < |c|
  {
    forall a, b :: a <= Ids(c) && b <= Ids(c)
                   && HasReputationQuorum(Weight(c[i].knownReputations, a), TotalScore(c))
                   && HasReputationQuorum(Weight(c[k].knownReputations, b), TotalScore(c))
                   ==> TrueWeight(c, a * b) > TotalScore(c) / 3.0
  }

  /** Any two weighted quorums by the maps of two nodes with tolerable overcounts overlap. */
  lemma {:induction false} WeightedQuorumsIntersect(c: seq<NodeState>, i: nat, k: nat, a: set<string>, b: set<string>)
    requires Synchronised(c) && i < |c| && k < |c| && a <= Ids(c) && b <= Ids(c)
    requires Tolerable(Overcount(c[i]), Overcount(c[k]), TotalScore(c))
    requires HasReputationQuorum(Weight(c[i].knownReputations, a), TotalScore(c))
    requires HasReputationQuorum(Weight(c[k].knownReputations, b), TotalScore(c))
    ensures TrueWeight(c, a * b) > TotalScore(c) / 3.0
  {
    WeightIsTrueUpToSelf(c, i, a);
    WeightIsTrueUpToSelf(c, k, b);
    TrueWeightInclusionExclusion(c, a, b);
    TrueWeightBounds(c, a + b);
    TrueWeightBounds(c, a);
    TrueWeightBounds(c, b);
  }

  /** The same at every epoch reached from equal base scores and maps. */
  lemma {:induction false} EpochQuorumsIntersect(
      c: seq<NodeState>, history: seq<set<string>>, t: Tuning, i: nat, k: nat, a: set<string>, b: set<string>)
    requires Founded(c) && Sound(t) && i < |c| && k < |c|
    requires var d := AfterEpochs(c, history, t);
             && Tolerable(Overcount(d[i]), Overcount(d[k]), TotalScore(d))
             && a <= Ids(d) && b <= Ids(d)
             && HasReputationQuorum(Weight(d[i].knownReputations, a), TotalScore(d))
             && HasReputationQuorum(Weight(d[k].knownReputations, b), TotalScore(d))
    ensures TrueWeight(AfterEpochs(c, history, t), a * b) > TotalScore(AfterEpochs(c, history, t)) / 3.0
  {
    EpochsSynchronised(c, history, t);
    WeightedQuorumsIntersect(AfterEpochs(c, history, t), i, k, a, b);
  }

  /** In particular, quorums by the maps of nodes whose scores are not below their self-weights overlap. */
  lemma {:induction false} UndecayedQuorumsIntersect(c: seq<NodeState>, i: nat, k: nat)
    requires Synchronised(c) && i < |c| && k < |c|
    requires SelfWeight(c[i]) <= c[i].reputation && SelfWeight(c[k]) <= c[k].reputation
    ensures Overlapping(c, i, k)
  {
    assert Overcount(c[i]) == Overcount(c[k]) == 0.0;
    forall a, b | a <= Ids(c) && b <= Ids(c)
                  && HasReputationQuorum(Weight(c[i].knownReputations, a), TotalScore(c))
                  && HasReputationQuorum(Weight(c[k].knownReputations, b), TotalScore(c))
      ensures TrueWeight(c, a * b) > TotalScore(c) / 3.0
    {
      WeightedQuorumsIntersect(c, i, k, a, b);
    }
  }

  // ---- How much overcounting the overlap bears -------------------------------------------

  /** Whatever the cluster: as long as two nodes overcount by at most x and y, their quorums overlap. */
  ghost predicate AlwaysOverlapping(x: real, y: real, total: real) {
    forall c: seq<NodeState>, i: nat, k: nat ::
      Synchronised(c) && TotalScore(c) == total && i < |c| && k < |c| && Overcount(c[i]) <= x && Overcount(c[k]) <= y
      ==> Overlapping(c, i, k)
  }

  lemma {:induction false} TotalOfThree(c: seq<NodeState>)
    requires |c| == 3
    ensures TotalScore(c) == c[0].reputation + c[1].reputation + c[2].reputation
  {
    assert c[..2][..1] == c[..1];
    assert c[..1][..0] == [];
    assert TotalScore(c[..1]) == c[0].reputation;
    assert TotalScore(c[..2]) == c[0].reputation + c[1].reputation;
  }

  lemma {:induction false} TrueWeightOfThree(c: seq<NodeState>, senders: set<string>)
    requires |c| == 3
    ensures TrueWeight(c, senders) == (if c[0].id in senders then c[0].reputation else 0.0)
                                      + (if c[1].id in senders then c[1].reputation else 0.0)
                                      + (if c[2].id in senders then c[2].reputation else 0.0)
  {
    assert c[..2][..1] == c[..1];
    assert c[..1][..0] == [];
    assert TrueWeight(c[..1], senders) == if c[0].id in senders then c[0].reputation else 0.0;
    assert TrueWeight(c[..2], senders) ==
           TrueWeight(c[..1], senders) + (if c[1].id in senders then c[1].reputation else 0.0);
  }

  function Scorer(id: string, score: real, known: map<string, real>): NodeState {
    NodeState(id, Replica, Messages.Key(0), map[], 0, 0, map[], map[], [], {}, score, score, known)
  }

  /** Three nodes of the given scores, of which the first two overcount by x and y. */
  function Trio(p: real, q: real, r: real, x: real, y: real): seq<NodeState> {
    [Scorer("p", p, map["p" := p + x, "q" := q, "r" := r]),
     Scorer("q", q, map["p" := p, "q" := q + y, "r" := r]),
     Scorer("r", r, map["p" := p, "q" := q, "r" := r])]
  }

  lemma {:induction false} TrioSynchronised(p: real, q: real, r: real, x: real, y: real)
    requires p >= 0.0 && q >= 0.0 && r >= 0.0 && x >= 0.0 && y >= 0.0
    ensures var c := Trio(p, q, r, x, y);
            && Synchronised(c) && TotalScore(c) == p + q + r && Overcount(c[0]) == x && Overcount(c[1]) == y
            && {"p", "r"} <= Ids(c) && {"q", "r"} <= Ids(c)
  {
    var c := Trio(p, q, r, x, y);
    assert c[0].id == "p" && c[1].id == "q" && c[2].id == "r";
    TotalOfThree(c);
    assert c[0] in c && c[1] in c && c[2] in c;
  }

  /** A node and the common third: two candidates for quorums, one by each map. */
  lemma {:induction false} TrioWeights(p: real, q: real, r: real, x: real, y: real)
    requires p >= 0.0 && q >= 0.0 && r >= 0.0 && x >= 0.0 && y >= 0.0
    ensures var c := Trio(p, q, r, x, y);
            && Weight(c[0].knownReputations, {"p", "r"}) == p + r + x
            && Weight(c[1].knownReputations, {"q", "r"}) == q + r + y
            && TrueWeight(c, {"p", "r"} * {"q", "r"}) == r
  {
    var c := Trio(p, q, r, x, y);
    TrioSynchronised(p, q, r, x, y);
    WeightIsTrueUpToSelf(c, 0, {"p", "r"});
    WeightIsTrueUpToSelf(c, 1, {"q", "r"});
    TrueWeightOfThree(c, {"p", "r"});
    TrueWeightOfThree(c, {"q", "r"});
    TrueWeightOfThree(c, {"p", "r"} * {"q", "r"});
  }

  lemma {:induction false} Shares(x: real, y: real, total: real, t: real, p: real)
    requires x >= 0.0 && y >= 0.0 && total >= 0.0
    requires x + y >= 2.0 * t - 4.0 * total / 3.0 && total + x >= t && total + y >= t
    requires p == Max(t - total / 3.0 - x, 0.0)
    ensures 0.0 <= p <= total - total / 3.0
    ensures p + total / 3.0 + x >= t && total - p + y >= t
  {}

  /** A node and the common third reach the threshold by either map. */
  lemma {:induction false} TrioSplitsAt(p: real, q: real, r: real, x: real, y: real)
    requires p >= 0.0 && q >= 0.0 && r >= 0.0 && x >= 0.0 && y >= 0.0 && r <= (p + q + r) / 3.0
    requires p + r + x >= Threshold(p + q + r) && q + r + y >= Threshold(p + q + r)
    ensures !Overlapping(Trio(p, q, r, x, y), 0, 1)
  {
    var c := Trio(p, q, r, x, y);
    TrioSynchronised(p, q, r, x, y);
    TrioWeights(p, q, r, x, y);
    var a, b := {"p", "r"}, {"q", "r"};
    assert TrueWeight(c, a * b) == r;
    assert a <= Ids(c) && b <= Ids(c);
  }

  /** Overcounts that are not tolerable let the quorums of some cluster overlap in a third only. */
  lemma {:induction false} TrioSplits(x: real, y: real, total: real) returns (c: seq<NodeState>)
    requires x >= 0.0 && y >= 0.0 && total >= 0.0 && !Tolerable(x, y, total)
    ensures |c| == 3 && Synchronised(c) && TotalScore(c) == total && Overcount(c[0]) == x && Overcount(c[1]) == y
    ensures !Overlapping(c, 0, 1)
  {
    var r, p := total / 3.0, Max(Threshold(total) - total / 3.0 - x, 0.0);
    var q := total - r - p;
    Shares(x, y, total, Threshold(total), p);
    assert p + q + r == total;
    TrioSynchronised(p, q, r, x, y);
    TrioSplitsAt(p, q, r, x, y);
    c := Trio(p, q, r, x, y);
  }

  /**
   The exact condition. Nodes that overcount by at most x and y can rely on their weighted quorums
   overlapping, in every cluster of that total, if and only if x and y are tolerable: they stay below
   the slack together, or one of them is too small for its node to see a quorum at all.
   */
  lemma {:induction false} OverlapIff(x: real, y: real, total: real)
    requires x >= 0.0 && y >= 0.0 && total >= 0.0
    ensures AlwaysOverlapping(x, y, total) <==> Tolerable(x, y, total)
  {
    if Tolerable(x, y, total) {
      forall c: seq<NodeState>, i: nat, k: nat | Synchronised(c) && TotalScore(c) == total && i < |c| && k < |c|
                                 && Overcount(c[i]) <= x && Overcount(c[k]) <= y
        ensures Overlapping(c, i, k)
      {
        forall a, b | a <= Ids(c) && b <= Ids(c)
                      && HasReputationQuorum(Weight(c[i].knownReputations, a), total)
                      && HasReputationQuorum(Weight(c[k].knownReputations, b), total)
          ensures TrueWeight(c, a * b) > total / 3.0
        {
          WeightedQuorumsIntersect(c, i, k, a, b);
        }
      }
    } else {
      var c := TrioSplits(x, y, total);
    }
  }
}
