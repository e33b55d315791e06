/**
 K-Means++ seeding (cluster/kmeans.go:117-175). Random draws are an oracle: `first` is the index of
 the first centroid, and `draws(k, t)` is the draw for the k-th, scaled to [0, t).
 */
module Seeding {
  import opened Prelude
  import opened Geometry

  /** Squared distance from `p` to the nearest of the centroids chosen so far. */
  function Gap(p: Point, chosen: seq<Point>): (d: real)
    requires chosen != []
    ensures d >= 0.0
  {
    var last := Dist(p, chosen[|chosen| - 1]);
    if |chosen| == 1 then last
    else
      var before := Gap(p, chosen[..|chosen| - 1]);
      if last < before then last else before
  }

  /** Cumulative weight of the first i nodes. */
  function Cumulative(nodes: seq<Point>, chosen: seq<Point>, i: nat): (w: real)
    requires chosen != [] && i <= |nodes|
    ensures w >= 0.0
  {
    if i == 0 then 0.0 else Cumulative(nodes, chosen, i - 1) + Gap(nodes[i - 1], chosen)
  }

  function Total(nodes: seq<Point>, chosen: seq<Point>): real
    requires chosen != []
  {
    Cumulative(nodes, chosen, |nodes|)
  }

  ghost predicate Used(id: string, chosen: seq<Point>) {
    exists c :: c in chosen && c.id == id
  }

  /** An oracle of draws: a point of [0, t) for every positive t. */
  ghost predicate Fair(draws: (nat, real) -> real) {
    forall k, t :: t > 0.0 ==> 0.0 <= draws(k, t) < t
  }

  /** The cumulative weight up to and including node k stays below the target. */
  predicate FallsShort(nodes: seq<Point>, chosen: seq<Point>, target: real, k: nat)
    requires chosen != [] && k < |nodes|
  {
    Cumulative(nodes, chosen, k + 1) < target
  }

  /** Node i is the first whose cumulative weight reaches the draw. */
  ghost predicate FirstReaching(nodes: seq<Point>, chosen: seq<Point>, target: real, i: nat)
    requires chosen != []
  {
    && i < |nodes| && !FallsShort(nodes, chosen, target, i)
    && forall k :: 0 <= k < i ==> FallsShort(nodes, chosen, target, k)
  }

  /** Node i is the first whose ID is not taken; the last node when all are. */
  ghost predicate FirstUnused(nodes: seq<Point>, chosen: seq<Point>, i: nat) {
    && i < |nodes|
    && (forall k :: 0 <= k < i ==> Used(nodes[k].id, chosen))
    && (Used(nodes[i].id, chosen) ==> i == |nodes| - 1)
  }

  /** The choice of the next centroid when the target drawn is `target`. */
  ghost predicate Picks(nodes: seq<Point>, chosen: seq<Point>, target: real, i: nat)
    requires chosen != []
  {
    if Total(nodes, chosen) > 0.0 then FirstReaching(nodes, chosen, target, i)
    else FirstUnused(nodes, chosen, i)
  }

  function At(nodes: seq<Point>, picks: seq<nat>): (r: seq<Point>)
    requires forall k :: 0 <= k < |picks| ==> picks[k] < |nodes|
    ensures |r| == |picks| && forall k :: 0 <= k < |picks| ==> r[k] == nodes[picks[k]]
  {
    seq(|picks|, k requires 0 <= k < |picks| => nodes[picks[k]])
  }

  /** The target of the k-th choice. */
  ghost function TargetAt(nodes: seq<Point>, draws: (nat, real) -> real, picks: seq<nat>, k: nat): real
    requires 1 <= k < |picks| && forall j :: 0 <= j < |picks| ==> picks[j] < |nodes|
  {
    draws(k, Total(nodes, At(nodes, picks[..k])))
  }

  ghost predicate PickedAt(nodes: seq<Point>, draws: (nat, real) -> real, picks: seq<nat>, k: nat)
    requires 1 <= k < |picks| && forall j :: 0 <= j < |picks| ==> picks[j] < |nodes|
  {
    Picks(nodes, At(nodes, picks[..k]), TargetAt(nodes, draws, picks, k), picks[k])
  }

  ghost predicate Seeded(nodes: seq<Point>, m: nat, first: nat, draws: (nat, real) -> real, picks: seq<nat>) {
    && |picks| == (if m <= |nodes| then m else |nodes|)
    && (forall k :: 0 <= k < |picks| ==> picks[k] < |nodes|)
    && (picks != [] ==> picks[0] == first)
    && forall k :: 1 <= k < |picks| ==> PickedAt(nodes, draws, picks, k)
  }

  /** The centroids are the nodes picked one after another in this way. */
  ghost predicate AreSeeds(centroids: seq<Point>, nodes: seq<Point>, m: nat, first: nat, draws: (nat, real) -> real) {
    exists picks :: Seeded(nodes, m, first, draws, picks) && centroids == At(nodes, picks)
  }

  // ---- The loops -------------------------------------------------------------------------

  /** Lines 132-139. */
  method NearestSeed(p: Point, chosen: seq<Point>) returns (d: real)
    requires chosen != []
    ensures d == Gap(p, chosen)
  {
    d := Dist(p, chosen[0]);
    for k := 1 to |chosen|
      invariant d == Gap(p, chosen[..k])
    {
      assert chosen[..k + 1][..k] == chosen[..k];
      var next := Dist(p, chosen[k]);
      if next < d {
        d := next;
      }
    }
    assert chosen[..|chosen|] == chosen;
  }

  /** Lines 129-142: the weight of every node, and their sum. */
  method Weigh(nodes: seq<Point>, chosen: seq<Point>) returns (dists: array<real>, total: real)
    requires chosen != []
    ensures fresh(dists) && dists.Length == |nodes|
    ensures forall i :: 0 <= i < |nodes| ==> dists[i] == Gap(nodes[i], chosen)
    ensures total == Total(nodes, chosen)
  {
    dists := new real[|nodes|];
    total := 0.0;
    for i := 0 to |nodes|
      invariant forall k :: 0 <= k < i ==> dists[k] == Gap(nodes[k], chosen)
      invariant total == Cumulative(nodes, chosen, i)
    {
      dists[i] := NearestSeed(nodes[i], chosen);
      total := total + dists[i];
    }
  }

  /** Lines 146-154. In exact arithmetic the search always stops inside the loop. */
  method Search(nodes: seq<Point>, chosen: seq<Point>, dists: array<real>, target: real) returns (i: nat)
    requires nodes != [] && chosen != [] && dists.Length == |nodes|
    requires forall k :: 0 <= k < |nodes| ==> dists[k] == Gap(nodes[k], chosen)
    requires target <= Total(nodes, chosen)
    ensures FirstReaching(nodes, chosen, target, i)
  {
    i := |nodes| - 1;
    var cumulative := 0.0;
    for k := 0 to |nodes|
      invariant cumulative == Cumulative(nodes, chosen, k)
      invariant forall j :: 0 <= j < k ==> FallsShort(nodes, chosen, target, j)
      invariant i == |nodes| - 1
    {
      cumulative := cumulative + dists[k];
      if cumulative >= target {
        return k;
      }
    }
  }

  /** Lines 157-167. */
  method PickUnused(nodes: seq<Point>, chosen: seq<Point>) returns (i: nat)
    requires nodes != []
    ensures FirstUnused(nodes, chosen, i)
  {
    var usedIds := set c | c in chosen :: c.id;
    i := |nodes| - 1;
    for k := 0 to |nodes|
      invariant i == |nodes| - 1
      invariant forall j :: 0 <= j < k ==> Used(nodes[j].id, chosen)
    {
      if nodes[k].id !in usedIds {
        return k;
      }
    }
  }

  method PickNext(nodes: seq<Point>, chosen: seq<Point>, draws: (nat, real) -> real) returns (i: nat)
    requires nodes != [] && chosen != [] && Fair(draws)
    ensures i < |nodes| && Picks(nodes, chosen, draws(|chosen|, Total(nodes, chosen)), i)
  {
    var dists, total := Weigh(nodes, chosen);
    if total > 0.0 {
      i := Search(nodes, chosen, dists, draws(|chosen|, total));
    } else {
      i := PickUnused(nodes, chosen);
    }
  }

  /** Empty when there is nothing to choose from or nothing asked for. */
  method KMeansPlusPlus(nodes: seq<Point>, m: nat, first: nat, draws: (nat, real) -> real)
    returns (centroids: seq<Point>)
    requires nodes != [] ==> first < |nodes|
    requires Fair(draws)
    ensures AreSeeds(centroids, nodes, m, first, draws)
  {
    ghost var picks: seq<nat> := [];
    if m == 0 || nodes == [] {
      assert [] == At(nodes, picks);
      return [];
    }
    var count := if m > |nodes| then |nodes| else m;
    centroids, picks := [nodes[first]], [first];
    for k := 1 to count
      invariant |picks| == k && (forall j :: 0 <= j < k ==> picks[j] < |nodes|) && picks[0] == first
      invariant centroids == At(nodes, picks)
      invariant forall j :: 1 <= j < k ==> PickedAt(nodes, draws, picks, j)
    {
      var i := PickNext(nodes, centroids, draws);
      centroids := centroids + [nodes[i]];
      ghost var more := picks + [i];
      assert more[..k] == picks;
      forall j | 1 <= j < k
        ensures PickedAt(nodes, draws, more, j)
      {
        assert more[..j] == picks[..j] && PickedAt(nodes, draws, picks, j);
      }
      picks := more;
    }
  }

  // ---- What the weights are --------------------------------------------------------------

  /** The gap is the squared distance to the nearest of the chosen points. */
  lemma {:induction false} GapIsNearest(p: Point, chosen: seq<Point>)
    requires chosen != []
    ensures forall c :: c in chosen ==> Gap(p, chosen) <= Dist(p, c)
    ensures exists c :: c in chosen && Gap(p, chosen) == Dist(p, c)
  {
    var n := |chosen| - 1;
    assert chosen == chosen[..n] + [chosen[n]];
    if n == 0 {
      assert chosen[0] in chosen;
    } else {
      GapIsNearest(p, chosen[..n]);
      var c :| c in chosen[..n] && Gap(p, chosen[..n]) == Dist(p, c);
      assert c in chosen && chosen[n] in chosen;
    }
  }

  lemma {:induction false} CumulativeGrows(nodes: seq<Point>, chosen: seq<Point>, i: nat, j: nat)
    requires chosen != [] && i <= j <= |nodes|
    ensures Cumulative(nodes, chosen, i) <= Cumulative(nodes, chosen, j)
  {
    if i < j {
      CumulativeGrows(nodes, chosen, i, j - 1);
    }
  }

  /**
   The draws that choose node i form an interval as long as the node's squared distance to its nearest
   seed: the chance of being chosen is proportional to it.
   */
  lemma {:induction false} PickedIffInInterval(nodes: seq<Point>, chosen: seq<Point>, target: real, i: nat)
    requires chosen != [] && i < |nodes| && target > 0.0
    ensures FirstReaching(nodes, chosen, target, i) <==>
            Cumulative(nodes, chosen, i) < target <= Cumulative(nodes, chosen, i) + Gap(nodes[i], chosen)
  {
    if Cumulative(nodes, chosen, i) < target {
      forall k | 0 <= k < i
        ensures FallsShort(nodes, chosen, target, k)
      {
        CumulativeGrows(nodes, chosen, k + 1, i);
      }
    } else if i > 0 {
      assert !FallsShort(nodes, chosen, target, i - 1);
    }
  }

  // ---- When the seeds are distinct -------------------------------------------------------

  ghost predicate UniqueIds(nodes: seq<Point>) {
    forall i, j :: 0 <= i < j < |nodes| ==> nodes[i].id != nodes[j].id
  }

  lemma {:induction false} ChosenHasNoGap(p: Point, chosen: seq<Point>)
    requires p in chosen
    ensures Gap(p, chosen) == 0.0
  {
    var n := |chosen| - 1;
    if p != chosen[n] {
      assert chosen == chosen[..n] + [chosen[n]];
      ChosenHasNoGap(p, chosen[..n]);
    }
  }

  /** A strictly positive target is first reached by a node with a positive gap. */
  lemma {:induction false} ReachedByGap(nodes: seq<Point>, chosen: seq<Point>, target: real, i: nat)
    requires chosen != [] && target > 0.0 && FirstReaching(nodes, chosen, target, i)
    ensures Gap(nodes[i], chosen) > 0.0
  {
    assert Cumulative(nodes, chosen, i + 1) == Cumulative(nodes, chosen, i) + Gap(nodes[i], chosen);
    if i > 0 {
      assert FallsShort(nodes, chosen, target, i - 1);
    }
  }

  lemma {:induction false} IdsOf(s: seq<Point>)
    requires UniqueIds(s)
    ensures |PointIds(s)| == |s|
  {
    if s != [] {
      var n := |s| - 1;
      IdsOf(s[..n]);
      assert s == s[..n] + [s[n]];
      assert PointIds(s) == PointIds(s[..n]) + {s[n].id};
    }
  }

  lemma {:induction false} IdsAtMost(s: seq<Point>)
    ensures |PointIds(s)| <= |s|
  {
    if s != [] {
      var n := |s| - 1;
      IdsAtMost(s[..n]);
      assert s == s[..n] + [s[n]];
      assert PointIds(s) == PointIds(s[..n]) + {s[n].id};
    }
  }

  /** While fewer centroids are chosen than there are nodes, some ID is unused. */
  lemma {:induction false} SomeIdUnused(nodes: seq<Point>, chosen: seq<Point>)
    requires UniqueIds(nodes) && |chosen| < |nodes|
    ensures exists i :: 0 <= i < |nodes| && !Used(nodes[i].id, chosen)
  {
    if forall i :: 0 <= i < |nodes| ==> Used(nodes[i].id, chosen) {
      var taken, all := PointIds(chosen), PointIds(nodes);
      IdsOf(nodes);
      IdsAtMost(chosen);
      SubsetSize(all, taken);
    }
  }

  /**
   A choice repeats an earlier centroid exactly when the target is 0, the distances are not all zero
   and the first node is taken: then the search stops at the first node.
   */
  lemma {:induction false} ChoiceIsNewIff(nodes: seq<Point>, chosen: seq<Point>, target: real, i: nat)
    requires UniqueIds(nodes) && chosen != [] && |chosen| < |nodes|
    requires Total(nodes, chosen) > 0.0 ==> 0.0 <= target
    requires Picks(nodes, chosen, target, i)
    ensures i < |nodes|
    ensures nodes[i] !in chosen <==> Total(nodes, chosen) == 0.0 || target > 0.0 || nodes[0] !in chosen
  {
    if Total(nodes, chosen) > 0.0 {
      if target > 0.0 {
        ReachedByGap(nodes, chosen, target, i);
        if nodes[i] in chosen {
          ChosenHasNoGap(nodes[i], chosen);
        }
      } else {
        assert !FallsShort(nodes, chosen, target, 0);
      }
    } else {
      SomeIdUnused(nodes, chosen);
      var k :| 0 <= k < |nodes| && !Used(nodes[k].id, chosen);
      assert i <= k;
    }
  }

  /** The k-th choice is not caught at the first node by a draw of 0. */
  ghost predicate Escapes(nodes: seq<Point>, draws: (nat, real) -> real, picks: seq<nat>, k: nat)
    requires 1 <= k < |picks| && forall j :: 0 <= j < |picks| ==> picks[j] < |nodes|
  {
    var chosen := At(nodes, picks[..k]);
    Total(nodes, chosen) == 0.0 || TargetAt(nodes, draws, picks, k) > 0.0 || nodes[0] !in chosen
  }

  lemma {:induction false} KthIsNewIff(
      nodes: seq<Point>, m: nat, first: nat, draws: (nat, real) -> real, picks: seq<nat>, k: nat)
    requires UniqueIds(nodes) && Seeded(nodes, m, first, draws, picks) && Fair(draws) && 1 <= k < |picks|
    ensures nodes[picks[k]] !in At(nodes, picks[..k]) <==> Escapes(nodes, draws, picks, k)
  {
    assert PickedAt(nodes, draws, picks, k);
    ChoiceIsNewIff(nodes, At(nodes, picks[..k]), TargetAt(nodes, draws, picks, k), picks[k]);
  }

  lemma {:induction false} ExtendDistinct(s: seq<Point>, p: Point)
    ensures NoRepeats(s + [p]) <==> NoRepeats(s) && p !in s
  {
    var t := s + [p];
    if NoRepeats(t) {
      assert forall i, j :: 0 <= i < j < |s| ==> s[i] == t[i] && s[j] == t[j];
      assert forall i :: 0 <= i < |s| ==> s[i] == t[i] && t[|s|] == p;
    }
  }

  lemma {:induction false} OneMorePick(nodes: seq<Point>, picks: seq<nat>, n: nat)
    requires 1 <= n <= |picks| && forall j :: 0 <= j < |picks| ==> picks[j] < |nodes|
    ensures NoRepeats(At(nodes, picks[..n])) <==>
            NoRepeats(At(nodes, picks[..n - 1])) && nodes[picks[n - 1]] !in At(nodes, picks[..n - 1])
  {
    ExtendDistinct(At(nodes, picks[..n - 1]), nodes[picks[n - 1]]);
    assert At(nodes, picks[..n]) == At(nodes, picks[..n - 1]) + [nodes[picks[n - 1]]];
  }

  lemma {:induction false} PrefixesDistinctIff(
      nodes: seq<Point>, m: nat, first: nat, draws: (nat, real) -> real, picks: seq<nat>, n: nat)
    requires UniqueIds(nodes) && Seeded(nodes, m, first, draws, picks) && Fair(draws) && n <= |picks|
    ensures NoRepeats(At(nodes, picks[..n])) <==> forall k :: 1 <= k < n ==> Escapes(nodes, draws, picks, k)
  {
    if n > 1 {
      PrefixesDistinctIff(nodes, m, first, draws, picks, n - 1);
      KthIsNewIff(nodes, m, first, draws, picks, n - 1);
      OneMorePick(nodes, picks, n);
    }
  }

  /**
   For nodes with distinct IDs: the seeds are pairwise distinct exactly when no later choice meets a
   draw of 0 while the distances are not all zero and the first node is already a seed.
   */
  lemma {:induction false} SeedsDistinctIff(
      nodes: seq<Point>, m: nat, first: nat, draws: (nat, real) -> real, picks: seq<nat>)
    requires UniqueIds(nodes) && Seeded(nodes, m, first, draws, picks) && Fair(draws)
    ensures NoRepeats(At(nodes, picks)) <==> forall k :: 1 <= k < |picks| ==> Escapes(nodes, draws, picks, k)
  {
    PrefixesDistinctIff(nodes, m, first, draws, picks, |picks|);
    assert picks[..|picks|] == picks;
  }

  /** Strictly positive draws always give min(m, number of nodes) distinct input nodes. */
  lemma {:induction false} PositiveDrawsGiveDistinctSeeds(
      centroids: seq<Point>, nodes: seq<Point>, m: nat, first: nat, draws: (nat, real) -> real)
    requires UniqueIds(nodes) && AreSeeds(centroids, nodes, m, first, draws)
    requires forall k, t :: t > 0.0 ==> 0.0 < draws(k, t) < t
    ensures NoRepeats(centroids) && |centroids| == if m <= |nodes| then m else |nodes|
    ensures forall p :: p in centroids ==> p in nodes
  {
    var picks :| Seeded(nodes, m, first, draws, picks) && centroids == At(nodes, picks);
    SeedsDistinctIff(nodes, m, first, draws, picks);
  }

  /** Two nodes apart, the first of them seeded first, then a draw of 0: it is seeded twice. */
  lemma {:induction false} ZeroDrawRepeatsASeed(a: Point, b: Point)
    requires a.id != b.id && Dist(b, a) > 0.0
    ensures UniqueIds([a, b]) && Seeded([a, b], 2, 0, (_, _) => 0.0, [0, 0])
    ensures At([a, b], [0, 0]) == [a, a]
  {
    var nodes, picks: seq<nat> := [a, b], [0, 0];
    var chosen := At(nodes, picks[..1]);
    assert chosen == [a];
    assert !FallsShort(nodes, chosen, 0.0, 0);
    assert PickedAt(nodes, (_, _) => 0.0, picks, 1);
  }
}
