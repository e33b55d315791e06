/** Fault thresholds and count quorums (node/node.go:193-226). */
module Quorum {
  import opened Prelude

  function FaultyThreshold(n: int): (f: int)
    ensures f >= 0
    ensures n >= 1 ==> 3 * f + 1 <= n < 3 * (f + 1) + 1
    ensures n <= 0 ==> f == 0
  {
    if n <= 0 then 0 else (n - 1) / 3
  }

  predicate HasQuorumLocal(count: int, fLocal: int) {
    count >= 2 * fLocal + 1
  }

  predicate HasQuorumGlobal(count: int, fGlobal: int) {
    count >= fGlobal + 1
  }

  /** Two local quorums drawn from at most 3f+1 nodes share at least f+1 of them. */
  lemma {:induction false} QuorumsIntersect<T>(all: set<T>, a: set<T>, b: set<T>, f: nat)
    requires a <= all && b <= all && |all| <= 3 * f + 1
    requires HasQuorumLocal(|a|, f) && HasQuorumLocal(|b|, f)
    ensures |a * b| >= f + 1
  {
    assert |a + b| == |a| + |b| - |a * b|;
    SubsetSize(a + b, all);
  }

  /** A local quorum contains at least f+1 members outside any f faulty ones. */
  lemma {:induction false} QuorumHasCorrectMajority<T>(a: set<T>, faulty: set<T>, f: int)
    requires HasQuorumLocal(|a|, f) && |faulty| <= f
    ensures |a - faulty| >= f + 1
  {
    assert |a| == |a - faulty| + |a * faulty|;
    SubsetSize(a * faulty, faulty);
  }

  /** A global reply quorum always contains a replier outside any f_global faulty nodes. */
  lemma {:induction false} GlobalQuorumHasCorrectMember<T>(a: set<T>, faulty: set<T>, f: int)
    requires HasQuorumGlobal(|a|, f) && |faulty| <= f
    ensures exists x :: x in a && x !in faulty
  {
    if forall x :: x in a ==> x in faulty {
      SubsetSize(a, faulty);
    }
  }
}
