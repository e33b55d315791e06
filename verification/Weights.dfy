/** Reputation arithmetic of one node (node/node.go:419-530). Floats are modelled as reals. */
module Weights {
  import opened Prelude

  /** Unknown peers weigh 1 (node/node.go:423-428). */
  function RepOf(known: map<string, real>, id: string): real {
    if id in known then known[id] else 1.0
  }

  /** Total weight of a set of senders by one node's reputation map. */
  ghost function Weight(known: map<string, real>, senders: set<string>): real {
    if senders == {} then 0.0
    else
      var id :| id in senders;
      RepOf(known, id) + Weight(known, senders - {id})
  }

  /** The sum does not depend on the order in which the senders are visited. */
  lemma {:induction false} WeightRemove(known: map<string, real>, senders: set<string>, id: string)
    requires id in senders
    ensures Weight(known, senders) == RepOf(known, id) + Weight(known, senders - {id})
    decreases senders
  {
    var first :| first in senders && Weight(known, senders) == RepOf(known, first) + Weight(known, senders - {first});
    if first != id {
      WeightRemove(known, senders - {first}, id);
      WeightRemove(known, senders - {id}, first);
      assert senders - {first} - {id} == senders - {id} - {first};
    }
  }

  lemma {:induction false} WeightAdd(known: map<string, real>, senders: set<string>, id: string)
    ensures Weight(known, senders + {id}) == Weight(known, senders) + (if id in senders then 0.0 else RepOf(known, id))
  {
    if id in senders {
      assert senders + {id} == senders;
    } else {
      WeightRemove(known, senders + {id}, id);
      assert senders + {id} - {id} == senders;
    }
  }

  ghost predicate NonNegative(known: map<string, real>) {
    forall id :: id in known ==> known[id] >= 0.0
  }

  lemma {:induction false} WeightMonotone(known: map<string, real>, a: set<string>, b: set<string>)
    requires NonNegative(known) && a <= b
    ensures Weight(known, a) <= Weight(known, b)
    decreases b - a
  {
    if a != b {
      assert b - a != {} by { assert b == a + (b - a); }
      var id :| id in b - a;
      WeightAdd(known, a, id);
      WeightMonotone(known, a + {id}, b);
    }
  }

  /** The threshold floor(2 * total / 3) + 1 (node/node.go:469-472). */
  function Threshold(total: real): (t: real)
    ensures t > 2.0 * total / 3.0 && t <= 2.0 * total / 3.0 + 1.0
  {
    (2.0 * total / 3.0).Floor as real + 1.0
  }

  predicate HasReputationQuorum(weight: real, total: real) {
    weight >= Threshold(total)
  }

  lemma {:induction false} AboveFloor(x: real, k: int)
    ensures k as real >= x.Floor as real + 1.0 <==> k as real > x
  {
    var whole := x.Floor;
    assert whole as real <= x < whole as real + 1.0;
    if k > whole {
      assert k >= whole + 1;
    }
  }

  /** The threshold is the least whole number above two thirds of the total. */
  lemma {:induction false} ThresholdIsLeast(total: real, k: int)
    ensures Threshold(total).Floor as real == Threshold(total)
    ensures k as real >= Threshold(total) <==> k as real > 2.0 * total / 3.0
  {
    AboveFloor(2.0 * total / 3.0, k);
    var whole := (2.0 * total / 3.0).Floor + 1;
    assert (whole as real).Floor == whole;
  }

  /** Among n votes of weight 1, k are a quorum exactly when they are more than two thirds of them. */
  lemma {:induction false} WholeQuorumIff(k: int, n: int)
    ensures HasReputationQuorum(k as real, n as real) <==> 3 * k > 2 * n
  {
    ThresholdIsLeast(n as real, k);
    assert 3.0 * k as real == (3 * k) as real && 2.0 * n as real == (2 * n) as real;
  }

  // ---- Epoch update of one score ---------------------------------------------------------

  /** `ln` stands for x => math.Log(1 + x); all that is used of it is its sign. */
  ghost predicate LogLike(ln: real -> real) {
    forall x :: x >= 0.0 ==> ln(x) >= 0.0
  }

  function Max(a: real, b: real): real {
    if a >= b then a else b
  }

  function Updated(r: real, base: real, honest: bool, alpha: real, beta: real, gamma: real, ln: real -> real): real
    requires ln(Max(r - base, 0.0)) + beta != 0.0
  {
    Max(if honest then r + alpha / (ln(Max(r - base, 0.0)) + beta) else r * gamma, 0.0)
  }
}
