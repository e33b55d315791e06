/** Small general-purpose definitions shared by the protocol and clustering models. */
module Prelude {

  datatype Option<+T> = None | Some(value: T)

  /** The values present in `os`, in order. */
  function Gather<T>(os: seq<Option<T>>): seq<T> {
    if os == [] then []
    else
      var n := |os| - 1;
      Gather(os[..n]) + (if os[n].Some? then [os[n].value] else [])
  }

  /** An element is gathered exactly when some slot holds it. */
  lemma {:induction false} GatherMembers<T>(os: seq<Option<T>>)
    ensures forall x :: x in Gather(os) <==> Some(x) in os
  {
    if os != [] {
      var n := |os| - 1;
      GatherMembers(os[..n]);
      assert os == os[..n] + [os[n]];
    }
  }

  lemma {:induction false} GatherAllPresent<T>(os: seq<Option<T>>)
    requires forall i :: 0 <= i < |os| ==> os[i].Some?
    ensures |Gather(os)| == |os|
    ensures forall i :: 0 <= i < |os| ==> Gather(os)[i] == os[i].value
  {
    if os != [] {
      GatherAllPresent(os[..|os| - 1]);
    }
  }

  /** Gathering one more slot; the step that a loop appending to a list performs. */
  lemma {:induction false} GatherStep<T>(os: seq<Option<T>>, i: nat)
    requires i < |os|
    ensures Gather(os[..i + 1]) == Gather(os[..i]) + (if os[i].Some? then [os[i].value] else [])
  {
    assert os[..i + 1][..i] == os[..i];
  }

  lemma {:induction false} SubsetSize<T>(a: set<T>, b: set<T>)
    requires a <= b
    ensures |a| <= |b|
  {
    assert b == a + (b - a);
  }

  // ---- Sequences without repetition ------------------------------------------------------

  ghost predicate NoRepeats<T>(s: seq<T>) {
    forall i, j :: 0 <= i < j < |s| ==> s[i] != s[j]
  }

  lemma {:induction false} NoRepeatsConcat<T>(a: seq<T>, b: seq<T>)
    requires NoRepeats(a) && NoRepeats(b) && forall x :: x in a ==> x !in b
    ensures NoRepeats(a + b)
  {
    forall i, j | 0 <= i < j < |a + b|
      ensures (a + b)[i] != (a + b)[j]
    {
      if i < |a| <= j {
        assert a[i] in a && b[j - |a|] in b;
      }
    }
  }

  function RemoveAt<T>(s: seq<T>, k: nat): seq<T>
    requires k < |s|
  {
    s[..k] + s[k + 1..]
  }

  lemma {:induction false} RemoveAtElements<T>(s: seq<T>, k: nat)
    requires NoRepeats(s) && k < |s|
    ensures NoRepeats(RemoveAt(s, k))
    ensures forall y :: y in RemoveAt(s, k) <==> y in s && y != s[k]
  {
    var r := RemoveAt(s, k);
    forall y | y in s && y != s[k]
      ensures y in r
    {
      var h :| 0 <= h < |s| && s[h] == y;
      assert r[if h < k then h else h - 1] == y;
    }
  }

  lemma {:induction false} DistinctElements<T>(s: seq<T>)
    requires NoRepeats(s)
    ensures |(set x | x in s)| == |s|
  {
    if s != [] {
      var n := |s| - 1;
      DistinctElements(s[..n]);
      assert (set x | x in s) == (set x | x in s[..n]) + {s[n]};
    }
  }

  function Range(m: nat): (r: set<nat>)
    ensures |r| == m && forall k: nat :: k in r <==> k < m
  {
    if m == 0 then {} else Range(m - 1) + {m - 1}
  }

  /** m distinct numbers below m are all of them. */
  lemma {:induction false} AllBelow(s: seq<nat>, k: nat)
    requires NoRepeats(s) && forall i :: 0 <= i < |s| ==> s[i] < |s|
    requires k < |s|
    ensures k in s
  {
    var elements, range := (set x | x in s), Range(|s|);
    DistinctElements(s);
    if k !in s {
      assert elements <= range - {k};
      SubsetSize(elements, range - {k});
    }
  }
}
