/** Sums of natural-number weights over a sequence. */
module Sums {

  function Sum<T>(s: seq<T>, w: T -> nat): nat {
    if s == [] then 0 else Sum(s[..|s| - 1], w) + w(s[|s| - 1])
  }

  lemma {:induction false} SumUpdate<T>(s: seq<T>, i: nat, x: T, w: T -> nat)
    requires i < |s|
    ensures Sum(s[i := x], w) + w(s[i]) == Sum(s, w) + w(x)
  {
    var last := |s| - 1;
    if i == last {
      assert s[i := x][..last] == s[..last];
    } else {
      SumUpdate(s[..last], i, x, w);
      assert s[i := x][..last] == s[..last][i := x];
    }
  }

  lemma SumAppend<T>(s: seq<T>, x: T, w: T -> nat)
    ensures Sum(s + [x], w) == Sum(s, w) + w(x)
  {
    assert (s + [x])[..|s|] == s;
  }

  lemma {:induction false} SumZero<T>(s: seq<T>, w: T -> nat)
    requires forall i :: 0 <= i < |s| ==> w(s[i]) == 0
    ensures Sum(s, w) == 0
  {
    if s != [] { SumZero(s[..|s| - 1], w); }
  }

  lemma {:induction false} SumSame<T>(s: seq<T>, v: T -> nat, w: T -> nat)
    requires forall i :: 0 <= i < |s| ==> v(s[i]) == w(s[i])
    ensures Sum(s, v) == Sum(s, w)
  {
    if s != [] { SumSame(s[..|s| - 1], v, w); }
  }

  /** Term by term no more is no more in all, and the same in all only when every term is the same. */
  lemma {:induction false} SumNoMore<T>(s: seq<T>, t: seq<T>, w: T -> nat)
    requires |s| == |t| && forall i :: 0 <= i < |s| ==> w(s[i]) <= w(t[i])
    ensures Sum(s, w) <= Sum(t, w)
    ensures Sum(s, w) == Sum(t, w) ==> forall i :: 0 <= i < |s| ==> w(s[i]) == w(t[i])
  {
    if s != [] { SumNoMore(s[..|s| - 1], t[..|t| - 1], w); }
  }

  lemma {:induction false} SumAtLeast<T>(s: seq<T>, i: nat, w: T -> nat)
    requires i < |s|
    ensures w(s[i]) <= Sum(s, w)
  {
    if i < |s| - 1 { SumAtLeast(s[..|s| - 1], i, w); }
  }

  lemma {:induction false} SumAtLeastTwo<T>(s: seq<T>, i: nat, j: nat, w: T -> nat)
    requires i < j < |s|
    ensures w(s[i]) + w(s[j]) <= Sum(s, w)
  {
    var last := |s| - 1;
    if j < last {
      SumAtLeastTwo(s[..last], i, j, w);
    } else {
      SumAtLeast(s[..last], i, w);
    }
  }

  lemma {:induction false} SumOnes<T>(s: seq<T>, w: T -> nat)
    requires forall i :: 0 <= i < |s| ==> w(s[i]) == 1
    ensures Sum(s, w) == |s|
  {
    if s != [] { SumOnes(s[..|s| - 1], w); }
  }

  /** A non-zero sum has a non-zero term. */
  lemma {:induction false} SumWitness<T>(s: seq<T>, w: T -> nat) returns (i: nat)
    requires Sum(s, w) > 0
    ensures i < |s| && w(s[i]) > 0
  {
    var last := |s| - 1;
    if w(s[last]) > 0 { i := last; } else { i := SumWitness(s[..last], w); }
  }
}
