/** Sums of a weight over a sequence. The conservation laws and the termination
    measures of the concurrent systems are equations between such sums. */
module Sums {

  function Sum<X>(xs: seq<X>, w: X -> nat): nat {
    if xs == [] then 0 else w(xs[0]) + Sum(xs[1..], w)
  }

  lemma {:induction false} SumConcat<X>(a: seq<X>, b: seq<X>, w: X -> nat)
    ensures Sum(a + b, w) == Sum(a, w) + Sum(b, w)
  {
    if a == [] {
      assert a + b == b;
    } else {
      assert (a + b)[1..] == a[1..] + b;
      SumConcat(a[1..], b, w);
    }
  }

  lemma SumSnoc<X>(xs: seq<X>, x: X, w: X -> nat)
    ensures Sum(xs + [x], w) == Sum(xs, w) + w(x)
  {
    SumConcat(xs, [x], w);
  }

  lemma SumSplit<X>(xs: seq<X>, i: nat, w: X -> nat)
    requires i < |xs|
    ensures Sum(xs, w) == Sum(xs[..i], w) + w(xs[i]) + Sum(xs[i + 1..], w)
  {
    assert xs == xs[..i] + xs[i..];
    SumConcat(xs[..i], xs[i..], w);
  }

  lemma SumUpdate<X>(xs: seq<X>, i: nat, x: X, w: X -> nat)
    requires i < |xs|
    ensures Sum(xs[i := x], w) + w(xs[i]) == Sum(xs, w) + w(x)
  {
    var ys := xs[i := x];
    SumSplit(xs, i, w);
    SumSplit(ys, i, w);
    assert ys[..i] == xs[..i] && ys[i + 1..] == xs[i + 1..];
  }

  lemma SumRemove<X>(xs: seq<X>, i: nat, w: X -> nat)
    requires i < |xs|
    ensures Sum(xs[..i] + xs[i + 1..], w) + w(xs[i]) == Sum(xs, w)
  {
    SumSplit(xs, i, w);
    SumConcat(xs[..i], xs[i + 1..], w);
  }

  /** Two weights that agree on the elements have the same sum. */
  lemma {:induction false} SumSame<X>(xs: seq<X>, v: X -> nat, w: X -> nat)
    requires forall i :: 0 <= i < |xs| ==> v(xs[i]) == w(xs[i])
    ensures Sum(xs, v) == Sum(xs, w)
  {
    if xs != [] {
      assert forall i :: 0 <= i < |xs[1..]| ==> xs[1..][i] == xs[i + 1];
      SumSame(xs[1..], v, w);
    }
  }

  lemma {:induction false} SumZero<X>(xs: seq<X>, w: X -> nat)
    requires forall i :: 0 <= i < |xs| ==> w(xs[i]) == 0
    ensures Sum(xs, w) == 0
  {
    if xs != [] {
      assert forall i :: 0 <= i < |xs[1..]| ==> xs[1..][i] == xs[i + 1];
      SumZero(xs[1..], w);
    }
  }

  lemma SumOfOne<X>(xs: seq<X>, i: nat, w: X -> nat)
    requires i < |xs| && forall j :: 0 <= j < |xs| && j != i ==> w(xs[j]) == 0
    ensures Sum(xs, w) == w(xs[i])
  {
    SumSplit(xs, i, w);
    SumZero(xs[..i], w);
    SumZero(xs[i + 1..], w);
  }

  lemma SumAtLeast<X>(xs: seq<X>, i: nat, w: X -> nat)
    requires i < |xs|
    ensures w(xs[i]) <= Sum(xs, w)
  {
    SumSplit(xs, i, w);
  }

  lemma {:induction false} SumAtLeastTwo<X>(xs: seq<X>, i: nat, j: nat, w: X -> nat)
    requires i < j < |xs|
    ensures w(xs[i]) + w(xs[j]) <= Sum(xs, w)
  {
    SumSplit(xs, i, w);
    assert xs[i + 1..][j - i - 1] == xs[j];
    SumAtLeast(xs[i + 1..], j - i - 1, w);
  }

  /** A positive sum has an element of positive weight. */
  lemma {:induction false} SumWitness<X>(xs: seq<X>, w: X -> nat) returns (i: nat)
    requires Sum(xs, w) > 0
    ensures i < |xs| && w(xs[i]) > 0
  {
    if w(xs[0]) > 0 {
      i := 0;
    } else {
      var j := SumWitness(xs[1..], w);
      i := j + 1;
    }
  }
}
