/** Equations between sequences that several proofs need in a quiet context. */
module Seqs {

  lemma HeadThen<T>(xs: seq<T>, ys: seq<T>)
    requires xs != []
    ensures [xs[0]] + (xs[1..] + ys) == xs + ys
  {
  }

  lemma HeadTake<T>(xs: seq<T>, k: nat)
    requires 0 < k <= |xs|
    ensures [xs[0]] + xs[1..][..k - 1] == xs[..k]
  {
  }

  lemma TakeDrop<T>(xs: seq<T>, k: nat)
    requires k <= |xs|
    ensures xs[..k] + xs[k..] == xs
  {
  }

  lemma Assoc<T>(a: seq<T>, b: seq<T>, c: seq<T>)
    ensures (a + b) + c == a + (b + c)
  {
  }

  lemma DropPrefix<T>(a: seq<T>, b: seq<T>)
    ensures (a + b)[|a|..] == b && (a + b)[..|a|] == a
  {
  }

  lemma SubSlice<T>(xs: seq<T>, i: nat, n: nat, p: nat, q: nat)
    requires i <= n <= |xs| && p <= q <= n - i
    ensures xs[i..n][p..q] == xs[i + p..i + q]
  {
    var a, b := xs[i..n][p..q], xs[i + p..i + q];
    forall m | 0 <= m < q - p ensures a[m] == b[m] {
      assert a[m] == xs[i..n][p + m];
    }
  }

  /** A queue after something was put at its end or taken off its front. */
  lemma QueueGoesOn<T>(entered: seq<T>, left: seq<T>, queue: seq<T>, put: seq<T>, got: seq<T>, rest: seq<T>)
    requires entered == left + queue && got + rest == queue + put
    ensures entered + put == (left + got) + rest
  {
    Assoc(left, queue, put);
    Assoc(left, got, rest);
  }
}
