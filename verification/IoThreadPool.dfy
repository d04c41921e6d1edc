/** `IOThreadPool`: round-robin allocation of io services to connections, with a
    16-bit index. */
module IoThreadPools {
  import opened Bytes

  /** `(++next_index_) % pool_size_` in 16-bit arithmetic. */
  function NextIndex(i: nat, size: nat): nat
    requires size > 0
  {
    (i + 1) % U16_LIMIT % size
  }

  lemma ModBelow(a: nat, n: nat)
    requires a < n
    ensures a % n == a
  {
  }

  lemma ModSelf(n: nat)
    requires n > 0
    ensures n % n == 0
  {
  }

  lemma NextIndexWraps(i: nat, size: nat)
    requires i < size < U16_LIMIT
    ensures NextIndex(i, size) == if i + 1 < size then i + 1 else 0
  {
    ModBelow(i + 1, U16_LIMIT);
    if i + 1 < size {
      ModBelow(i + 1, size);
    } else {
      ModSelf(size);
    }
  }

  /** The index that call number `k` hands out when the index was `start`. */
  function PickAt(start: nat, size: nat, k: nat): (i: nat)
    requires start < size
    ensures i < size
  {
    if k == 0 then start else NextIndex(PickAt(start, size, k - 1), size)
  }

  lemma PickNext(start: nat, size: nat, k: nat)
    requires start < size
    ensures PickAt(start, size, k + 1) == NextIndex(PickAt(start, size, k), size)
  {
  }

  class IOThreadPool {
    const poolSize: nat
    var nextIndex: nat
    // One io service per thread, named by its number.
    var allThreads: seq<nat>

    predicate Valid()
      reads this
    {
      0 < poolSize < U16_LIMIT && nextIndex < poolSize && |allThreads| == poolSize
    }

    constructor (poolSize: nat)
      requires 0 < poolSize < U16_LIMIT
      ensures Valid() && this.poolSize == poolSize && nextIndex == 0
      ensures forall i :: 0 <= i < poolSize ==> allThreads[i] == i
    {
      this.poolSize, nextIndex := poolSize, 0;
      var threads: seq<nat> := [];
      for i := 0 to poolSize
        invariant |threads| == i && forall j :: 0 <= j < i ==> threads[j] == j
      {
        threads := threads + [i];
      }
      allThreads := threads;
    }

    /** The index stays in range, and its increment within 16 bits. */
    method GetNextIOService() returns (service: nat)
      requires Valid()
      modifies this`nextIndex
      ensures Valid() && service == allThreads[old(nextIndex)]
      ensures nextIndex == NextIndex(old(nextIndex), poolSize)
      ensures nextIndex == (if old(nextIndex) + 1 < poolSize then old(nextIndex) + 1 else 0)
    {
      service := allThreads[nextIndex];
      NextIndexWraps(nextIndex, poolSize);
      nextIndex := (nextIndex + 1) % U16_LIMIT % poolSize;
    }

    /** Any number of calls in a row. */
    method Take(n: nat) returns (picks: seq<nat>)
      requires Valid()
      modifies this`nextIndex
      ensures Valid() && |picks| == n && nextIndex == PickAt(old(nextIndex), poolSize, n)
      ensures forall k :: 0 <= k < n ==> picks[k] == allThreads[PickAt(old(nextIndex), poolSize, k)]
    {
      picks := [];
      ghost var start := nextIndex;
      for k := 0 to n
        invariant Valid() && |picks| == k && nextIndex == PickAt(start, poolSize, k)
        invariant forall j :: 0 <= j < k ==> picks[j] == allThreads[PickAt(start, poolSize, j)]
      {
        var service := GetNextIOService();
        PickNext(start, poolSize, k);
        picks := picks + [service];
      }
    }
  }

  /** How often index `i` is picked by `n` calls. */
  function Picks(start: nat, size: nat, n: nat, i: nat): nat
    requires start < size
  {
    if n == 0 then 0 else Picks(start, size, n - 1, i) + (if PickAt(start, size, n - 1) == i then 1 else 0)
  }

  /** How many calls pass before index `i` is picked for the first time. */
  function Offset(start: nat, size: nat, i: nat): nat
    requires start < size && i < size
  {
    if i >= start then i - start else i + size - start
  }

  /** `n` calls are so many whole rounds and so many calls of the next round. */
  function Rounds(n: nat, size: nat): (qr: (nat, nat))
    requires size > 0
    ensures qr.1 < size && n == qr.0 * size + qr.1
  {
    if n == 0 then (0, 0)
    else
      var (q, r) := Rounds(n - 1, size);
      if r + 1 < size then (q, r + 1)
      else
        assert (q + 1) * size == q * size + size;
        (q + 1, 0)
  }

  lemma {:induction false} PickOfRound(start: nat, size: nat, n: nat)
    requires start < size < U16_LIMIT
    ensures var r := Rounds(n, size).1; PickAt(start, size, n) == if start + r < size then start + r else start + r - size
  {
    if n > 0 {
      PickOfRound(start, size, n - 1);
      NextIndexWraps(PickAt(start, size, n - 1), size);
    }
  }

  /** Fairness: index `i` is picked once in every whole round, and once more if its
      turn in the unfinished round has come. */
  lemma {:induction false} PicksExactly(start: nat, size: nat, n: nat, i: nat)
    requires start < size < U16_LIMIT && i < size
    ensures var (q, r) := Rounds(n, size); Picks(start, size, n, i) == q + (if Offset(start, size, i) < r then 1 else 0)
  {
    if n > 0 {
      PicksExactly(start, size, n - 1, i);
      PickOfRound(start, size, n - 1);
    }
  }

  /** After any number of calls, any two services were picked equally often, up to
      one. */
  lemma PicksAreFair(start: nat, size: nat, n: nat, i: nat, j: nat)
    requires start < size < U16_LIMIT && i < size && j < size
    ensures -1 <= Picks(start, size, n, i) - Picks(start, size, n, j) <= 1
  {
    PicksExactly(start, size, n, i);
    PicksExactly(start, size, n, j);
  }

  lemma {:induction false} FirstRound(n: nat, size: nat)
    requires n < size
    ensures Rounds(n, size) == (0, n)
  {
    if n > 0 {
      FirstRound(n - 1, size);
    }
  }

  /** Any `size` consecutive picks, from whatever index, are a permutation: each
      index occurs exactly once. */
  lemma WindowIsPermutation(start: nat, size: nat, i: nat)
    requires start < size < U16_LIMIT && i < size
    ensures Picks(start, size, size, i) == 1
  {
    FirstRound(size - 1, size);
    PicksExactly(start, size, size, i);
  }
}
