/** The compile-time tables behind `nameof_enum`: the list of named values, the
    index table with its sentinel, and the two layouts of the string table.

    Reflection is an arbitrary function `names` from values (for flags: from bit
    numbers) to names, the empty string meaning that the value has none. */
module EnumTables {
  import Seqs

  type Names = int -> string

  predicate Named(names: Names, v: int) {
    names(v) != ""
  }

  /** `valid[I]` of `values`: which values of the reflected range have a name. */
  function Valid(names: Names, lo: int, size: nat): (valid: seq<bool>)
    ensures |valid| == size
    ensures forall i :: 0 <= i < size ==> valid[i] == Named(names, lo + i)
  {
    seq(size, i => Named(names, lo + i))
  }

  function Trues(valid: seq<bool>): nat {
    if valid == [] then 0 else (if valid[0] then 1 else 0) + Trues(valid[1..])
  }

  /** The positions of the `true`s, in order, counted from `lo`. */
  function Select(valid: seq<bool>, lo: int): (vs: seq<int>)
    ensures |vs| == Trues(valid)
  {
    if valid == [] then [] else (if valid[0] then [lo] else []) + Select(valid[1..], lo + 1)
  }

  lemma {:induction false} SelectConcat(a: seq<bool>, b: seq<bool>, lo: int)
    ensures Select(a + b, lo) == Select(a, lo) + Select(b, lo + |a|)
  {
    if a == [] {
      assert a + b == b;
    } else {
      assert (a + b)[0] == a[0] && (a + b)[1..] == a[1..] + b;
      SelectConcat(a[1..], b, lo + 1);
      Seqs.Assoc(if a[0] then [lo] else [], Select(a[1..], lo + 1), Select(b, lo + |a|));
    }
  }

  lemma {:induction false} TruesConcat(a: seq<bool>, b: seq<bool>)
    ensures Trues(a + b) == Trues(a) + Trues(b)
  {
    if a == [] {
      assert a + b == b;
    } else {
      assert (a + b)[0] == a[0] && (a + b)[1..] == a[1..] + b;
      TruesConcat(a[1..], b);
    }
  }

  lemma SelectSnoc(valid: seq<bool>, i: nat, lo: int)
    requires i < |valid|
    ensures Select(valid[..i + 1], lo) == Select(valid[..i], lo) + (if valid[i] then [lo + i] else [])
    ensures Trues(valid[..i + 1]) == Trues(valid[..i]) + (if valid[i] then 1 else 0)
  {
    assert valid[..i + 1] == valid[..i] + [valid[i]];
    assert [valid[i]][1..] == [];
    SelectConcat(valid[..i], [valid[i]], lo);
    TruesConcat(valid[..i], [valid[i]]);
  }

  lemma TruesPrefix(valid: seq<bool>, i: nat)
    requires i <= |valid|
    ensures Trues(valid[..i]) <= Trues(valid)
    ensures Trues(valid) == Trues(valid[..i]) + Trues(valid[i..])
  {
    assert valid == valid[..i] + valid[i..];
    TruesConcat(valid[..i], valid[i..]);
  }

  /** The compaction loop. It ends because its bound is the number of `true`s. */
  method Values(valid: seq<bool>, lo: int) returns (values: array<int>)
    ensures fresh(values) && values[..] == Select(valid, lo)
  {
    var count := Trues(valid);
    values := new int[count];
    var i, v := 0, 0;
    assert valid[..0] == [];
    while v < count
      invariant 0 <= i <= |valid| && v == Trues(valid[..i]) <= count
      invariant values[..v] == Select(valid[..i], lo)
      decreases |valid| - i
    {
      assert valid[..|valid|] == valid;
      SelectSnoc(valid, i, lo);
      TruesPrefix(valid, i + 1);
      if valid[i] {
        values[v] := lo + i;
        v := v + 1;
      }
      i := i + 1;
    }
    NothingAfter(valid, i, lo);
    assert values[..] == values[..v];
  }

  /** Once all `true`s are passed, all positions are selected. */
  lemma NothingAfter(valid: seq<bool>, i: nat, lo: int)
    requires i <= |valid| && Trues(valid[..i]) == Trues(valid)
    ensures Select(valid[..i], lo) == Select(valid, lo)
  {
    TruesPrefix(valid, i);
    NoMoreTrues(valid[i..], lo + i);
    assert valid == valid[..i] + valid[i..];
    SelectConcat(valid[..i], valid[i..], lo);
  }

  lemma {:induction false} NoMoreTrues(valid: seq<bool>, lo: int)
    requires Trues(valid) == 0
    ensures Select(valid, lo) == []
  {
  }

  /** `indexes`: the running count of names for a named value, else the sentinel. */
  function Rank(valid: seq<bool>, i: nat, sentinel: nat): nat
    requires i < |valid|
  {
    if valid[i] then Trues(valid[..i]) else sentinel
  }

  method Indexes(valid: seq<bool>, sentinel: nat) returns (indexes: array<nat>)
    ensures fresh(indexes) && indexes.Length == |valid|
    ensures forall i :: 0 <= i < |valid| ==> indexes[i] == Rank(valid, i, sentinel)
  {
    indexes := new nat[|valid|];
    var next := 0;
    assert valid[..0] == [];
    for i := 0 to |valid|
      invariant next == Trues(valid[..i])
      invariant forall j :: 0 <= j < i ==> indexes[j] == Rank(valid, j, sentinel)
    {
      SelectSnoc(valid, i, 0);
      if valid[i] {
        indexes[i] := next;
        next := next + 1;
      } else {
        indexes[i] := sentinel;
      }
    }
  }

  // ------------------------------------------------------ rank meets select

  /** Selecting the position of a `true` by its rank gives the position back. */
  lemma {:induction false} SelectOfRank(valid: seq<bool>, i: nat, lo: int)
    requires i < |valid| && valid[i]
    ensures Trues(valid[..i]) < |Select(valid, lo)| && Select(valid, lo)[Trues(valid[..i])] == lo + i
  {
    assert valid == valid[..i] + valid[i..];
    SelectConcat(valid[..i], valid[i..], lo);
    assert Select(valid[i..], lo + i)[0] == lo + i;
  }

  /** Every selected position is a `true` whose rank is its place in the list. */
  lemma {:induction false} RankOfSelect(valid: seq<bool>, v: nat, lo: int)
    requires v < |Select(valid, lo)|
    ensures var i := Select(valid, lo)[v] - lo;
            0 <= i < |valid| && valid[i] && Trues(valid[..i]) == v
    decreases |valid|
  {
    var i := Select(valid, lo)[v] - lo;
    if valid[0] && v == 0 {
      assert valid[..0] == [];
    } else {
      var u := if valid[0] then v - 1 else v;
      assert Select(valid, lo)[v] == Select(valid[1..], lo + 1)[u];
      RankOfSelect(valid[1..], u, lo + 1);
      assert valid[..i][1..] == valid[1..][..i - 1] && valid[..i][0] == valid[0];
    }
  }

  lemma {:induction false} SelectIncreases(valid: seq<bool>, u: nat, v: nat, lo: int)
    requires u < v < |Select(valid, lo)|
    ensures Select(valid, lo)[u] < Select(valid, lo)[v]
  {
    var i, j := Select(valid, lo)[u] - lo, Select(valid, lo)[v] - lo;
    RankOfSelect(valid, u, lo);
    RankOfSelect(valid, v, lo);
    if j <= i {
      assert valid[..i][..j] == valid[..j];
      TruesPrefix(valid[..i], j);
    }
  }

  // ---------------------------------------------------------------- the tables

  /** The named values of the reflected range `[lo, lo + size)`. */
  function NamedValues(names: Names, lo: int, size: nat): seq<int> {
    Select(Valid(names, lo, size), lo)
  }

  /** What the tables know: the first and the last named value and what lies
      between. */
  datatype Tables = Tables(names: Names, lo: int, size: nat)

  predicate HasNames(t: Tables) {
    NamedValues(t.names, t.lo, t.size) != []
  }

  function Min(t: Tables): int
    requires HasNames(t)
  {
    NamedValues(t.names, t.lo, t.size)[0]
  }

  function Max(t: Tables): int
    requires HasNames(t)
  {
    var vs := NamedValues(t.names, t.lo, t.size);
    vs[|vs| - 1]
  }

  lemma MinMaxBound(t: Tables)
    requires HasNames(t)
    ensures t.lo <= Min(t) <= Max(t) < t.lo + t.size
    ensures Named(t.names, Min(t)) && Named(t.names, Max(t))
    ensures forall v :: t.lo <= v < t.lo + t.size && Named(t.names, v) ==> Min(t) <= v <= Max(t)
  {
    var valid := Valid(t.names, t.lo, t.size);
    SelectedIsNamed(t, 0);
    SelectedIsNamed(t, |Select(valid, t.lo)| - 1);
    forall v | t.lo <= v < t.lo + t.size && Named(t.names, v) ensures Min(t) <= v <= Max(t) {
      BetweenFirstAndLast(valid, v - t.lo, t.lo);
    }
    assert Named(t.names, Min(t));
  }

  lemma SelectedIsNamed(t: Tables, k: nat)
    requires k < |NamedValues(t.names, t.lo, t.size)|
    ensures var v := NamedValues(t.names, t.lo, t.size)[k]; t.lo <= v < t.lo + t.size && Named(t.names, v)
  {
    var valid := Valid(t.names, t.lo, t.size);
    RankOfSelect(valid, k, t.lo);
    var i := Select(valid, t.lo)[k] - t.lo;
    assert valid[i] == Named(t.names, t.lo + i);
  }

  lemma BetweenFirstAndLast(valid: seq<bool>, i: nat, lo: int)
    requires i < |valid| && valid[i]
    ensures var vs := Select(valid, lo); vs != [] && vs[0] <= lo + i <= vs[|vs| - 1]
  {
    var vs, r := Select(valid, lo), Trues(valid[..i]);
    SelectOfRank(valid, i, lo);
    if 0 < r { SelectIncreases(valid, 0, r, lo); }
    if r < |vs| - 1 { SelectIncreases(valid, r, |vs| - 1, lo); }
  }

  /** `range_size`: from the first to the last named value. */
  function RangeSize(t: Tables): nat
    requires HasNames(t)
  {
    MinMaxBound(t);
    Max(t) - Min(t) + 1
  }

  /** `index_t` is one byte if the range is shorter than 255, else two. */
  function Sentinel(t: Tables): nat
    requires HasNames(t)
  {
    if RangeSize(t) < 255 then 255 else 65535
  }

  function IndexTable(t: Tables): seq<nat>
    requires HasNames(t)
  {
    var valid := Valid(t.names, Min(t), RangeSize(t));
    seq(|valid|, i requires 0 <= i < |valid| => Rank(valid, i, Sentinel(t)))
  }

  /** Nothing is selected outside the stretch that holds every `true`. */
  lemma SelectFromStretch(valid: seq<bool>, a: nat, n: nat, lo: int)
    requires a + n <= |valid|
    requires forall i :: 0 <= i < |valid| && valid[i] ==> a <= i < a + n
    ensures Select(valid, lo) == Select(valid[a..a + n], lo + a)
  {
    var head, mid, tail := valid[..a], valid[a..a + n], valid[a + n..];
    NothingNamed(head, lo);
    NothingNamed(tail, lo + a + n);
    SelectConcat(head, mid, lo);
    SelectConcat(head + mid, tail, lo);
    assert valid == (head + mid) + tail;
  }

  /** The shrunken range selects the same values as the reflected one. */
  lemma SameSelection(t: Tables)
    requires HasNames(t)
    ensures NamedValues(t.names, Min(t), RangeSize(t)) == NamedValues(t.names, t.lo, t.size)
  {
    MinMaxBound(t);
    StretchSelects(t.names, t.lo, t.size, Min(t) - t.lo, RangeSize(t));
  }

  lemma StretchSelects(names: Names, lo: int, size: nat, a: nat, n: nat)
    requires a + n <= size
    requires forall v :: lo <= v < lo + size && Named(names, v) ==> lo + a <= v < lo + a + n
    ensures NamedValues(names, lo + a, n) == NamedValues(names, lo, size)
  {
    var valid := Valid(names, lo, size);
    forall i | 0 <= i < |valid| && valid[i] ensures a <= i < a + n {
      assert Named(names, lo + i);
    }
    SelectFromStretch(valid, a, n, lo);
    StretchOfValid(names, lo, size, a, n);
  }

  lemma StretchOfValid(names: Names, lo: int, size: nat, a: nat, n: nat)
    requires a + n <= size
    ensures Valid(names, lo, size)[a..a + n] == Valid(names, lo + a, n)
  {
    var part, whole := Valid(names, lo + a, n), Valid(names, lo, size);
    forall i | 0 <= i < n ensures part[i] == whole[a..a + n][i] {
      assert part[i] == Named(names, lo + a + i) == whole[a + i];
    }
  }

  lemma {:induction false} NothingNamed(valid: seq<bool>, lo: int)
    requires forall i :: 0 <= i < |valid| ==> !valid[i]
    ensures Select(valid, lo) == []
  {
    if valid != [] {
      assert forall i :: 0 <= i < |valid[1..]| ==> valid[1..][i] == valid[i + 1];
      NothingNamed(valid[1..], lo + 1);
    }
  }

  /** `indexes` is the inverse of `values`, shifted to the minimum, and its sentinel
      is no index: the counter never reaches it and never overflows its type. */
  lemma IndexesInvertValues(t: Tables, v: int)
    requires HasNames(t) && t.size < 65535 && Min(t) <= v <= Max(t)
    ensures |IndexTable(t)| == RangeSize(t)
    ensures var idx, vs := IndexTable(t)[v - Min(t)], NamedValues(t.names, t.lo, t.size);
            if Named(t.names, v) then idx < |vs| < Sentinel(t) && vs[idx] == v
            else idx == Sentinel(t)
  {
    MinMaxBound(t);
    SameSelection(t);
    var valid := Valid(t.names, Min(t), RangeSize(t));
    if Named(t.names, v) {
      SelectOfRank(valid, v - Min(t), Min(t));
    }
    TruesAtMost(valid);
  }

  lemma {:induction false} TruesAtMost(valid: seq<bool>)
    ensures Trues(valid) <= |valid|
  {
    if valid != [] {
      TruesAtMost(valid[1..]);
    }
  }

  // ------------------------------------------------------------- the look-up

  /** A string-table entry is a pointer; a value without a name has a null one. */
  datatype Lookup = NoName | NullPointer | Name(s: string)

  function Entry(names: Names, v: int): Lookup {
    if Named(names, v) then Name(names(v)) else NullPointer
  }

  /** `strings`: one entry per named value (sparse) or per value of the range. */
  function Strings(t: Tables, sparse: bool): seq<Lookup>
    requires HasNames(t)
  {
    if sparse then
      var vs := NamedValues(t.names, t.lo, t.size);
      seq(|vs|, i requires 0 <= i < |vs| => Entry(t.names, vs[i]))
    else seq(RangeSize(t), i requires 0 <= i < RangeSize(t) => Entry(t.names, Min(t) + i))
  }

  /** `nameof_enum`, in either layout. */
  function NameofEnum(t: Tables, sparse: bool, v: int): Lookup
    requires HasNames(t) && t.size < 65535
  {
    if v < Min(t) || Max(t) < v then NoName
    else if sparse then
      IndexesInvertValues(t, v);
      var idx := IndexTable(t)[v - Min(t)];
      if idx != Sentinel(t) then Strings(t, true)[idx] else NoName
    else Strings(t, false)[v - Min(t)]
  }

  /** The reference: search the named values one by one. */
  function Search(names: Names, vs: seq<int>, v: int): Lookup {
    if vs == [] then NoName
    else if vs[0] == v then Name(names(v))
    else Search(names, vs[1..], v)
  }

  lemma {:induction false} SearchFinds(names: Names, vs: seq<int>, v: int)
    ensures Search(names, vs, v) == if v in vs then Name(names(v)) else NoName
  {
    if vs != [] {
      SearchFinds(names, vs[1..], v);
    }
  }

  lemma NamedIsListed(t: Tables, v: int)
    requires HasNames(t)
    ensures v in NamedValues(t.names, t.lo, t.size) <==> t.lo <= v < t.lo + t.size && Named(t.names, v)
  {
    var valid := Valid(t.names, t.lo, t.size);
    var vs := Select(valid, t.lo);
    if t.lo <= v < t.lo + t.size && Named(t.names, v) {
      SelectOfRank(valid, v - t.lo, t.lo);
    }
    if k: nat :| k < |vs| && vs[k] == v {
      SelectedIsNamed(t, k);
    }
  }

  /** The sparse layout answers every value as a linear search does. The dense one
      does so exactly for the values that are named or outside the named range:
      for an unnamed value in between it reads a null entry. */
  lemma LookupIsSearch(t: Tables, v: int)
    requires HasNames(t) && t.size < 65535
    ensures var expected := Search(t.names, NamedValues(t.names, t.lo, t.size), v);
            && NameofEnum(t, true, v) == expected
            && (NameofEnum(t, false, v) == expected <==> Named(t.names, v) || v < Min(t) || Max(t) < v)
            && (NameofEnum(t, false, v) != expected ==> NameofEnum(t, false, v) == NullPointer && expected == NoName)
  {
    MinMaxBound(t);
    NamedIsListed(t, v);
    SearchFinds(t.names, NamedValues(t.names, t.lo, t.size), v);
    if Min(t) <= v <= Max(t) {
      LookupInRange(t, v);
    }
  }

  lemma LookupInRange(t: Tables, v: int)
    requires HasNames(t) && t.size < 65535 && Min(t) <= v <= Max(t)
    ensures NameofEnum(t, true, v) == if Named(t.names, v) then Name(t.names(v)) else NoName
    ensures NameofEnum(t, false, v) == Entry(t.names, v)
  {
    IndexesInvertValues(t, v);
    var i := v - Min(t);
    assert Strings(t, false)[i] == Entry(t.names, Min(t) + i);
    if Named(t.names, v) {
      assert Strings(t, true)[IndexTable(t)[i]] == Entry(t.names, v);
    }
  }

  /** `is_sparse`: whether the index table plus one pointer per name is smaller
      than one pointer per value. Both layouts agree on every named value. */
  function IsSparse(t: Tables, pointerSize: nat): bool
    requires HasNames(t)
  {
    var indexSize := if Sentinel(t) == 255 then 1 else 2;
    pointerSize * RangeSize(t) > indexSize * RangeSize(t) + pointerSize * |NamedValues(t.names, t.lo, t.size)|
  }

  /** An enum with the values 0 to 7 without 3. */
  function GapNames(): Names {
    v => if 0 <= v < 8 && v != 3 then [(v + 'a' as int) as char] else ""
  }

  lemma GapSelection()
    ensures NamedValues(GapNames(), 0, 8) == [0, 1, 2, 4, 5, 6, 7]
  {
    GapValid();
    SelectConcat([true, true, true, false], [true, true, true, true], 0);
    SelectFour(true, true, true, false, 0);
    SelectFour(true, true, true, true, 4);
  }

  lemma GapValid()
    ensures Valid(GapNames(), 0, 8) == [true, true, true, false] + [true, true, true, true]
  {
    forall i | 0 <= i < 8 ensures Valid(GapNames(), 0, 8)[i] == (i != 3) {
      assert Valid(GapNames(), 0, 8)[i] == Named(GapNames(), i);
    }
  }

  lemma SelectTwo(a: bool, b: bool, lo: int)
    ensures Select([a, b], lo) == (if a then [lo] else []) + (if b then [lo + 1] else [])
  {
    assert [a, b][1..] == [b] && [b][1..] == [];
  }

  lemma SelectFour(a: bool, b: bool, c: bool, d: bool, lo: int)
    ensures Select([a, b, c, d], lo) ==
            ((if a then [lo] else []) + (if b then [lo + 1] else [])) + ((if c then [lo + 2] else []) + (if d then [lo + 3] else []))
  {
    assert [a, b, c, d] == [a, b] + [c, d];
    SelectConcat([a, b], [c, d], lo);
    SelectTwo(a, b, lo);
    SelectTwo(c, d, lo + 2);
  }

  /** The null entry is really read: whatever range around 0 to 7 is reflected,
      with 8-byte pointers `is_sparse` picks the dense layout for this enum, and the
      lookup of 3 gets the null pointer. */
  lemma DenseReadsNull(lo: int, size: nat)
    requires lo <= 0 && 8 <= lo + size && size < 65535
    ensures var t := Tables(GapNames(), lo, size);
            HasNames(t) && !IsSparse(t, 8) && NameofEnum(t, IsSparse(t, 8), 3) == NullPointer
  {
    var t := Tables(GapNames(), lo, size);
    GapSelectionWithin(lo, size);
    assert Min(t) == 0 && Max(t) == 7;
    assert Strings(t, false)[3] == Entry(t.names, 3) == NullPointer;
  }

  lemma GapSelectionWithin(lo: int, size: nat)
    requires lo <= 0 && 8 <= lo + size
    ensures NamedValues(GapNames(), lo, size) == [0, 1, 2, 4, 5, 6, 7]
  {
    StretchSelects(GapNames(), lo, size, -lo, 8);
    GapSelection();
  }

  /** So the layout that `is_sparse` picks is right for every named value, for
      every value outside the named range, and for all values if it is sparse. */
  lemma ChosenLayoutIsSearch(t: Tables, pointerSize: nat, v: int)
    requires HasNames(t) && t.size < 65535
    ensures NameofEnum(t, IsSparse(t, pointerSize), v) == Search(t.names, NamedValues(t.names, t.lo, t.size), v)
            <==> IsSparse(t, pointerSize) || Named(t.names, v) || v < Min(t) || Max(t) < v
  {
    LookupIsSearch(t, v);
  }

  /** The layout is sparse exactly if the pointers it saves are larger than the index
      table, of one byte per value below 255 values and of two from there on. With
      8-byte pointers that is when less than 7/8 of the range is named, or less than
      3/4 with the larger indexes. */
  lemma SparseIffFewNames(t: Tables, pointerSize: nat)
    requires HasNames(t)
    ensures var range, count := RangeSize(t), |NamedValues(t.names, t.lo, t.size)|;
            && (IsSparse(t, pointerSize) <==> pointerSize * (range - count) > if range < 255 then range else 2 * range)
            && (pointerSize == 8 ==>
                  (IsSparse(t, 8) <==> if range < 255 then 8 * count < 7 * range else 4 * count < 3 * range))
  {
    var range, count := RangeSize(t), |NamedValues(t.names, t.lo, t.size)|;
    assert pointerSize * (range - count) == pointerSize * range - pointerSize * count;
  }

  /** An enum with the values 0 and 100. */
  function FarNames(): Names {
    v => if v == 0 then "near" else if v == 100 then "far" else ""
  }

  lemma FarSelection()
    ensures NamedValues(FarNames(), 0, 101) == [0, 100]
  {
    var valid := Valid(FarNames(), 0, 101);
    var gap := valid[1..100];
    assert valid == [true] + (gap + [true]) by {
      assert valid[0] == Named(FarNames(), 0) && valid[100] == Named(FarNames(), 100);
    }
    forall i | 0 <= i < |gap| ensures !gap[i] {
      assert gap[i] == valid[1 + i] == Named(FarNames(), 1 + i);
    }
    NothingNamed(gap, 1);
    SelectConcat([true], gap + [true], 0);
    SelectConcat(gap, [true], 1);
    assert [true][1..] == [];
  }

  /** For this enum, whatever range around it is reflected, the sparse layout is
      chosen, and every lookup is a search. */
  lemma SparseIsChosen(lo: int, size: nat, v: int)
    requires lo <= 0 && 101 <= lo + size && size < 65535
    ensures var t := Tables(FarNames(), lo, size);
            HasNames(t) && IsSparse(t, 8)
            && NameofEnum(t, IsSparse(t, 8), v) == if v == 0 then Name("near") else if v == 100 then Name("far") else NoName
  {
    var t := Tables(FarNames(), lo, size);
    StretchSelects(FarNames(), lo, size, -lo, 101);
    FarSelection();
    assert Min(t) == 0 && Max(t) == 100;
    LookupIsSearch(t, v);
    SearchFinds(FarNames(), [0, 100], v);
  }
}
