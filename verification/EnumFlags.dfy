/** `nameof_enum_flags`: the names of a value's set bits, joined by '|'.

    A value of the underlying type is a word of bits, least significant first. The
    tables are those of `EnumTables` with bit numbers for values; `log2` is how
    the code gets from a one-bit value to its bit number. */
module EnumFlags {
  import opened EnumTables

  type Word = seq<bool>

  function Zero(width: nat): Word {
    seq(width, _ => false)
  }

  /** `U{1} << bit`. */
  function OneBit(width: nat, bit: nat): Word
    requires bit < width
  {
    Zero(width)[bit := true]
  }

  function ShiftRight(w: Word): Word
    requires w != []
  {
    w[1..] + [false]
  }

  function Shifted(w: Word, n: nat): Word
    requires n <= |w|
  {
    w[n..] + Zero(n)
  }

  predicate HasBitFrom(w: Word, n: nat) {
    exists i :: n <= i < |w| && w[i]
  }

  lemma ShiftOnce(w: Word, n: nat)
    requires n < |w|
    ensures ShiftRight(Shifted(w, n)) == Shifted(w, n + 1)
  {
  }

  lemma ShiftedBits(w: Word, n: nat)
    requires n <= |w|
    ensures HasBitFrom(Shifted(w, n), 1) <==> HasBitFrom(w, n + 1)
  {
    if i :| n + 1 <= i < |w| && w[i] {
      assert Shifted(w, n)[i - n];
    }
    if i :| 1 <= i < |w| && Shifted(w, n)[i] {
      assert w[i + n];
    }
  }

  /** `log2` by shifting until the value is at most 1: the highest set bit. */
  method Log2(value: Word) returns (ret: nat)
    ensures HasBitFrom(value, 1) ==> ret < |value| && value[ret] && !HasBitFrom(value, ret + 1)
    ensures !HasBitFrom(value, 1) ==> ret == 0
  {
    var w := value;
    ret := 0;
    assert Shifted(value, 0) == value;
    ShiftedBits(value, 0);
    while HasBitFrom(w, 1)
      invariant 0 <= ret <= |value| && w == Shifted(value, ret)
      invariant HasBitFrom(value, 1) ==> HasBitFrom(value, ret)
      invariant HasBitFrom(w, 1) <==> HasBitFrom(value, ret + 1)
      invariant ret > 0 ==> HasBitFrom(value, 1)
      decreases |value| - ret
    {
      ShiftOnce(value, ret);
      w, ret := ShiftRight(w), ret + 1;
      ShiftedBits(value, ret);
    }
  }

  lemma OneBitFrom(width: nat, bit: nat, n: nat)
    requires bit < width
    ensures HasBitFrom(OneBit(width, bit), n) <==> n <= bit
  {
    assert OneBit(width, bit)[bit];
  }

  /** On the one-bit values that `values` stores, `log2` is the bit number. */
  method Log2OfOneBit(width: nat, bit: nat) returns (ret: nat)
    requires bit < width
    ensures ret == bit
  {
    OneBitFrom(width, bit, 1);
    ret := Log2(OneBit(width, bit));
  }

  // -------------------------------------------------------------- the tables

  /** `get_value(i)` and `strings_v[i]` side by side. */
  datatype Flag = Flag(bit: nat, text: Lookup)

  function Flags(t: Tables, sparse: bool): seq<Flag>
    requires HasNames(t) && t.lo == 0
  {
    if sparse then SparseFlags(t.names, Valid(t.names, 0, t.size))
    else
      MinMaxBound(t);
      DenseFlags(t.names, Min(t), RangeSize(t))
  }

  function SparseFlags(names: Names, valid: seq<bool>): seq<Flag> {
    if valid == [] then []
    else
      var n := |valid| - 1;
      SparseFlags(names, valid[..n]) + (if valid[n] then [Flag(n, Entry(names, n))] else [])
  }

  function DenseFlags(names: Names, from: nat, n: nat): seq<Flag> {
    if n == 0 then [] else DenseFlags(names, from, n - 1) + [Flag(from + n - 1, Entry(names, from + n - 1))]
  }

  /** In either layout the pairs are the tables' entries. */
  lemma FlagsMatchTables(t: Tables, sparse: bool)
    requires HasNames(t) && t.lo == 0
    ensures var fs, vs := Flags(t, sparse), NamedValues(t.names, 0, t.size);
            && |fs| == |Strings(t, sparse)|
            && (sparse ==> |fs| == |vs|)
            && forall i :: 0 <= i < |fs| ==>
                 fs[i].bit == (if sparse then vs[i] else Min(t) + i) && fs[i].text == Strings(t, sparse)[i]
  {
    MinMaxBound(t);
    if sparse {
      SparseFlagsAt(t.names, Valid(t.names, 0, t.size));
    } else {
      DenseFlagsAt(t.names, Min(t), RangeSize(t));
    }
  }

  lemma {:induction false} SparseFlagsAt(names: Names, valid: seq<bool>)
    ensures var fs, vs := SparseFlags(names, valid), Select(valid, 0);
            |fs| == |vs| && forall i :: 0 <= i < |fs| ==> fs[i].bit == vs[i] && fs[i].text == Entry(names, vs[i])
  {
    if valid != [] {
      var n := |valid| - 1;
      SparseFlagsAt(names, valid[..n]);
      SelectSnoc(valid, n, 0);
      assert valid[..n + 1] == valid;
    }
  }

  lemma {:induction false} DenseFlagsAt(names: Names, from: nat, n: nat)
    ensures |DenseFlags(names, from, n)| == n
    ensures forall i :: 0 <= i < n ==> DenseFlags(names, from, n)[i] == Flag(from + i, Entry(names, from + i))
  {
    if n > 0 {
      DenseFlagsAt(names, from, n - 1);
    }
  }

  // -------------------------------------------------------------- the printer

  function Join(parts: seq<string>): string {
    if parts == [] then ""
    else if |parts| == 1 then parts[0]
    else Join(parts[..|parts| - 1]) + "|" + parts[|parts| - 1]
  }

  /** What the loop gathers: the names of the flags whose bit is set in `value`,
      and those bits; it gives up at a null name. */
  datatype Picked = Broken | Picked(parts: seq<string>, bits: Word)

  predicate InWord(flags: seq<Flag>, width: nat) {
    forall i :: 0 <= i < |flags| ==> flags[i].bit < width
  }

  function Pick(flags: seq<Flag>, value: Word): (p: Picked)
    requires InWord(flags, |value|)
    ensures p.Picked? ==> |p.bits| == |value|
  {
    if flags == [] then Picked([], Zero(|value|))
    else
      var n := |flags| - 1;
      match Pick(flags[..n], value)
      case Broken => Broken
      case Picked(parts, bits) =>
        if !value[flags[n].bit] then Picked(parts, bits)
        else if flags[n].text.Name? then Picked(parts + [flags[n].text.s], bits[flags[n].bit := true])
        else Broken
  }

  /** The names are printed if together they cover exactly the value. */
  function Printed(flags: seq<Flag>, value: Word): string
    requires InWord(flags, |value|)
  {
    match Pick(flags, value)
    case Broken => ""
    case Picked(parts, bits) => if bits != Zero(|value|) && bits == value then Join(parts) else ""
  }

  predicate NamesNonEmpty(flags: seq<Flag>) {
    forall i :: 0 <= i < |flags| && flags[i].text.Name? ==> flags[i].text.s != ""
  }

  lemma {:induction false} BrokenStaysBroken(flags: seq<Flag>, value: Word, i: nat)
    requires InWord(flags, |value|) && i <= |flags| && Pick(flags[..i], value).Broken?
    ensures Pick(flags, value).Broken?
  {
    if i < |flags| {
      var n := |flags| - 1;
      assert flags[..n][..i] == flags[..i];
      BrokenStaysBroken(flags[..n], value, i);
    } else {
      assert flags[..i] == flags;
    }
  }

  lemma PickNext(flags: seq<Flag>, value: Word, i: nat)
    requires InWord(flags, |value|) && i < |flags| && Pick(flags[..i], value).Picked?
    ensures var p, f := Pick(flags[..i], value), flags[i];
            Pick(flags[..i + 1], value) ==
            if !value[f.bit] then p
            else if f.text.Name? then Picked(p.parts + [f.text.s], p.bits[f.bit := true])
            else Broken
  {
    assert flags[..i + 1][..i] == flags[..i];
  }

  lemma JoinOneMore(parts: seq<string>, s: string)
    ensures Join(parts + [s]) == if parts == [] then s else Join(parts) + "|" + s
  {
    assert (parts + [s])[..|parts|] == parts;
  }

  /** The loop of `nameof_enum_flags`. */
  method NameofEnumFlags(flags: seq<Flag>, value: Word) returns (name: string)
    requires InWord(flags, |value|) && NamesNonEmpty(flags)
    ensures name == Printed(flags, value)
  {
    name := "";
    var check := Zero(|value|);
    ghost var parts: seq<string> := [];
    assert flags[..0] == [];
    for i := 0 to |flags|
      invariant |check| == |value| && Pick(flags[..i], value) == Picked(parts, check)
      invariant name == Join(parts) && (name == "" <==> parts == [])
    {
      PickNext(flags, value, i);
      if value[flags[i].bit] {
        match flags[i].text
        case Name(s) =>
          check := check[flags[i].bit := true];
          if name != "" {
            name := name + "|";
          }
          name := name + s;
          JoinOneMore(parts, s);
          parts := parts + [s];
        case _ =>
          BrokenStaysBroken(flags, value, i + 1);
          return "";
      }
    }
    assert flags[..|flags|] == flags;
    if check != Zero(|value|) && check == value {
      return name;
    }
    name := "";
  }

  // ------------------------------------------------- what the printer means

  /** The names of the set bits in `[from, upto)`, lowest first. */
  function NamesOf(names: Names, value: Word, from: nat, upto: nat): seq<string>
    requires from <= upto <= |value|
    decreases upto
  {
    if upto == from then []
    else NamesOf(names, value, from, upto - 1) + (if value[upto - 1] then [names(upto - 1)] else [])
  }

  /** Every set bit is searched and has a name. */
  predicate AllNamed(names: Names, digits: nat, value: Word) {
    forall b :: 0 <= b < |value| && value[b] ==> b < digits && Named(names, b)
  }

  function FlagNames(names: Names, digits: nat, value: Word): string {
    if value == Zero(|value|) || !AllNamed(names, digits, value) then ""
    else Join(NamesOf(names, value, 0, |value|))
  }

  lemma {:induction false} NamesOfStretch(names: Names, value: Word, from: nat, upto: nat, a: nat, b: nat)
    requires from <= a <= b <= upto <= |value|
    requires forall i :: from <= i < upto && value[i] ==> a <= i < b
    ensures NamesOf(names, value, from, upto) == NamesOf(names, value, a, b)
    decreases upto
  {
    if upto > b {
      NamesOfStretch(names, value, from, upto - 1, a, b);
    } else if a < b {
      NamesOfStretch(names, value, from, upto - 1, a, b - 1);
    } else if from < upto {
      NamesOfStretch(names, value, from, upto - 1, from, from);
      assert NamesOf(names, value, from, from) == [] == NamesOf(names, value, a, b);
    }
  }

  lemma PickUnset(flags: seq<Flag>, f: Flag, value: Word)
    requires InWord(flags, |value|) && f.bit < |value| && !value[f.bit]
    ensures InWord(flags + [f], |value|) && Pick(flags + [f], value) == Pick(flags, value)
  {
    assert (flags + [f])[..|flags|] == flags;
  }

  lemma PickOneMore(flags: seq<Flag>, f: Flag, value: Word)
    requires InWord(flags, |value|) && f.bit < |value| && f.text.Name?
    ensures InWord(flags + [f], |value|)
    ensures match Pick(flags, value)
            case Broken => Pick(flags + [f], value).Broken?
            case Picked(parts, bits) =>
              Pick(flags + [f], value)
              == if value[f.bit] then Picked(parts + [f.text.s], bits[f.bit := true]) else Picked(parts, bits)
  {
    assert (flags + [f])[..|flags|] == flags;
  }

  lemma {:induction false} SparseShape(names: Names, valid: seq<bool>, width: nat)
    requires |valid| <= width
    ensures InWord(SparseFlags(names, valid), width) && NamesNonEmpty(SparseFlags(names, valid))
  {
    if valid != [] {
      SparseShape(names, valid[..|valid| - 1], width);
    }
  }

  /** The sparse table never breaks and picks the named set bits. */
  lemma {:induction false} SparseBits(names: Names, valid: seq<bool>, value: Word)
    requires |valid| <= |value| && forall b :: 0 <= b < |valid| ==> valid[b] == Named(names, b)
    requires InWord(SparseFlags(names, valid), |value|)
    ensures Pick(SparseFlags(names, valid), value).Picked?
    ensures forall b :: 0 <= b < |value| ==>
                          Pick(SparseFlags(names, valid), value).bits[b] == (b < |valid| && value[b] && valid[b])
  {
    if valid != [] {
      var n := |valid| - 1;
      var fs := SparseFlags(names, valid[..n]);
      SparseShape(names, valid[..n], |value|);
      SparseBits(names, valid[..n], value);
      if valid[n] {
        PickOneMore(fs, Flag(n, Name(names(n))), value);
      } else {
        assert SparseFlags(names, valid) == fs;
      }
    }
  }

  /** If all set bits are named, it picks exactly their names. */
  lemma {:induction false} SparseParts(names: Names, valid: seq<bool>, value: Word)
    requires |valid| <= |value| && forall b :: 0 <= b < |valid| ==> valid[b] == Named(names, b)
    requires forall b :: 0 <= b < |valid| && value[b] ==> valid[b]
    requires InWord(SparseFlags(names, valid), |value|)
    ensures Pick(SparseFlags(names, valid), value).Picked?
    ensures Pick(SparseFlags(names, valid), value).parts == NamesOf(names, value, 0, |valid|)
  {
    if valid != [] {
      var n := |valid| - 1;
      var fs := SparseFlags(names, valid[..n]);
      SparseShape(names, valid[..n], |value|);
      SparseParts(names, valid[..n], value);
      if valid[n] {
        PickOneMore(fs, Flag(n, Name(names(n))), value);
      } else {
        assert SparseFlags(names, valid) == fs;
      }
    }
  }

  lemma {:induction false} DenseShape(names: Names, from: nat, n: nat, width: nat)
    requires from + n <= width
    ensures InWord(DenseFlags(names, from, n), width) && NamesNonEmpty(DenseFlags(names, from, n))
  {
    if n > 0 {
      DenseShape(names, from, n - 1, width);
    }
  }

  /** The dense table breaks at a set bit without a name. */
  lemma {:induction false} DenseBreaks(names: Names, from: nat, n: nat, value: Word, b: nat)
    requires from <= b < from + n <= |value| && value[b] && !Named(names, b)
    requires InWord(DenseFlags(names, from, n), |value|)
    ensures Pick(DenseFlags(names, from, n), value).Broken?
  {
    var fs, gs := DenseFlags(names, from, n), DenseFlags(names, from, n - 1);
    DenseShape(names, from, n - 1, |value|);
    assert fs[..|fs| - 1] == gs;
    if b < from + n - 1 {
      DenseBreaks(names, from, n - 1, value, b);
    }
  }

  lemma DenseOneMore(names: Names, from: nat, n: nat, value: Word)
    requires 0 < n && from + n <= |value| && (value[from + n - 1] ==> Named(names, from + n - 1))
    requires InWord(DenseFlags(names, from, n - 1), |value|) && Pick(DenseFlags(names, from, n - 1), value).Picked?
    ensures InWord(DenseFlags(names, from, n), |value|)
    ensures var p, last := Pick(DenseFlags(names, from, n - 1), value), from + n - 1;
            Pick(DenseFlags(names, from, n), value)
            == if value[last] then Picked(p.parts + [names(last)], p.bits[last := true]) else p
  {
    var last := from + n - 1;
    var f := Flag(last, Entry(names, last));
    if value[last] {
      PickOneMore(DenseFlags(names, from, n - 1), f, value);
    } else {
      PickUnset(DenseFlags(names, from, n - 1), f, value);
    }
  }

  /** Otherwise it picks the set bits of its range... */
  lemma {:induction false} DenseBits(names: Names, from: nat, n: nat, value: Word)
    requires from + n <= |value| && forall b :: from <= b < from + n && value[b] ==> Named(names, b)
    requires InWord(DenseFlags(names, from, n), |value|)
    ensures var p := Pick(DenseFlags(names, from, n), value);
            p.Picked? && forall b :: 0 <= b < |value| ==> p.bits[b] == (from <= b < from + n && value[b])
  {
    if n > 0 {
      DenseShape(names, from, n - 1, |value|);
      DenseBits(names, from, n - 1, value);
      DenseOneMore(names, from, n, value);
      LastBit(Pick(DenseFlags(names, from, n - 1), value).bits, value, from, from + n - 1);
    }
  }

  lemma LastBit(bits: Word, value: Word, from: nat, last: nat)
    requires from <= last < |value| == |bits|
    requires forall b :: 0 <= b < |value| ==> bits[b] == (from <= b < last && value[b])
    ensures var all := if value[last] then bits[last := true] else bits;
            forall b :: 0 <= b < |value| ==> all[b] == (from <= b < last + 1 && value[b])
  {
  }

  /** ...and their names. */
  lemma {:induction false} DenseParts(names: Names, from: nat, n: nat, value: Word)
    requires from + n <= |value| && forall b :: from <= b < from + n && value[b] ==> Named(names, b)
    requires InWord(DenseFlags(names, from, n), |value|)
    ensures var p := Pick(DenseFlags(names, from, n), value);
            p.Picked? && p.parts == NamesOf(names, value, from, from + n)
  {
    if n > 0 {
      DenseShape(names, from, n - 1, |value|);
      DenseParts(names, from, n - 1, value);
      DenseOneMore(names, from, n, value);
    }
  }

  lemma SparsePrints(t: Tables, value: Word)
    requires HasNames(t) && t.lo == 0 && t.size <= |value|
    ensures InWord(Flags(t, true), |value|) && NamesNonEmpty(Flags(t, true))
    ensures Printed(Flags(t, true), value) == FlagNames(t.names, t.size, value)
  {
    SparsePrintsFrom(t.names, Valid(t.names, 0, t.size), value);
  }

  lemma SparsePrintsFrom(names: Names, valid: seq<bool>, value: Word)
    requires |valid| <= |value| && forall b :: 0 <= b < |valid| ==> valid[b] == Named(names, b)
    ensures InWord(SparseFlags(names, valid), |value|) && NamesNonEmpty(SparseFlags(names, valid))
    ensures Printed(SparseFlags(names, valid), value) == FlagNames(names, |valid|, value)
  {
    SparseShape(names, valid, |value|);
    SparseBits(names, valid, value);
    var bits := Pick(SparseFlags(names, valid), value).bits;
    if AllNamed(names, |valid|, value) {
      SparseParts(names, valid, value);
      assert bits == value;
      NamesOfStretch(names, value, 0, |value|, 0, |valid|);
      PickedIsPrinted(SparseFlags(names, valid), names, |valid|, value);
    } else {
      var b :| 0 <= b < |value| && value[b] && !(b < |valid| && Named(names, b));
      assert !bits[b];
    }
  }

  lemma NamedBitsInRange(t: Tables, value: Word)
    requires HasNames(t) && t.lo == 0 && AllNamed(t.names, t.size, value)
    ensures forall b :: 0 <= b < |value| && value[b] ==> Min(t) <= b < Min(t) + RangeSize(t) && Named(t.names, b)
  {
    MinMaxBound(t);
    forall b | 0 <= b < |value| && value[b] ensures Min(t) <= b < Min(t) + RangeSize(t) && Named(t.names, b) {
      assert Named(t.names, b);
    }
  }

  lemma DensePrints(t: Tables, value: Word)
    requires HasNames(t) && t.lo == 0 && t.size <= |value|
    ensures InWord(Flags(t, false), |value|) && NamesNonEmpty(Flags(t, false))
    ensures Printed(Flags(t, false), value) == FlagNames(t.names, t.size, value)
  {
    MinMaxBound(t);
    DensePrintsFrom(t.names, t.size, Min(t), RangeSize(t), value);
    if AllNamed(t.names, t.size, value) {
      NamedBitsInRange(t, value);
    }
  }

  lemma DensePrintsFrom(names: Names, digits: nat, from: nat, n: nat, value: Word)
    requires from + n <= digits <= |value|
    ensures var fs := DenseFlags(names, from, n);
            && InWord(fs, |value|) && NamesNonEmpty(fs)
            && ((AllNamed(names, digits, value) ==> forall b :: 0 <= b < |value| && value[b] ==> from <= b < from + n) ==>
                  Printed(fs, value) == FlagNames(names, digits, value))
  {
    DenseShape(names, from, n, |value|);
    if !AllNamed(names, digits, value) {
      DenseRefuses(names, digits, from, n, value);
    } else if forall b :: 0 <= b < |value| && value[b] ==> from <= b < from + n {
      DenseAccepts(names, digits, from, n, value);
    }
  }

  lemma DenseAccepts(names: Names, digits: nat, from: nat, n: nat, value: Word)
    requires from + n <= digits <= |value| && InWord(DenseFlags(names, from, n), |value|)
    requires AllNamed(names, digits, value)
    requires forall b :: 0 <= b < |value| && value[b] ==> from <= b < from + n
    ensures Printed(DenseFlags(names, from, n), value) == FlagNames(names, digits, value)
  {
    var fs := DenseFlags(names, from, n);
    assert Pick(fs, value) == Picked(NamesOf(names, value, 0, |value|), value) by {
      DensePicksNames(names, digits, from, n, value);
      DensePicksBits(names, digits, from, n, value);
    }
    PickedIsPrinted(fs, names, digits, value);
  }

  lemma DensePicksNames(names: Names, digits: nat, from: nat, n: nat, value: Word)
    requires from + n <= digits <= |value| && InWord(DenseFlags(names, from, n), |value|)
    requires AllNamed(names, digits, value)
    requires forall b :: 0 <= b < |value| && value[b] ==> from <= b < from + n
    ensures var p := Pick(DenseFlags(names, from, n), value); p.Picked? && p.parts == NamesOf(names, value, 0, |value|)
  {
    DenseParts(names, from, n, value);
    NamesOfStretch(names, value, 0, |value|, from, from + n);
  }

  lemma DensePicksBits(names: Names, digits: nat, from: nat, n: nat, value: Word)
    requires from + n <= digits <= |value| && InWord(DenseFlags(names, from, n), |value|)
    requires AllNamed(names, digits, value)
    requires forall b :: 0 <= b < |value| && value[b] ==> from <= b < from + n
    ensures var p := Pick(DenseFlags(names, from, n), value); p.Picked? && p.bits == value
  {
    DenseBits(names, from, n, value);
    SameBits(Pick(DenseFlags(names, from, n), value).bits, value, from, from + n);
  }

  lemma SameBits(bits: Word, value: Word, from: nat, upto: nat)
    requires |bits| == |value|
    requires forall b :: 0 <= b < |value| ==> bits[b] == (from <= b < upto && value[b])
    requires forall b :: 0 <= b < |value| && value[b] ==> from <= b < upto
    ensures bits == value
  {
  }

  /** Flags that pick exactly the value's bits and names print its names. */
  lemma PickedIsPrinted(flags: seq<Flag>, names: Names, digits: nat, value: Word)
    requires InWord(flags, |value|) && AllNamed(names, digits, value)
    requires Pick(flags, value) == Picked(NamesOf(names, value, 0, |value|), value)
    ensures Printed(flags, value) == FlagNames(names, digits, value)
  {
  }

  lemma DenseRefuses(names: Names, digits: nat, from: nat, n: nat, value: Word)
    requires from + n <= digits <= |value| && InWord(DenseFlags(names, from, n), |value|)
    requires !AllNamed(names, digits, value)
    ensures Printed(DenseFlags(names, from, n), value) == ""
  {
    var b :| 0 <= b < |value| && value[b] && !(b < digits && Named(names, b));
    if c :| from <= c < from + n && value[c] && !Named(names, c) {
      DenseBreaks(names, from, n, value, c);
    } else {
      DenseBits(names, from, n, value);
      assert !Pick(DenseFlags(names, from, n), value).bits[b];
    }
  }

  /** Sparse or dense, for every set of named bits and every value the printed
      string is the same: the names of the set bits, or nothing. */
  lemma LayoutsAgree(t: Tables, value: Word)
    requires HasNames(t) && t.lo == 0 && t.size <= |value|
    ensures InWord(Flags(t, true), |value|) && InWord(Flags(t, false), |value|)
    ensures Printed(Flags(t, true), value) == Printed(Flags(t, false), value) == FlagNames(t.names, t.size, value)
  {
    SparsePrints(t, value);
    DensePrints(t, value);
  }

  lemma {:induction false} JoinNonEmpty(parts: seq<string>)
    requires parts != [] && forall i :: 0 <= i < |parts| ==> parts[i] != ""
    ensures Join(parts) != ""
  {
  }

  lemma {:induction false} NamesOfMembers(names: Names, value: Word, from: nat, upto: nat)
    requires from <= upto <= |value|
    ensures forall b :: from <= b < upto && value[b] ==> names(b) in NamesOf(names, value, from, upto)
    ensures forall s :: s in NamesOf(names, value, from, upto) ==> exists b :: from <= b < upto && value[b] && names(b) == s
    decreases upto
  {
    if from < upto {
      NamesOfMembers(names, value, from, upto - 1);
      assert value[upto - 1] ==> names(upto - 1) in NamesOf(names, value, from, upto);
    }
  }

  /** Something is printed exactly when the value is not zero and all its set bits
      are named. */
  lemma PrintedIffNamed(t: Tables, sparse: bool, value: Word)
    requires HasNames(t) && t.lo == 0 && t.size <= |value|
    ensures InWord(Flags(t, sparse), |value|)
    ensures Printed(Flags(t, sparse), value) != "" <==> value != Zero(|value|) && AllNamed(t.names, t.size, value)
  {
    LayoutsAgree(t, value);
    if value != Zero(|value|) && AllNamed(t.names, t.size, value) {
      var b :| 0 <= b < |value| && value[b];
      var parts := NamesOf(t.names, value, 0, |value|);
      NamesOfMembers(t.names, value, 0, |value|);
      forall i | 0 <= i < |parts| ensures parts[i] != "" {
        assert parts[i] in parts;
      }
      JoinNonEmpty(parts);
    }
  }

  // --------------------------------------------------------- reading it back

  function Split(s: string): (parts: seq<string>)
    ensures parts != []
  {
    if s == "" then [""]
    else
      var n := |s| - 1;
      var parts := Split(s[..n]);
      if s[n] == '|' then parts + [""] else parts[|parts| - 1 := parts[|parts| - 1] + [s[n]]]
  }

  predicate NoBar(s: string) {
    forall i :: 0 <= i < |s| ==> s[i] != '|'
  }

  lemma {:induction false} SplitLast(s: string, p: string)
    requires NoBar(p)
    ensures Split(s + "|" + p) == Split(s) + [p]
  {
    var whole := s + "|" + p;
    var n := |whole| - 1;
    if p == "" {
      assert whole[..n] == s && whole[n] == '|';
    } else {
      var q := p[..|p| - 1];
      SplitLast(s, q);
      assert whole[..n] == s + "|" + q && whole[n] == p[|p| - 1];
      assert q + [p[|p| - 1]] == p;
    }
  }

  lemma {:induction false} SplitSingle(p: string)
    requires NoBar(p)
    ensures Split(p) == [p]
  {
    if p != "" {
      var q := p[..|p| - 1];
      SplitSingle(q);
      assert q + [p[|p| - 1]] == p;
    }
  }

  lemma {:induction false} SplitJoin(parts: seq<string>)
    requires parts != [] && forall i :: 0 <= i < |parts| ==> NoBar(parts[i])
    ensures Split(Join(parts)) == parts
  {
    var n := |parts| - 1;
    if n == 0 {
      SplitSingle(parts[0]);
    } else {
      SplitJoin(parts[..n]);
      SplitLast(Join(parts[..n]), parts[n]);
      assert parts[..n] + [parts[n]] == parts;
    }
  }

  /** Names that are distinct and, as identifiers are, free of '|'. */
  ghost predicate GoodNames(names: Names, digits: nat) {
    && (forall b :: 0 <= b < digits ==> NoBar(names(b)))
    && (forall a, b :: 0 <= a < digits && 0 <= b < digits && Named(names, a) && names(a) == names(b) ==> a == b)
  }

  /** Splitting what was printed at the bars and looking the names up gives back
      exactly the set bits. */
  lemma PrintedRoundTrip(t: Tables, sparse: bool, value: Word, b: nat)
    requires HasNames(t) && t.lo == 0 && t.size <= |value| && GoodNames(t.names, t.size) && b < |value|
    ensures InWord(Flags(t, sparse), |value|)
    ensures var r := Printed(Flags(t, sparse), value);
            r != "" ==> (value[b] <==> b < t.size && Named(t.names, b) && t.names(b) in Split(r))
  {
    LayoutsAgree(t, value);
    PrintedIffNamed(t, sparse, value);
    if Printed(Flags(t, sparse), value) != "" {
      var parts := NamesOf(t.names, value, 0, |value|);
      NamesOfMembers(t.names, value, 0, |value|);
      forall i | 0 <= i < |parts| ensures NoBar(parts[i]) {
        assert parts[i] in parts;
      }
      assert parts != [] by {
        var c :| 0 <= c < |value| && value[c];
        assert t.names(c) in parts;
      }
      SplitJoin(parts);
    }
  }

  /** From the names to the printed string, whichever layout was chosen. */
  method PrintFlags(t: Tables, sparse: bool, value: Word) returns (name: string)
    requires HasNames(t) && t.lo == 0 && t.size <= |value|
    ensures name == FlagNames(t.names, t.size, value)
  {
    SparsePrints(t, value);
    DensePrints(t, value);
    name := NameofEnumFlags(Flags(t, sparse), value);
  }

  /** The numbers of the set bits below `upto`, in order. */
  function BitsOf(value: Word, upto: nat): (bits: seq<nat>)
    requires upto <= |value|
    ensures forall i :: 0 <= i < |bits| ==> bits[i] < upto && value[bits[i]]
    ensures forall i, j :: 0 <= i < j < |bits| ==> bits[i] < bits[j]
    ensures forall b: nat :: b < upto && value[b] ==> b in bits
  {
    if upto == 0 then []
    else BitsOf(value, upto - 1) + (if value[upto - 1] then [upto - 1] else [])
  }

  lemma {:induction false} NamesOfBits(names: Names, value: Word, upto: nat)
    requires upto <= |value|
    ensures var ns, bits := NamesOf(names, value, 0, upto), BitsOf(value, upto);
            |ns| == |bits| && forall i :: 0 <= i < |ns| ==> ns[i] == names(bits[i])
  {
    if upto > 0 {
      NamesOfBits(names, value, upto - 1);
    }
  }

  /** The text lists the names of exactly the set bits, each once, lowest first. */
  lemma PrintedInOrder(t: Tables, sparse: bool, value: Word) returns (bits: seq<nat>)
    requires HasNames(t) && t.lo == 0 && t.size <= |value|
    requires forall b :: 0 <= b < t.size ==> NoBar(t.names(b))
    ensures InWord(Flags(t, sparse), |value|)
    ensures forall b: nat :: b in bits <==> b < |value| && value[b]
    ensures forall i, j :: 0 <= i < j < |bits| ==> bits[i] < bits[j]
    ensures var r := Printed(Flags(t, sparse), value);
            r != "" ==> |Split(r)| == |bits| && forall i :: 0 <= i < |bits| ==> Split(r)[i] == t.names(bits[i])
  {
    bits := BitsOf(value, |value|);
    LayoutsAgree(t, value);
    PrintedIffNamed(t, sparse, value);
    if Printed(Flags(t, sparse), value) != "" {
      var parts := NamesOf(t.names, value, 0, |value|);
      NamesOfBits(t.names, value, |value|);
      forall i | 0 <= i < |parts| ensures NoBar(parts[i]) {
        assert parts[i] == t.names(bits[i]);
      }
      assert parts != [] by {
        var c :| 0 <= c < |value| && value[c];
        assert c in bits;
      }
      SplitJoin(parts);
    }
  }
}
