/** How a call becomes bytes and finds its implementation: the request tuple
    `[service, method] ++ args`, the two-name prefix the executor decodes, the
    arguments it passes on, and the table of registered methods. */
module Dispatch {
  import opened Bytes
  import opened Framing
  import Seqs

  datatype Call = Call(service: ByteString, name: ByteString, args: seq<ByteString>)

  // ------------------------------------------------- a concrete list codec

  function PutString(s: ByteString): ByteString {
    if s == [] then [0] else [1, s[0]] + PutString(s[1..])
  }

  function PutList(xs: seq<ByteString>): ByteString {
    if xs == [] then [0] else [1] + PutString(xs[0]) + PutList(xs[1..])
  }

  datatype Parsed<+T> = Malformed | Parsed(value: T, rest: ByteString)

  function GetString(b: ByteString): (p: Parsed<ByteString>)
    ensures p.Parsed? ==> |p.rest| < |b|
  {
    if b == [] then Malformed
    else if b[0] == 0 then Parsed([], b[1..])
    else if |b| < 2 then Malformed
    else match GetString(b[2..])
      case Malformed => Malformed
      case Parsed(s, rest) => Parsed([b[1]] + s, rest)
  }

  function GetList(b: ByteString): Parsed<seq<ByteString>>
    decreases |b|
  {
    if b == [] then Malformed
    else if b[0] == 0 then Parsed([], b[1..])
    else match GetString(b[1..])
      case Malformed => Malformed
      case Parsed(x, more) =>
        match GetList(more)
        case Malformed => Malformed
        case Parsed(xs, rest) => Parsed([x] + xs, rest)
  }

  lemma {:induction false} GetPutString(s: ByteString, tail: ByteString)
    ensures GetString(PutString(s) + tail) == Parsed(s, tail)
  {
    if s == [] {
      assert (PutString(s) + tail)[1..] == tail;
    } else {
      GetPutString(s[1..], tail);
      Seqs.Assoc([1, s[0]], PutString(s[1..]), tail);
      assert ([1, s[0]] + (PutString(s[1..]) + tail))[2..] == PutString(s[1..]) + tail;
      assert [s[0]] + s[1..] == s;
    }
  }

  lemma {:induction false} GetPutList(xs: seq<ByteString>, tail: ByteString)
    ensures GetList(PutList(xs) + tail) == Parsed(xs, tail)
  {
    if xs == [] {
      assert (PutList(xs) + tail)[1..] == tail;
    } else {
      var more := PutList(xs[1..]) + tail;
      Seqs.Assoc([1] + PutString(xs[0]), PutList(xs[1..]), tail);
      assert ([1] + PutString(xs[0]) + more)[1..] == PutString(xs[0]) + more;
      GetPutString(xs[0], more);
      GetPutList(xs[1..], tail);
      assert [xs[0]] + xs[1..] == xs;
    }
  }

  // ------------------------------------------------------- packing a call

  /** `ServiceHandle::Call`: the service name and the method name come first. */
  function PackCall(c: Call): ByteString {
    PutList([c.service, c.name] + c.args)
  }

  /** `InvokeMethod` reads only the first two elements of the tuple. */
  function DecodeNames(b: ByteString): Option<(ByteString, ByteString)> {
    match GetList(b)
    case Malformed => None
    case Parsed(xs, _) => if |xs| < 2 then None else Some((xs[0], xs[1]))
  }

  /** `TraitAndCall2`: element `Index + 2` becomes argument `Index`. */
  function ShiftedArgs(tuple: seq<ByteString>): seq<ByteString>
    requires |tuple| >= 2
  {
    seq(|tuple| - 2, i requires 0 <= i < |tuple| - 2 => tuple[i + 2])
  }

  /** What the registered method is applied to. */
  function DecodeArgs(b: ByteString): Option<seq<ByteString>> {
    match GetList(b)
    case Malformed => None
    case Parsed(xs, _) => if |xs| < 2 then None else Some(ShiftedArgs(xs))
  }

  function DecodeCall(b: ByteString): Option<Call> {
    match (DecodeNames(b), DecodeArgs(b))
    case (Some(names), Some(args)) => Some(Call(names.0, names.1, args))
    case _ => None
  }

  /** The executor decodes every packed call to its own names and applies the
      method to exactly the caller's arguments. */
  lemma CallRoundTrip(c: Call)
    ensures DecodeNames(PackCall(c)) == Some((c.service, c.name))
    ensures DecodeArgs(PackCall(c)) == Some(c.args)
    ensures DecodeCall(PackCall(c)) == Some(c)
  {
    var tuple := [c.service, c.name] + c.args;
    GetPutList(tuple, []);
    assert PutList(tuple) + [] == PutList(tuple);
    assert ShiftedArgs(tuple) == c.args;
  }

  /** On the wire a call is the list of its service name, its method name and its
      arguments, in this order, and nothing else. */
  lemma CallTuple(c: Call)
    ensures GetList(PackCall(c)) == Parsed([c.service, c.name] + c.args, [])
  {
    GetPutList([c.service, c.name] + c.args, []);
    assert PackCall(c) + [] == PackCall(c);
  }

  /** Of any list the executor takes element 0 for the service, element 1 for the
      method and the rest for the arguments; a shorter list is malformed. */
  lemma TupleIsCall(xs: seq<ByteString>)
    ensures |xs| < 2 ==> DecodeCall(PutList(xs)) == None
    ensures |xs| >= 2 ==> DecodeNames(PutList(xs)) == Some((xs[0], xs[1])) && DecodeArgs(PutList(xs)) == Some(xs[2..])
    ensures |xs| >= 2 ==> DecodeCall(PutList(xs)) == Some(Call(xs[0], xs[1], xs[2..]))
  {
    GetPutList(xs, []);
    assert PutList(xs) + [] == PutList(xs);
    if |xs| >= 2 {
      assert ShiftedArgs(xs) == xs[2..];
    }
  }

  /** Different calls never share a packed form. */
  lemma PackCallInjective(c: Call, d: Call)
    requires PackCall(c) == PackCall(d)
    ensures c == d
  {
    CallRoundTrip(c);
    CallRoundTrip(d);
  }

  // -------------------------------------------------- the registered methods

  datatype Registration<I> = Registration(service: ByteString, name: ByteString, impl: I)

  /** `registered_methods_`: the key is the method name alone. */
  function ByMethod<I>(regs: seq<Registration<I>>): map<ByteString, I> {
    if regs == [] then map[]
    else var r := regs[|regs| - 1]; ByMethod(regs[..|regs| - 1])[r.name := r.impl]
  }

  /** The table a caller has in mind: one entry per service and method. */
  function ByPair<I>(regs: seq<Registration<I>>): map<(ByteString, ByteString), I> {
    if regs == [] then map[]
    else var r := regs[|regs| - 1]; ByPair(regs[..|regs| - 1])[(r.service, r.name) := r.impl]
  }

  /** The method table has exactly the registered names... */
  lemma {:induction false} TableHasRegistered<I>(regs: seq<Registration<I>>, m: ByteString)
    ensures m in ByMethod(regs) <==> exists i :: 0 <= i < |regs| && regs[i].name == m
  {
    if regs != [] {
      var n := |regs| - 1;
      TableHasRegistered(regs[..n], m);
      if m in ByMethod(regs[..n]) {
        var i :| 0 <= i < n && regs[..n][i].name == m;
        assert regs[i].name == m;
      } else if i :| 0 <= i < n && regs[i].name == m {
        assert regs[..n][i].name == m;
      }
    }
  }

  /** ...and answers with the last registration of a name. */
  lemma {:induction false} LastRegistrationWins<I>(regs: seq<Registration<I>>, i: nat)
    requires i < |regs| && forall j :: i < j < |regs| ==> regs[j].name != regs[i].name
    ensures regs[i].name in ByMethod(regs) && ByMethod(regs)[regs[i].name] == regs[i].impl
  {
    var n := |regs| - 1;
    if i < n {
      assert regs[..n][i] == regs[i];
      LastRegistrationWins(regs[..n], i);
    }
  }

  /** Every answer of the method table is the answer for some service. */
  lemma {:induction false} MethodHasService<I>(regs: seq<Registration<I>>, m: ByteString) returns (s: ByteString)
    requires m in ByMethod(regs)
    ensures (s, m) in ByPair(regs) && ByPair(regs)[(s, m)] == ByMethod(regs)[m]
  {
    var n := |regs| - 1;
    if regs[n].name == m {
      s := regs[n].service;
    } else {
      s := MethodHasService(regs[..n], m);
    }
  }

  lemma {:induction false} PairHasMethod<I>(regs: seq<Registration<I>>, p: (ByteString, ByteString))
    requires p in ByPair(regs)
    ensures p.1 in ByMethod(regs)
  {
    var n := |regs| - 1;
    if (regs[n].service, regs[n].name) != p {
      PairHasMethod(regs[..n], p);
    }
  }

  ghost predicate Unambiguous<I(!new)>(regs: seq<Registration<I>>) {
    forall p, q :: p in ByPair(regs) && q in ByPair(regs) && p.1 == q.1 ==> ByPair(regs)[p] == ByPair(regs)[q]
  }

  ghost predicate LookupByNameIsExact<I(!new)>(regs: seq<Registration<I>>) {
    forall p :: p in ByPair(regs) ==> p.1 in ByMethod(regs) && ByMethod(regs)[p.1] == ByPair(regs)[p]
  }

  /** Looking up by method name alone gives every registered pair its own
      implementation exactly when all pairs sharing a method name are bound to the
      same implementation. */
  lemma LookupExactIffUnambiguous<I(!new)>(regs: seq<Registration<I>>)
    ensures LookupByNameIsExact(regs) <==> Unambiguous(regs)
  {
    if Unambiguous(regs) {
      forall p | p in ByPair(regs)
        ensures p.1 in ByMethod(regs) && ByMethod(regs)[p.1] == ByPair(regs)[p]
      {
        PairHasMethod(regs, p);
        var s := MethodHasService(regs, p.1);
        assert (s, p.1).1 == p.1;
      }
    }
  }

  /** Two services with a method of the same name: the first one's callers reach
      the second one's implementation. */
  lemma SharedNameGoesToTheLast<I(!new)>(a: ByteString, b: ByteString, m: ByteString, f: I, g: I)
    requires a != b
    ensures var regs := [Registration(a, m, f), Registration(b, m, g)];
            && (a, m) in ByPair(regs) && ByPair(regs)[(a, m)] == f && m in ByMethod(regs) && ByMethod(regs)[m] == g
            && (LookupByNameIsExact(regs) <==> f == g)
  {
    var regs := [Registration(a, m, f), Registration(b, m, g)];
    assert regs[..1] == [Registration(a, m, f)];
    assert [Registration(a, m, f)][..0] == [];
    assert ByPair([Registration(a, m, f)])[(a, m)] == f;
  }
}
