/** `nameof::detail::pretty_name`, which turns the spelling of an expression into
    the method name that client and server dispatch on: three backward scans with
    unsigned depth counters that may wrap. */
module PrettyName {
  import opened Chars
  import Seqs

  const SIZE_T_LIMIT: int := 0x1_0000_0000_0000_0000

  // ------------------------------------------------------ what the scans find

  predicate IsLetter(c: char) { 'a' <= c <= 'z' || 'A' <= c <= 'Z' || c == '_' }

  predicate IsIdent(c: char) { IsDigit(c) || IsLetter(c) }

  predicate IsQuote(c: char) { c == '"' || c == '\'' }

  /** String and character literals with any prefix, and numbers. */
  predicate Rejected(name: string) {
    || (|name| >= 1 && (IsQuote(name[0]) || IsDigit(name[0])))
    || (|name| >= 2 && name[0] in {'R', 'L', 'U', 'u'} && IsQuote(name[1]))
    || (|name| >= 3 && name[0] == 'u' && name[1] == '8' && IsQuote(name[2]))
  }

  /** A kind of bracket. */
  datatype Kind = Kind(open: char, close: char)

  const PARENS := Kind('(', ')')
  const ANGLES := Kind('<', '>')

  predicate IsBracket(k: Kind, c: char) { c == k.open || c == k.close }

  function Delta(k: Kind, c: char): int {
    if c == k.close then 1 else if c == k.open then -1 else 0
  }

  /** How many more closing than opening brackets: the true depth of a scan that
      came backwards over `s`. */
  function Depth(k: Kind, s: string): int {
    if s == "" then 0 else Delta(k, s[0]) + Depth(k, s[1..])
  }

  /** Where a backward scan from `i` stops: after the last character that is no
      bracket and has depth 0 behind it. */
  function Stop(k: Kind, name: string, i: nat): (at: int)
    requires i <= |name|
    ensures -1 <= at <= i && at != 0
  {
    if i == 0 then -1
    else if !IsBracket(k, name[i - 1]) && Depth(k, name[i..]) == 0 then i
    else Stop(k, name, i - 1)
  }

  /** A scan over parentheses that finds nothing leaves the name alone... */
  function WithoutParens(name: string): string {
    var at := Stop(PARENS, name, |name|);
    if at < 0 then name else name[..at]
  }

  /** ...but one over angle brackets that finds nothing counts every character. */
  function TemplateStart(name: string): (at: nat)
    ensures at <= |name|
  {
    var at := Stop(ANGLES, name, |name|);
    if at < 0 then 0 else at
  }

  /** Where the identifier that ends at `i` begins. */
  function IdentStart(name: string, i: nat): (at: nat)
    requires i <= |name|
    ensures at <= i
    ensures forall k :: at <= k < i ==> IsIdent(name[k])
    ensures at > 0 ==> !IsIdent(name[at - 1])
  {
    if i == 0 || !IsIdent(name[i - 1]) then i else IdentStart(name, i - 1)
  }

  function Pretty(name: string, removeTemplateSuffix: bool): string {
    if Rejected(name) then "" else LastIdentifier(WithoutParens(name), removeTemplateSuffix)
  }

  /** Of a name without trailing parentheses. */
  function LastIdentifier(trimmed: string, removeTemplateSuffix: bool): string {
    var end := TemplateStart(trimmed);
    var start := IdentStart(trimmed, end);
    var r := if removeTemplateSuffix then trimmed[start..end] else trimmed[start..];
    if r != "" && IsLetter(r[0]) then r else ""
  }

  // -------------------------------------------------------------- the method

  lemma {:induction false} DepthBound(k: Kind, s: string)
    ensures -|s| <= Depth(k, s) <= |s|
  {
    if s != "" {
      DepthBound(k, s[1..]);
    }
  }

  lemma DepthStep(k: Kind, name: string, i: nat)
    requires 0 < i <= |name|
    ensures Depth(k, name[i - 1..]) == Delta(k, name[i - 1]) + Depth(k, name[i..])
  {
    assert name[i - 1..][1..] == name[i..];
  }

  /** A wrapped counter is zero exactly when the true depth is. */
  lemma WrapIsExact(d: int, h: int)
    requires -SIZE_T_LIMIT < d < SIZE_T_LIMIT && h == d % SIZE_T_LIMIT
    ensures h == 0 <==> d == 0
    ensures (h + 1) % SIZE_T_LIMIT == (d + 1) % SIZE_T_LIMIT
    ensures (h - 1) % SIZE_T_LIMIT == (d - 1) % SIZE_T_LIMIT
  {
  }

  /** One backward scan: `s` counts the characters that were passed over and `h`
      is a `size_t` depth. */
  method ScanBack(k: Kind, name: string) returns (s: nat, stopped: bool)
    requires |name| < SIZE_T_LIMIT
    ensures stopped <==> Stop(k, name, |name|) > 0
    ensures s == |name| - (if stopped then Stop(k, name, |name|) else 0)
  {
    var i, h := |name|, 0;
    s := 0;
    assert name[|name|..] == "";
    while i > 0
      invariant 0 <= i <= |name| && s == |name| - i
      invariant h == Depth(k, name[i..]) % SIZE_T_LIMIT
      invariant Stop(k, name, |name|) == Stop(k, name, i)
    {
      DepthBound(k, name[i..]);
      DepthStep(k, name, i);
      WrapIsExact(Depth(k, name[i..]), h);
      if name[i - 1] == k.close {
        h := (h + 1) % SIZE_T_LIMIT;
      } else if name[i - 1] == k.open {
        h := (h - 1) % SIZE_T_LIMIT;
      } else if h == 0 {
        return s, true;
      }
      s := s + 1;
      i := i - 1;
    }
    stopped := false;
  }

  /** The function itself. No `size_t` name is so long that the counters' wrapping
      shows. */
  method ComputePrettyName(name: string, removeTemplateSuffix: bool) returns (r: string)
    requires |name| < SIZE_T_LIMIT
    ensures r == Pretty(name, removeTemplateSuffix)
  {
    if |name| >= 1 && IsQuote(name[0]) {
      return "";
    } else if |name| >= 2 && name[0] == 'R' && IsQuote(name[1]) {
      return "";
    } else if |name| >= 2 && name[0] == 'L' && IsQuote(name[1]) {
      return "";
    } else if |name| >= 2 && name[0] == 'U' && IsQuote(name[1]) {
      return "";
    } else if |name| >= 2 && name[0] == 'u' && IsQuote(name[1]) {
      return "";
    } else if |name| >= 3 && name[0] == 'u' && name[1] == '8' && IsQuote(name[2]) {
      return "";
    } else if |name| >= 1 && IsDigit(name[0]) {
      return "";
    }
    r := Trim(name, removeTemplateSuffix);
  }

  method ScanIdentifier(name: string, end: nat) returns (i: nat)
    requires end <= |name|
    ensures i == IdentStart(name, end)
  {
    i := end;
    while i > 0 && IsIdent(name[i - 1])
      invariant i <= end && IdentStart(name, end) == IdentStart(name, i)
    {
      i := i - 1;
    }
  }

  method RemoveCall(name: string) returns (r: string)
    requires |name| < SIZE_T_LIMIT
    ensures r == WithoutParens(name)
  {
    r := name;
    var s, stopped := ScanBack(PARENS, name);
    if stopped {
      r := name[..|name| - s];
    }
  }

  /** The part after the rejections: the three scans. */
  method Trim(name: string, removeTemplateSuffix: bool) returns (r: string)
    requires |name| < SIZE_T_LIMIT
    ensures r == LastIdentifier(WithoutParens(name), removeTemplateSuffix)
  {
    r := RemoveCall(name);
    ghost var trimmed := r;
    var s, stopped := ScanBack(ANGLES, r);
    ghost var end := |r| - s;
    assert end == TemplateStart(trimmed);
    var i := ScanIdentifier(r, |r| - s);
    r := r[i..];
    if removeTemplateSuffix {
      r := r[..|r| - s];
      assert r == trimmed[i..end];
    }
    if |r| > 0 && IsLetter(r[0]) {
      return r;
    }
    r := "";
  }

  // ------------------------------------------------------------- the results

  predicate IsIdentifier(s: string) {
    s != "" && IsLetter(s[0]) && forall i :: 0 <= i < |s| ==> IsIdent(s[i])
  }

  /** `name[i..j]` with no identifier character on either side. */
  predicate IsMaximal(name: string, i: nat, j: nat)
    requires i <= j <= |name|
  {
    (i > 0 ==> !IsIdent(name[i - 1])) && (j < |name| ==> !IsIdent(name[j]))
  }

  lemma {:induction false} StopAtBracket(k: Kind, name: string, i: nat)
    requires i <= |name| && 0 < Stop(k, name, i) < i
    ensures IsBracket(k, name[Stop(k, name, i)])
  {
    if Stop(k, name, i) < i - 1 {
      StopAtBracket(k, name, i - 1);
    } else {
      DepthStep(k, name, i);
    }
  }

  /** The result is empty or an identifier that is maximal in the name. */
  lemma ResultIsMaximalIdentifier(name: string)
    ensures var r := Pretty(name, true);
            r == "" || (IsIdentifier(r) && exists i: nat, j: nat :: i <= j <= |name| && name[i..j] == r && IsMaximal(name, i, j))
  {
    var r := Pretty(name, true);
    if r != "" {
      var trimmed := WithoutParens(name);
      var end := TemplateStart(trimmed);
      var start := IdentStart(trimmed, end);
      assert trimmed == name[..|trimmed|];
      assert r == trimmed[start..end] == name[start..end];
      if 0 < end < |trimmed| {
        StopAtBracket(ANGLES, trimmed, |trimmed|);
      } else if end < |name| {
        StopAtBracket(PARENS, name, |name|);
      }
      assert IsMaximal(name, start, end);
      forall i | 0 <= i < |r| ensures IsIdent(r[i]) {
        assert r[i] == trimmed[start + i];
      }
    }
  }

  lemma {:induction false} IdentStartOfRun(name: string, start: nat, i: nat)
    requires start <= i <= |name|
    requires forall k :: start <= k < i ==> IsIdent(name[k])
    requires start > 0 ==> !IsIdent(name[start - 1])
    ensures IdentStart(name, i) == start
  {
    if start < i {
      IdentStartOfRun(name, start, i - 1);
    }
  }

  lemma IdentifierIsKept(id: string)
    requires IsIdentifier(id)
    ensures Pretty(id, true) == id && Pretty(id, false) == id
  {
    var n := |id|;
    assert IsIdent(id[n - 1]);
    assert id[n..] == "";
    assert Stop(PARENS, id, n) == n && Stop(ANGLES, id, n) == n;
    assert id[..n] == id;
    IdentStartOfRun(id, 0, n);
    assert |id| >= 2 ==> IsIdent(id[1]);
    assert |id| >= 3 ==> IsIdent(id[2]);
    assert id[0..n] == id && id[0..] == id;
  }

  /** Applying it again changes nothing. */
  lemma Idempotent(name: string)
    ensures Pretty(Pretty(name, true), true) == Pretty(name, true)
  {
    ResultIsMaximalIdentifier(name);
    if Pretty(name, true) != "" {
      IdentifierIsKept(Pretty(name, true));
    }
  }

  // -------------------------------------------------------- accepted spellings

  /** Text with well-nested groups of one kind of bracket. */
  datatype Nest = Done | Text(c: char, rest: Nest) | Group(inner: Nest, rest: Nest)

  function Render(k: Kind, x: Nest): string {
    match x
    case Done => ""
    case Text(c, rest) => [c] + Render(k, rest)
    case Group(inner, rest) => [k.open] + Render(k, inner) + [k.close] + Render(k, rest)
  }

  /** Text between brackets contains no bracket of that kind. */
  predicate Clean(k: Kind, x: Nest) {
    match x
    case Done => true
    case Text(c, rest) => !IsBracket(k, c) && Clean(k, rest)
    case Group(inner, rest) => Clean(k, inner) && Clean(k, rest)
  }

  /** Nothing, or groups side by side: `<...>` or `(...)(...)`. */
  predicate OnlyGroups(k: Kind, x: Nest) {
    match x
    case Done => true
    case Text(_, _) => false
    case Group(inner, rest) => Clean(k, inner) && OnlyGroups(k, rest)
  }

  lemma {:induction false} DepthConcat(k: Kind, a: string, b: string)
    ensures Depth(k, a + b) == Depth(k, a) + Depth(k, b)
  {
    if a == "" {
      assert a + b == b;
    } else {
      assert (a + b)[0] == a[0] && (a + b)[1..] == a[1..] + b;
      DepthConcat(k, a[1..], b);
    }
  }

  lemma DepthOfChar(k: Kind, c: char)
    ensures Depth(k, [c]) == Delta(k, c)
  {
    assert [c][1..] == "";
  }

  lemma {:induction false} BalancedDepth(k: Kind, x: Nest)
    requires k.open != k.close && Clean(k, x)
    ensures Depth(k, Render(k, x)) == 0
  {
    match x
    case Done =>
    case Text(c, rest) =>
      BalancedDepth(k, rest);
      DepthOfChar(k, c);
      DepthConcat(k, [c], Render(k, rest));
    case Group(inner, rest) =>
      BalancedDepth(k, inner);
      BalancedDepth(k, rest);
      DepthOfChar(k, k.open);
      DepthOfChar(k, k.close);
      DepthConcat(k, [k.open] + Render(k, inner) + [k.close], Render(k, rest));
      DepthConcat(k, [k.open] + Render(k, inner), [k.close]);
      DepthConcat(k, [k.open], Render(k, inner));
  }

  /** `x` is spelled by `name[i..e]`. */
  predicate Spelled(k: Kind, name: string, i: nat, e: nat, x: Nest) {
    i <= e <= |name| && name[i..e] == Render(k, x)
  }

  lemma SpelledText(k: Kind, name: string, i: nat, e: nat, c: char, rest: Nest)
    requires Spelled(k, name, i, e, Text(c, rest))
    ensures i < e && name[i] == c && Spelled(k, name, i + 1, e, rest)
  {
    var r := Render(k, rest);
    var whole := [c] + r;
    assert name[i..e] == whole && whole[1..] == r;
    assert name[i..e][0] == c;
    assert name[i + 1..e] == name[i..e][1..];
  }

  lemma GroupPieces(name: string, i: nat, e: nat, open: char, a: string, close: char, b: string) returns (j: nat)
    requires i <= e <= |name| && name[i..e] == [open] + a + [close] + b
    ensures i < j < e && name[i] == open && name[i + 1..j] == a
    ensures name[j] == close && name[j + 1..e] == b
  {
    j := i + 1 + |a|;
    var piece := name[i..e];
    assert piece[0] == open && piece[1 + |a|] == close;
    assert piece[1..1 + |a|] == a;
    assert piece[2 + |a|..] == b;
    Seqs.SubSlice(name, i, e, 1, 1 + |a|);
    Seqs.SubSlice(name, i, e, 2 + |a|, |piece|);
  }

  lemma SpelledGroup(k: Kind, name: string, i: nat, e: nat, inner: Nest, rest: Nest) returns (j: nat)
    requires Spelled(k, name, i, e, Group(inner, rest))
    ensures i < j < e && name[i] == k.open && name[j] == k.close
    ensures Spelled(k, name, i + 1, j, inner) && Spelled(k, name, j + 1, e, rest)
  {
    j := GroupPieces(name, i, e, k.open, Render(k, inner), k.close, Render(k, rest));
  }

  lemma DepthAcross(k: Kind, name: string, i: nat, e: nat, x: Nest)
    requires k.open != k.close && Clean(k, x) && Spelled(k, name, i, e, x)
    ensures Depth(k, name[i..]) == Depth(k, name[e..])
  {
    assert name[i..] == name[i..e] + name[e..];
    DepthConcat(k, name[i..e], name[e..]);
    BalancedDepth(k, x);
  }

  /** Inside a group a scan passes over well-nested text. */
  lemma {:induction false} ScanInside(k: Kind, name: string, i: nat, e: nat, x: Nest)
    requires k.open != k.close && Clean(k, x) && Spelled(k, name, i, e, x)
    requires Depth(k, name[e..]) > 0
    ensures Stop(k, name, e) == Stop(k, name, i)
    decreases x, 0
  {
    match x
    case Done =>
    case Text(c, rest) =>
      SpelledText(k, name, i, e, c, rest);
      ScanInside(k, name, i + 1, e, rest);
      DepthAcross(k, name, i + 1, e, rest);
    case Group(inner, rest) =>
      var j := SpelledGroup(k, name, i, e, inner, rest);
      ScanInside(k, name, j + 1, e, rest);
      DepthAcross(k, name, j + 1, e, rest);
      ScanGroup(k, name, i, j, inner);
  }

  /** A scan passes over a whole group from one side to the other. */
  lemma {:induction false} ScanGroup(k: Kind, name: string, i: nat, j: nat, inner: Nest)
    requires k.open != k.close && Clean(k, inner) && i < j < |name| && Spelled(k, name, i + 1, j, inner)
    requires name[i] == k.open && name[j] == k.close && Depth(k, name[j + 1..]) >= 0
    ensures Stop(k, name, j + 1) == Stop(k, name, i)
    decreases inner, 1
  {
    DepthStep(k, name, j + 1);
    ScanInside(k, name, i + 1, j, inner);
  }

  /** Groups side by side are passed over at depth 0. */
  lemma {:induction false} ScanGroups(k: Kind, name: string, i: nat, e: nat, x: Nest)
    requires k.open != k.close && OnlyGroups(k, x) && Spelled(k, name, i, e, x)
    requires Depth(k, name[e..]) == 0
    ensures Depth(k, name[i..]) == 0 && Stop(k, name, e) == Stop(k, name, i)
    decreases x
  {
    match x
    case Done =>
    case Group(inner, rest) =>
      var j := SpelledGroup(k, name, i, e, inner, rest);
      ScanGroups(k, name, j + 1, e, rest);
      ScanGroup(k, name, i, j, inner);
      GroupDepth(k, name, i, j, inner);
  }

  lemma GroupDepth(k: Kind, name: string, i: nat, j: nat, inner: Nest)
    requires k.open != k.close && Clean(k, inner) && i < j < |name| && Spelled(k, name, i + 1, j, inner)
    requires name[i] == k.open && name[j] == k.close
    ensures Depth(k, name[i..]) == Depth(k, name[j + 1..])
  {
    DepthStep(k, name, j + 1);
    DepthAcross(k, name, i + 1, j, inner);
    DepthStep(k, name, i + 1);
    assert Delta(k, k.open) == -1 && Delta(k, k.close) == 1;
  }

  lemma LastOfGroups(k: Kind, x: Nest)
    requires OnlyGroups(k, x) && x != Done
    ensures Render(k, x) != "" && Render(k, x)[|Render(k, x)| - 1] == k.close
  {
    match x
    case Group(inner, rest) =>
      if rest != Done {
        LastOfGroups(k, rest);
      }
  }

  /** A scan from the end of `head + groups` stops right after `head`. */
  lemma ScanStops(k: Kind, head: string, x: Nest)
    requires k.open != k.close && OnlyGroups(k, x)
    requires head != "" && !IsBracket(k, head[|head| - 1])
    ensures var name := head + Render(k, x); Stop(k, name, |name|) == |head|
  {
    var name := head + Render(k, x);
    assert name[|head|..] == name[|head|..|name|] == Render(k, x) && name[|name|..] == "";
    ScanGroups(k, name, |head|, |name|, x);
    assert name[|head| - 1] == head[|head| - 1];
  }

  /** `prefix` and then a quote. */
  predicate Quoted(prefix: string, name: string) {
    |prefix| < |name| && name[..|prefix|] == prefix && (name[|prefix|] == '"' || name[|prefix|] == '\'')
  }

  /** How the text of a string or character literal begins. */
  predicate IsLiteral(name: string) {
    Quoted("", name) || Quoted("R", name) || Quoted("L", name) || Quoted("U", name) || Quoted("u", name) || Quoted("u8", name)
  }

  /** Exactly literals and numbers are rejected by their first characters. */
  lemma RejectedIff(name: string)
    ensures Rejected(name) <==> IsLiteral(name) || (name != "" && '0' <= name[0] <= '9')
  {
    assert name[..0] == "";
    assert |name| > 1 ==> name[..1] == [name[0]];
    assert |name| > 2 ==> name[..2] == [name[0], name[1]];
  }

  /** A literal, whatever follows its quote, and a number have no name. */
  lemma LiteralsHaveNoName(name: string, removeTemplateSuffix: bool)
    requires IsLiteral(name) || (name != "" && '0' <= name[0] <= '9')
    ensures Pretty(name, removeTemplateSuffix) == ""
  {
    RejectedIff(name);
  }

  /** Any accepted spelling -- a qualifier that is empty or ends in a character no
      identifier has, an identifier, template arguments and call parentheses, both
      well nested and both optional -- is mapped to its identifier, or, when the
      suffix is kept, to the identifier with its template arguments. Only a text
      that begins as a literal or a number does is excepted. */
  lemma SpellingToIdentifier(qualifier: string, id: string, arguments: Nest, call: Nest)
    requires IsIdentifier(id)
    requires qualifier != "" ==> !IsIdent(qualifier[|qualifier| - 1])
    requires OnlyGroups(ANGLES, arguments) && OnlyGroups(PARENS, call)
    ensures var name := qualifier + id + Render(ANGLES, arguments) + Render(PARENS, call);
            name != "" &&
            (!IsLiteral(name) && !('0' <= name[0] <= '9') ==>
               Pretty(name, true) == id && Pretty(name, false) == id + Render(ANGLES, arguments))
  {
    var front := qualifier + id;
    assert front[|front| - 1] == id[|id| - 1];
    TrimmedSpelling(front, arguments, call);
    LastOfQualified(qualifier, id, arguments);
    RejectedIff(front + Render(ANGLES, arguments) + Render(PARENS, call));
  }

  /** The text that `Remote` sees for a member function of any class. */
  lemma MemberPointer(class_: string, id: string)
    requires IsIdentifier(id)
    ensures Pretty("&" + class_ + "::" + id, true) == id && Pretty("&" + class_ + "::" + id, false) == id
  {
    var qualifier := "&" + class_ + "::";
    assert qualifier[0] == '&' && qualifier[|qualifier| - 1] == ':';
    PlainSpelling(qualifier, id);
  }

  /** Without template arguments and call parentheses. */
  lemma PlainSpelling(qualifier: string, id: string)
    requires IsIdentifier(id) && qualifier != "" && !IsIdent(qualifier[|qualifier| - 1])
    requires qualifier[0] !in {'"', '\'', 'R', 'L', 'U', 'u'} && !IsDigit(qualifier[0])
    ensures Pretty(qualifier + id, true) == id && Pretty(qualifier + id, false) == id
  {
    var name := qualifier + id;
    assert name + "" == name && id + "" == id;
    SpellingToIdentifier(qualifier, id, Done, Done);
    FirstCharacterDecides(name);
  }

  lemma FirstCharacterDecides(name: string)
    requires name != "" && name[0] !in {'"', '\'', 'R', 'L', 'U', 'u'}
    ensures !IsLiteral(name)
  {
    assert |name| > 1 ==> name[..1][0] == name[0];
    assert |name| > 2 ==> name[..2][0] == name[0];
  }

  const LOWER: set<char> :=
    {'a', 'b', 'c', 'd', 'e', 'f', 'g', 'h', 'i', 'j', 'k', 'l', 'm',
     'n', 'o', 'p', 'q', 'r', 's', 't', 'u', 'v', 'w', 'x', 'y', 'z'}
  const UPPER: set<char> :=
    {'A', 'B', 'C', 'D', 'E', 'F', 'G', 'H', 'I', 'J', 'K', 'L', 'M',
     'N', 'O', 'P', 'Q', 'R', 'S', 'T', 'U', 'V', 'W', 'X', 'Y', 'Z'}

  /** The character classes, character by character. */
  lemma CharacterClasses(c: char)
    ensures IsDigit(c) <==> c in {'0', '1', '2', '3', '4', '5', '6', '7', '8', '9'}
    ensures IsLetter(c) <==> c in LOWER || c in UPPER || c == '_'
    ensures IsIdent(c) <==> IsDigit(c) || IsLetter(c)
  {
  }

  /** The depth is the number of closing brackets less that of opening ones. */
  lemma {:induction false} DepthCounts(k: Kind, s: string)
    requires k.open != k.close
    ensures Depth(k, s) == multiset(s)[k.close] as int - multiset(s)[k.open] as int
  {
    if s != "" {
      assert s == [s[0]] + s[1..];
      DepthCounts(k, s[1..]);
    }
  }

  /** A character at which a scan may stop: no bracket, and as many opening as
      closing ones behind it. */
  predicate MayStop(k: Kind, name: string, i: nat)
    requires i < |name|
  {
    !IsBracket(k, name[i]) && Depth(k, name[i + 1..]) == 0
  }

  /** The scan stops after the last such character, and only then. */
  lemma {:induction false} StopIsLast(k: Kind, name: string, i: nat)
    requires i <= |name|
    ensures Stop(k, name, i) > 0 ==> MayStop(k, name, Stop(k, name, i) - 1)
    ensures forall j :: (if Stop(k, name, i) > 0 then Stop(k, name, i) else 0) <= j < i ==> !MayStop(k, name, j)
  {
    if i > 0 && !MayStop(k, name, i - 1) {
      StopIsLast(k, name, i - 1);
    }
  }

  lemma LastOfQualified(qualifier: string, id: string, arguments: Nest)
    requires IsIdentifier(id) && OnlyGroups(ANGLES, arguments)
    requires qualifier != "" ==> !IsIdent(qualifier[|qualifier| - 1])
    ensures var trimmed := qualifier + id + Render(ANGLES, arguments);
            LastIdentifier(trimmed, true) == id && LastIdentifier(trimmed, false) == id + Render(ANGLES, arguments)
  {
    var front, suffix := qualifier + id, Render(ANGLES, arguments);
    assert front[|front| - 1] == id[|id| - 1];
    ScanStops(ANGLES, front, arguments);
    assert TemplateStart(front + suffix) == |front|;
    QualifiedIdentifier(qualifier, id, suffix);
    IdentifierIsLast(front + suffix, id, suffix, |qualifier|);
  }

  lemma IdentifierIsLast(trimmed: string, id: string, suffix: string, start: nat)
    requires IsIdentifier(id) && start + |id| <= |trimmed|
    requires TemplateStart(trimmed) == start + |id| && IdentStart(trimmed, start + |id|) == start
    requires trimmed[start..start + |id|] == id && trimmed[start..] == id + suffix
    ensures LastIdentifier(trimmed, true) == id && LastIdentifier(trimmed, false) == id + suffix
  {
  }

  lemma TrimmedSpelling(front: string, arguments: Nest, call: Nest)
    requires front != "" && IsIdent(front[|front| - 1])
    requires OnlyGroups(ANGLES, arguments) && OnlyGroups(PARENS, call)
    ensures var trimmed := front + Render(ANGLES, arguments);
            WithoutParens(trimmed + Render(PARENS, call)) == trimmed
  {
    var trimmed := front + Render(ANGLES, arguments);
    if arguments != Done {
      LastOfGroups(ANGLES, arguments);
      assert trimmed[|trimmed| - 1] == '>';
    } else {
      assert trimmed == front;
    }
    ScanStops(PARENS, trimmed, call);
  }

  lemma QualifiedIdentifier(qualifier: string, id: string, suffix: string)
    requires IsIdentifier(id)
    requires qualifier != "" ==> !IsIdent(qualifier[|qualifier| - 1])
    ensures var trimmed, n, m := qualifier + id + suffix, |qualifier|, |qualifier + id|;
            IdentStart(trimmed, m) == n && trimmed[n..m] == id && trimmed[n..] == id + suffix
  {
    var trimmed, n, m := qualifier + id + suffix, |qualifier|, |qualifier + id|;
    forall i | n <= i < m ensures IsIdent(trimmed[i]) {
      assert trimmed[i] == id[i - n];
    }
    IdentStartOfRun(trimmed, n, m);
  }

  /** `n` closing parentheses that nothing opens. */
  function Closes(n: nat): (s: string)
    ensures |s| == n
  {
    if n == 0 then "" else ")" + Closes(n - 1)
  }

  /** At a bracket the scan goes on, whatever the depth: it passes over the closes. */
  lemma {:induction false} ScanCloses(name: string, i: nat, n: nat)
    requires i + n <= |name| && name[i..i + n] == Closes(n)
    ensures Stop(PARENS, name, i + n) == Stop(PARENS, name, i)
    ensures Depth(PARENS, Closes(n)) == n
    decreases n
  {
    if n > 0 {
      assert name[i] == name[i..i + n][0] == ')';
      assert name[i + 1..i + n] == name[i..i + n][1..] == Closes(n - 1);
      assert Closes(n)[1..] == Closes(n - 1);
      ScanCloses(name, i + 1, n - 1);
    }
  }

  /** Well-nested text followed by any number of closing parentheses that nothing
      opens is left whole by the first scan. */
  lemma UnmatchedParenKeepsName(x: Nest, n: nat)
    requires Clean(PARENS, x) && n > 0
    ensures var name := Render(PARENS, x) + Closes(n); WithoutParens(name) == name
  {
    ScanFindsNothing(Render(PARENS, x) + Closes(n), |Render(PARENS, x)|, x, n);
  }

  lemma ScanFindsNothing(name: string, e: nat, x: Nest, n: nat)
    requires Clean(PARENS, x) && n > 0
    requires |name| == e + n && Spelled(PARENS, name, 0, e, x) && name[e..] == Closes(n)
    ensures Stop(PARENS, name, |name|) == -1
  {
    assert name[e..e + n] == name[e..];
    ScanCloses(name, e, n);
    ScanInside(PARENS, name, 0, e, x);
  }

  /** Other unmatched parentheses can make the scan cut: in the first name it comes
      back to depth 0 at the unmatched '(', in the second before the unmatched ')'. */
  lemma UnmatchedParenCanCut()
    ensures WithoutParens("f(a)(") == "f(a"
    ensures WithoutParens("x)g()") == "x)g"
  {
    var name, other := "f(a)(", "x)g()";
    assert name[3..] == ")(" && name[4..] == "(" && name[5..] == "";
    assert ")("[1..] == "(" && "("[1..] == "";
    assert Depth(PARENS, "(") == -1 && Depth(PARENS, ")(") == 0;
    assert Stop(PARENS, name, 3) == 3 && Stop(PARENS, name, 4) == 3 && Stop(PARENS, name, 5) == 3;
    assert name[..3] == "f(a";
    assert other[3..] == "()" && other[4..] == ")" && other[5..] == "";
    assert "()"[1..] == ")" && ")"[1..] == "";
    assert Depth(PARENS, ")") == 1 && Depth(PARENS, "()") == 0;
    assert Stop(PARENS, other, 3) == 3 && Stop(PARENS, other, 4) == 3 && Stop(PARENS, other, 5) == 3;
    assert other[..3] == "x)g";
  }
}
