/** `Endpoint`: parsing "host:port" with `find`, `substr` and `stoi`, and printing
    it back. */
module Endpoints {
  import opened Bytes
  import opened Chars
  import opened Framing

  const INT_MAX: int := 0x7fff_ffff
  const INT_MIN: int := -0x8000_0000

  datatype Endpoint = Endpoint(host: string, port: nat)

  /** `stoi` throws when there is no number or it is no `int`. */
  datatype Read<+T> = Read(value: T) | InvalidArgument | OutOfRange

  predicate IsSpace(c: char) { c in {' ', '\t', '\n', '\r', '\U{0B}', '\U{0C}'} }

  /** `find`: the first position of `c`, if any. */
  function Find(s: string, c: char): (at: Option<nat>)
    ensures at.Some? ==> at.value < |s| && s[at.value] == c && forall i :: 0 <= i < at.value ==> s[i] != c
    ensures at.None? ==> c !in s
  {
    if s == "" then None
    else if s[0] == c then Some(0)
    else match Find(s[1..], c) case None => None case Some(i) => Some(i + 1)
  }

  function DigitsPrefix(s: string): string {
    if s == "" || !IsDigit(s[0]) then "" else [s[0]] + DigitsPrefix(s[1..])
  }

  function DigitValue(c: char): nat
    requires IsDigit(c)
  {
    c as int - '0' as int
  }

  function ValueOf(digits: string): nat
    requires forall i :: 0 <= i < |digits| ==> IsDigit(digits[i])
  {
    if digits == "" then 0
    else 10 * ValueOf(digits[..|digits| - 1]) + DigitValue(digits[|digits| - 1])
  }

  lemma {:induction false} DigitsPrefixAreDigits(s: string)
    ensures forall i :: 0 <= i < |DigitsPrefix(s)| ==> IsDigit(DigitsPrefix(s)[i])
  {
    if s != "" && IsDigit(s[0]) {
      DigitsPrefixAreDigits(s[1..]);
    }
  }

  function SkipSpaces(s: string): string {
    if s != "" && IsSpace(s[0]) then SkipSpaces(s[1..]) else s
  }

  /** `stoi`: spaces, a sign, digits; what follows is ignored. */
  function Stoi(s: string): Read<int> {
    StoiAfterSpaces(SkipSpaces(s))
  }

  function StoiAfterSpaces(t: string): Read<int> {
    var signed := t != "" && (t[0] == '-' || t[0] == '+');
    var digits := DigitsPrefix(if signed then t[1..] else t);
    if digits == "" then InvalidArgument
    else
      DigitsPrefixAreDigits(if signed then t[1..] else t);
      var n: int := if signed && t[0] == '-' then 0 - ValueOf(digits) else ValueOf(digits);
      if INT_MIN <= n <= INT_MAX then Read(n) else OutOfRange
  }

  /** The parsing constructor. Without a ':' both parts are the whole text; the
      `int` is stored in 16 bits. */
  function Parse(address: string): Read<Endpoint> {
    var at := Find(address, ':');
    var host := if at.Some? then address[..at.value] else address;
    var port := Stoi(if at.Some? then address[at.value + 1..] else address);
    match port
    case Read(n) => Read(Endpoint(host, n % U16_LIMIT))
    case InvalidArgument => InvalidArgument
    case OutOfRange => OutOfRange
  }

  function Digit(d: nat): char
    requires d < 10
  {
    (d + '0' as int) as char
  }

  /** `std::to_string`. */
  function Decimal(n: nat): (s: string)
    ensures s != "" && forall i :: 0 <= i < |s| ==> IsDigit(s[i])
  {
    if n < 10 then [Digit(n)] else Decimal(n / 10) + [Digit(n % 10)]
  }

  function ToString(e: Endpoint): string {
    e.host + ":" + Decimal(e.port)
  }

  // ------------------------------------------------------------- round trips

  lemma {:induction false} ValueOfDecimal(n: nat)
    ensures ValueOf(Decimal(n)) == n
  {
    if n < 10 {
      assert [Digit(n)][..0] == "";
    } else {
      ValueOfDecimal(n / 10);
      var s := Decimal(n / 10);
      assert (s + [Digit(n % 10)])[..|s|] == s;
    }
  }

  lemma {:induction false} AllDigits(s: string)
    requires forall i :: 0 <= i < |s| ==> IsDigit(s[i])
    ensures DigitsPrefix(s) == s
  {
    if s != "" {
      AllDigits(s[1..]);
    }
  }

  /** `stoi` reads every decimal text of an `int` back, and throws on larger ones. */
  lemma StoiDecimal(n: nat)
    ensures Stoi(Decimal(n)) == if n <= INT_MAX then Read(n) else OutOfRange
  {
    var s := Decimal(n);
    assert IsDigit(s[0]);
    AllDigits(s);
    ValueOfDecimal(n);
  }

  lemma FindSeparator(host: string, rest: string)
    ensures Find(host + ":" + rest, ':').Some?
    ensures ':' !in host ==> Find(host + ":" + rest, ':').value == |host|
    ensures ':' in host ==> Find(host + ":" + rest, ':').value < |host|
  {
    var s := host + ":" + rest;
    assert s[|host|] == ':';
    assert forall i :: 0 <= i < |host| ==> s[i] == host[i];
    if ':' in host {
      var i :| 0 <= i < |host| && host[i] == ':';
      assert s[i] == ':';
    }
  }

  /** A decimal port text is stored modulo 2^16. */
  lemma PortTextNarrows(host: string, n: nat)
    requires ':' !in host
    ensures Parse(host + ":" + Decimal(n)) ==
            if n <= INT_MAX then Read(Endpoint(host, n % U16_LIMIT)) else OutOfRange
  {
    var s := host + ":" + Decimal(n);
    FindSeparator(host, Decimal(n));
    assert s[..|host|] == host && s[|host| + 1..] == Decimal(n);
    StoiDecimal(n);
  }

  /** Printing and parsing gives the endpoint back exactly when its host contains
      no ':'. */
  lemma RoundTripIff(e: Endpoint)
    requires e.port < U16_LIMIT
    ensures Parse(ToString(e)) == Read(e) <==> ':' !in e.host
  {
    if ':' !in e.host {
      PortTextNarrows(e.host, e.port);
    } else {
      HostIsCut(e.host, Decimal(e.port));
    }
  }

  lemma HostIsCut(host: string, port: string)
    requires ':' in host
    ensures var p := Parse(host + ":" + port); p.Read? ==> |p.value.host| < |host|
  {
    FindSeparator(host, port);
  }

  // ------------------------------------------------------- other addresses

  /** With a ':' the host is what is before the first one, and the port is read from
      what is after it. */
  lemma ParseAtColon(host: string, rest: string)
    requires ':' !in host
    ensures Parse(host + ":" + rest) ==
            match Stoi(rest)
            case Read(n) => Read(Endpoint(host, n % U16_LIMIT))
            case InvalidArgument => InvalidArgument
            case OutOfRange => OutOfRange
  {
    var s := host + ":" + rest;
    FindSeparator(host, rest);
    assert s[..|host|] == host && s[|host| + 1..] == rest;
  }

  /** Without a ':' the whole text is the host and is read as the port as well. */
  lemma ParseWithoutColon(text: string)
    requires ':' !in text
    ensures Parse(text) ==
            match Stoi(text)
            case Read(n) => Read(Endpoint(text, n % U16_LIMIT))
            case InvalidArgument => InvalidArgument
            case OutOfRange => OutOfRange
  {
  }

  predicate AllSpaces(s: string) {
    forall i :: 0 <= i < |s| ==> s[i] in {' ', '\t', '\n', '\r', '\U{0B}', '\U{0C}'}
  }

  lemma {:induction false} SpacesAreSkipped(spaces: string, rest: string)
    requires AllSpaces(spaces) && (rest != "" ==> !IsSpace(rest[0]))
    ensures SkipSpaces(spaces + rest) == rest
  {
    if spaces == "" {
      assert spaces + rest == rest;
    } else {
      assert (spaces + rest)[1..] == spaces[1..] + rest;
      SpacesAreSkipped(spaces[1..], rest);
    }
  }

  lemma {:induction false} PrefixBeforeRest(digits: string, rest: string)
    requires (forall i :: 0 <= i < |digits| ==> IsDigit(digits[i])) && (rest != "" ==> !IsDigit(rest[0]))
    ensures DigitsPrefix(digits + rest) == digits
  {
    if digits == "" {
      assert digits + rest == rest;
    } else {
      assert (digits + rest)[1..] == digits[1..] + rest;
      PrefixBeforeRest(digits[1..], rest);
      assert [digits[0]] + digits[1..] == digits;
    }
  }

  /** Spaces, an optional sign, digits and anything that does not go on with a digit
      are read as the signed number; beyond `int` it throws. */
  lemma StoiNumber(spaces: string, sign: string, digits: string, rest: string)
    requires AllSpaces(spaces) && sign in {"", "+", "-"}
    requires digits != "" && (forall i :: 0 <= i < |digits| ==> IsDigit(digits[i])) && (rest != "" ==> !IsDigit(rest[0]))
    ensures var n := if sign == "-" then 0 - ValueOf(digits) else ValueOf(digits);
            Stoi(spaces + (sign + (digits + rest))) == if -0x8000_0000 <= n < 0x8000_0000 then Read(n) else OutOfRange
  {
    var t := sign + (digits + rest);
    assert t[0] == (if sign == "" then digits[0] else sign[0]);
    SpacesAreSkipped(spaces, t);
    PrefixBeforeRest(digits, rest);
    SignedNumber(t, sign, digits, digits + rest);
  }

  lemma SignedNumber(t: string, sign: string, digits: string, unsigned: string)
    requires sign in {"", "+", "-"} && t == sign + unsigned
    requires digits != "" && unsigned != "" && unsigned[0] == digits[0] && DigitsPrefix(unsigned) == digits
    requires forall i :: 0 <= i < |digits| ==> IsDigit(digits[i])
    ensures var n := if sign == "-" then 0 - ValueOf(digits) else ValueOf(digits);
            StoiAfterSpaces(t) == if INT_MIN <= n <= INT_MAX then Read(n) else OutOfRange
  {
    if sign == "" {
      assert t == unsigned;
    } else {
      assert t[0] == sign[0] && t[1..] == unsigned;
    }
  }

  /** Leading zeros do not change the number (and do not make it octal). */
  lemma {:induction false} ZeroInFront(digits: string)
    requires forall i :: 0 <= i < |digits| ==> IsDigit(digits[i])
    ensures ValueOf("0" + digits) == ValueOf(digits)
  {
    var s := "0" + digits;
    assert forall i :: 0 < i < |s| ==> s[i] == digits[i - 1];
    if digits == "" {
      assert s[..0] == "";
    } else {
      var n := |digits|;
      assert s[..n] == "0" + digits[..n - 1];
      ZeroInFront(digits[..n - 1]);
    }
  }

  /** Without a digit after the spaces and the sign it throws. */
  lemma StoiNoNumber(spaces: string, sign: string, rest: string)
    requires AllSpaces(spaces) && sign in {"", "+", "-"}
    requires rest != "" ==> !IsDigit(rest[0])
    requires sign == "" && rest != "" ==> !IsSpace(rest[0]) && rest[0] != '+' && rest[0] != '-'
    ensures Stoi(spaces + (sign + rest)) == InvalidArgument
  {
    var t := sign + rest;
    assert t != "" ==> t[0] == (if sign == "" then rest[0] else sign[0]);
    SpacesAreSkipped(spaces, t);
    if sign == "" {
      assert t == rest;
    } else {
      assert t[1..] == rest;
    }
  }

  /** `n` without its last `k` decimal digits. */
  function WithoutLast(n: nat, k: nat): nat {
    if k == 0 then n else WithoutLast(n / 10, k - 1)
  }

  /** The digit `k` places from the right of the printed number is the decimal one,
      and there is no leading zero. */
  lemma {:induction false} DecimalDigits(n: nat, k: nat)
    ensures var s := Decimal(n);
            && (k < |s| ==> s[|s| - 1 - k] as int - '0' as int == WithoutLast(n, k) % 10)
            && (|s| > 1 ==> s[0] != '0')
    decreases n
  {
    if n >= 10 {
      DecimalDigits(n / 10, if k > 0 then k - 1 else 0);
      LeadingDigit(n);
    }
  }

  lemma LeadingDigit(n: nat)
    requires n >= 10
    ensures Decimal(n)[0] != '0'
  {
    assert Decimal(n)[0] == Decimal(n / 10)[0];
    if n / 10 >= 10 {
      LeadingDigit(n / 10);
    }
  }

  /** The printed endpoint: the host, a ':', and the port's decimal digits. */
  lemma ToStringShape(e: Endpoint, k: nat)
    ensures var s, n := ToString(e), |e.host|;
            && n + 1 < |s| && s[..n] == e.host && s[n] == ':'
            && (k < |s| - n - 1 ==> s[|s| - 1 - k] as int - '0' as int == WithoutLast(e.port, k) % 10)
            && (|s| > n + 2 ==> s[n + 1] != '0')
  {
    var s, d := ToString(e), Decimal(e.port);
    DecimalDigits(e.port, k);
    assert s[..|e.host|] == e.host;
    assert k < |d| ==> s[|s| - 1 - k] == d[|d| - 1 - k];
    assert s[|e.host| + 1] == d[0];
  }
}
