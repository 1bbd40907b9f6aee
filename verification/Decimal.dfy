/** Decimal text as the C++ library prints and reads it: std::to_string, and the
    std::stoul family in base 10 (leading white space, an optional sign, at least
    one digit, anything after the digits ignored; None stands for the exception). */
module Decimal {
  import opened Runs

  const TWO32: nat := 0x1_0000_0000
  const TWO64: nat := 0x1_0000_0000_0000_0000

  predicate IsSpace(c: char)
  {
    c == ' ' || ('\t' <= c <= '\r')
  }

  predicate IsDigit(c: char)
  {
    '0' <= c <= '9'
  }

  predicate AllDigits(s: string)
  {
    forall i :: 0 <= i < |s| ==> IsDigit(s[i])
  }

  function DigitOf(c: char): nat
    requires IsDigit(c)
  {
    (c - '0') as nat
  }

  function Digit(n: nat): (c: char)
    requires n < 10
    ensures IsDigit(c) && DigitOf(c) == n
  {
    '0' + n as char
  }

  /** std::to_string of an unsigned number. */
  function Show(n: nat): (s: string)
    ensures s != [] && AllDigits(s)
  {
    if n < 10 then [Digit(n)] else Show(n / 10) + [Digit(n % 10)]
  }

  function ShowInt(z: int): string
  {
    if z < 0 then "-" + Show(-z) else Show(z)
  }

  function Value(s: string): nat
    requires AllDigits(s)
  {
    if s == [] then 0 else 10 * Value(s[..|s| - 1]) + DigitOf(s[|s| - 1])
  }

  /** Length of the run of characters at the front that satisfy `p`. */
  function Span(s: string, p: char -> bool): (n: nat)
    ensures n <= |s| && (forall i :: 0 <= i < n ==> p(s[i])) && (n < |s| ==> !p(s[n]))
  {
    if s != [] && p(s[0]) then
      var n := Span(s[1..], p);
      assert forall i :: 0 <= i < |s| - 1 ==> s[1..][i] == s[i + 1];
      assert forall i :: 0 <= i < n + 1 ==> i == 0 || s[i] == s[1..][i - 1];
      n + 1
    else 0
  }

  datatype Signed = Signed(negative: bool, magnitude: nat)

  function Scan(s: string): Option<Signed>
  {
    ScanSigned(s[Span(s, IsSpace)..])
  }

  function ScanSigned(t: string): Option<Signed>
  {
    var signed := t != [] && (t[0] == '-' || t[0] == '+');
    ScanDigits(if signed then t[1..] else t, signed && t[0] == '-')
  }

  function ScanDigits(u: string, negative: bool): Option<Signed>
  {
    var n := Span(u, IsDigit);
    if n == 0 then None else Some(Signed(negative, Value(u[..n])))
  }

  /** std::stoul and std::stoull: a minus sign negates modulo 2^64. */
  function Stoull(s: string): (r: Option<nat>)
    ensures r.Some? ==> r.value < TWO64
  {
    match Scan(s)
    case None => None
    case Some(n) =>
      if n.magnitude >= TWO64 then None
      else if n.negative && n.magnitude > 0 then Some(TWO64 - n.magnitude)
      else Some(n.magnitude)
  }

  /** std::stoi and std::stoll: a signed number of magnitude up to `limit`. */
  function StoSigned(s: string, limit: nat): Option<int>
  {
    match Scan(s)
    case None => None
    case Some(n) =>
      if n.negative then (if n.magnitude > limit then None else Some(0 - n.magnitude))
      else if n.magnitude >= limit then None else Some(n.magnitude)
  }

  lemma {:induction false} ValueOfShow(n: nat)
    ensures Value(Show(n)) == n
  {
    if n >= 10 {
      ValueOfShow(n / 10);
      assert Show(n)[..|Show(n)| - 1] == Show(n / 10);
    }
  }

  lemma ScanOfDigits(s: string)
    requires s != [] && AllDigits(s)
    ensures Scan(s) == Some(Signed(false, Value(s)))
  {
    hide Value;
    assert IsDigit(s[0]);
    assert Span(s, IsSpace) == 0 && s[0..] == s;
    assert Span(s, IsDigit) == |s| && s[..|s|] == s;
  }

  lemma ScanOfMinus(s: string)
    requires s != [] && AllDigits(s)
    ensures Scan("-" + s) == Some(Signed(true, Value(s)))
  {
    hide Value;
    var t := "-" + s;
    assert Span(t, IsSpace) == 0 && t[0..] == t && t[1..] == s;
    assert Span(s, IsDigit) == |s| && s[..|s|] == s;
  }

  /** The C locale's white space. */
  lemma SpaceExactly(c: char)
    ensures IsSpace(c) <==> c as int in {9, 10, 11, 12, 13, 32}
  {
  }

  /** `s` is white space, an optional sign, digits, and a rest that begins with no
      digit. */
  predicate Reads(s: string, space: string, sign: string, digits: string, rest: string)
  {
    && s == space + sign + digits + rest
    && (forall i :: 0 <= i < |space| ==> IsSpace(space[i]))
    && (sign == "" || sign == "+" || sign == "-")
    && digits != "" && AllDigits(digits)
    && (rest != "" ==> !IsDigit(rest[0]))
  }

  lemma {:induction false} SpanOf(a: string, b: string, p: char -> bool)
    requires (forall i :: 0 <= i < |a| ==> p(a[i])) && (b != "" ==> !p(b[0]))
    ensures Span(a + b, p) == |a|
  {
    if a == "" {
      assert a + b == b;
    } else {
      assert (a + b)[1..] == a[1..] + b;
      SpanOf(a[1..], b, p);
    }
  }

  lemma DigitsOfParts(digits: string, rest: string, negative: bool)
    requires digits != "" && AllDigits(digits) && (rest != "" ==> !IsDigit(rest[0]))
    ensures ScanDigits(digits + rest, negative) == Some(Signed(negative, Value(digits)))
  {
    hide Span, Value;
    SpanOf(digits, rest, IsDigit);
    assert (digits + rest)[..|digits|] == digits;
  }

  lemma SignedOfParts(sign: string, digits: string, rest: string)
    requires sign == "" || sign == "+" || sign == "-"
    requires digits != "" && AllDigits(digits) && (rest != "" ==> !IsDigit(rest[0]))
    ensures ScanSigned(sign + digits + rest) == Some(Signed(sign == "-", Value(digits)))
  {
    hide ScanDigits, Value;
    var t := sign + digits + rest;
    assert IsDigit(digits[0]);
    DigitsOfParts(digits, rest, sign == "-");
    if sign == "" {
      assert t == digits + rest;
    } else {
      assert t[0] == sign[0] && t[1..] == digits + rest;
    }
  }

  lemma ScanOfParts(s: string, space: string, sign: string, digits: string, rest: string)
    requires Reads(s, space, sign, digits, rest)
    ensures Scan(s) == Some(Signed(sign == "-", Value(digits)))
  {
    hide Span, Value, ScanSigned;
    var t := sign + digits + rest;
    assert IsDigit(digits[0]);
    assert s == space + t && t != "" && !IsSpace(t[0]);
    SpanOf(space, t, IsSpace);
    assert s[|space|..] == t;
    SignedOfParts(sign, digits, rest);
  }

  lemma PartsOfSigned(t: string) returns (sign: string, digits: string, rest: string)
    requires ScanSigned(t).Some?
    ensures t == sign + digits + rest && (sign == "" || sign == "+" || sign == "-")
    ensures digits != "" && AllDigits(digits) && (rest != "" ==> !IsDigit(rest[0]))
  {
    hide Span, Value;
    var k := if t != "" && (t[0] == '-' || t[0] == '+') then 1 else 0;
    var u := t[k..];
    var n := Span(u, IsDigit);
    sign, digits, rest := t[..k], u[..n], u[n..];
  }

  lemma PartsOfScan(s: string) returns (space: string, sign: string, digits: string, rest: string)
    requires Scan(s).Some?
    ensures Reads(s, space, sign, digits, rest)
  {
    hide Span, ScanSigned;
    var i := Span(s, IsSpace);
    space := s[..i];
    sign, digits, rest := PartsOfSigned(s[i..]);
    assert s == space + s[i..];
    assert space + (sign + digits + rest) == space + sign + digits + rest;
  }

  /** A number is read exactly from texts of that form. */
  lemma ScanExactly(s: string)
    ensures Scan(s).Some? <==> exists space, sign, digits, rest :: Reads(s, space, sign, digits, rest)
  {
    hide Scan, Reads;
    if Scan(s).Some? {
      var space, sign, digits, rest := PartsOfScan(s);
    }
    if exists space, sign, digits, rest :: Reads(s, space, sign, digits, rest) {
      var space, sign, digits, rest :| Reads(s, space, sign, digits, rest);
      assert digits != "" && AllDigits(digits) by { DigitsOf(s, space, sign, digits, rest); }
      ScanOfParts(s, space, sign, digits, rest);
    }
  }

  lemma DigitsOf(s: string, space: string, sign: string, digits: string, rest: string)
    requires Reads(s, space, sign, digits, rest)
    ensures digits != "" && AllDigits(digits)
  {
  }

  function InLimit(z: int, limit: nat): Option<int>
  {
    if 0 - limit <= z < limit then Some(z) else None
  }

  /** What std::stoull and its signed relatives make of such a text: a magnitude
      that does not fit throws, and an unsigned minus wraps around. */
  lemma StoullOfParts(s: string, space: string, sign: string, digits: string, rest: string)
    requires Reads(s, space, sign, digits, rest)
    ensures var n := Value(digits);
      && (Stoull(s).None? <==> n >= TWO64)
      && (n < TWO64 ==> Stoull(s) == Some(if sign == "-" then (TWO64 - n) % TWO64 else n))
    ensures forall limit: nat :: limit > 0 ==>
      StoSigned(s, limit) == InLimit(if sign == "-" then 0 - Value(digits) else Value(digits), limit)
  {
    hide Scan, Value;
    ScanOfParts(s, space, sign, digits, rest);
  }

  lemma StoullOfNone(s: string)
    requires !exists space, sign, digits, rest :: Reads(s, space, sign, digits, rest)
    ensures Stoull(s) == None && forall limit: nat :: StoSigned(s, limit) == None
  {
    hide Scan, Reads;
    ScanExactly(s);
  }

  lemma ScanOfShow(n: nat)
    ensures Scan(Show(n)) == Some(Signed(false, n))
  {
    ScanOfDigits(Show(n));
    ValueOfShow(n);
  }

  lemma ScanOfShowInt(z: int)
    ensures Scan(ShowInt(z)) == Some(Signed(z < 0, if z < 0 then -z else z))
  {
    if z < 0 {
      ScanOfMinus(Show(-z));
      ValueOfShow(-z);
    } else {
      ScanOfShow(z);
    }
  }

  lemma StoullOfDigits(s: string)
    requires s != [] && AllDigits(s) && Value(s) < TWO64
    ensures Stoull(s) == Some(Value(s))
  {
    ScanOfDigits(s);
  }

  /** Reading back what was printed. */
  lemma StoullOfShow(n: nat)
    requires n < TWO64
    ensures Stoull(Show(n)) == Some(n)
  {
    ScanOfShow(n);
  }
}
