/** JavaScript's `parseInt(s, 10)` and its inverse `String(n)`, on the
    integers that message ids and their textual forms take. */
module IntParsing {
  import opened Wrappers

  /** The characters `parseInt` skips before the number: the white space
      and line terminators of ECMAScript (StrWhiteSpaceChar). */
  predicate IsWhiteSpace(c: char) {
    || c == '\t' || c == '\n' || c == '\U{B}' || c == '\U{C}' || c == '\r'
    || c == ' ' || c == '\U{A0}' || c == '\U{1680}'
    || ('\U{2000}' <= c <= '\U{200A}')
    || c == '\U{2028}' || c == '\U{2029}' || c == '\U{202F}' || c == '\U{205F}'
    || c == '\U{3000}' || c == '\U{FEFF}'
  }

  predicate IsDigit(c: char) {
    '0' <= c <= '9'
  }

  predicate AllDigits(s: string) {
    forall i :: 0 <= i < |s| ==> IsDigit(s[i])
  }

  function DigitValue(c: char): (d: nat)
    requires IsDigit(c)
    ensures d < 10
  {
    c as int - '0' as int
  }

  function DigitChar(d: nat): (c: char)
    requires d < 10
    ensures IsDigit(c) && DigitValue(c) == d
  {
    ('0' as int + d) as char
  }

  /** Drops the leading white space: what is left does not start with
      white space (TrimStartDropsWhiteSpace says what was dropped). */
  function TrimStart(s: string): (r: string)
    ensures |r| <= |s|
    ensures r == [] || !IsWhiteSpace(r[0])
  {
    if s != [] && IsWhiteSpace(s[0]) then TrimStart(s[1..]) else s
  }

  /** The longest prefix of `s` made of decimal digits. */
  function DigitPrefix(s: string): (r: string)
    ensures |r| <= |s| && r == s[..|r|]
    ensures AllDigits(r)
    ensures |r| < |s| ==> !IsDigit(s[|r|])
  {
    if s != [] && IsDigit(s[0]) then [s[0]] + DigitPrefix(s[1..]) else []
  }

  /** The value of a string of decimal digits, most significant first. */
  function DigitsValue(ds: string): nat
    requires AllDigits(ds)
  {
    if ds == [] then 0 else DigitsValue(ds[..|ds| - 1]) * 10 + DigitValue(ds[|ds| - 1])
  }

  /** The number at the start of `u`: None (NaN) exactly when `u` does
      not start with a digit. */
  function ParseDigits(u: string): (r: Option<nat>)
    ensures r.None? <==> u == [] || !IsDigit(u[0])
  {
    var ds := DigitPrefix(u);
    if ds == [] then None else Some(DigitsValue(ds))
  }

  /** The text after one optional leading '-' or '+'. */
  function Unsigned(t: string): string {
    if t != [] && (t[0] == '-' || t[0] == '+') then t[1..] else t
  }

  /** The number after an optional sign: NaN (None) exactly when no digit
      follows the sign; a '-' gives a value at most zero, otherwise it is
      at least zero. */
  function ParseSigned(t: string): (r: Option<int>)
    ensures r.None? <==> Unsigned(t) == [] || !IsDigit(Unsigned(t)[0])
    ensures r.Some? && t[0] == '-' ==> r.value <= 0
    ensures r.Some? && t[0] != '-' ==> r.value >= 0
  {
    if t != [] && t[0] == '-' then
      match ParseDigits(t[1..])
      case None => None
      case Some(m) => Some(-(m as int))
    else if t != [] && t[0] == '+' then
      match ParseDigits(t[1..])
      case None => None
      case Some(m) => Some(m)
    else
      match ParseDigits(t)
      case None => None
      case Some(m) => Some(m)
  }

  /** `parseInt(s, 10)`: skip white space, take an optional sign, then the
      longest run of decimal digits; no digits at all gives NaN (None).
      A leading "0x" is not special in radix 10, and the value is exact
      (JavaScript rounds beyond 2^53). NaN exactly when, after the white
      space and one optional sign, the text does not start with a digit. */
  function ParseInt(s: string): (r: Option<int>)
    ensures r.None? <==> var u := Unsigned(TrimStart(s)); u == [] || !IsDigit(u[0])
  {
    ParseSigned(TrimStart(s))
  }

  /** The decimal digits of a natural number, without leading zeros. */
  function NatDigits(n: nat): (s: string)
    ensures |s| >= 1 && AllDigits(s)
  {
    if n < 10 then [DigitChar(n)] else NatDigits(n / 10) + [DigitChar(n % 10)]
  }

  /** `String(n)` for an integer `n`: how an id travels in a GraphQL `ID`
      argument or in a URL path. */
  function Decimal(n: int): (s: string)
    ensures s != [] && (IsDigit(s[0]) || s[0] == '-')
  {
    if n < 0 then "-" + NatDigits(-n) else NatDigits(n)
  }

  lemma {:induction false} NatDigitsValue(n: nat)
    ensures DigitsValue(NatDigits(n)) == n
  {
    if n >= 10 {
      var ds := NatDigits(n);
      assert ds[..|ds| - 1] == NatDigits(n / 10);
      NatDigitsValue(n / 10);
    }
  }

  /** A run of digits followed by something that is not a digit is read
      up to the first non-digit and no further. */
  lemma {:induction false} DigitPrefixStopsAtNonDigit(ds: string, rest: string)
    requires AllDigits(ds)
    requires rest == [] || !IsDigit(rest[0])
    ensures DigitPrefix(ds + rest) == ds
  {
    if ds != [] {
      assert (ds + rest)[1..] == ds[1..] + rest;
      DigitPrefixStopsAtNonDigit(ds[1..], rest);
    }
  }

  /** The digits of n, followed by a non-digit, read back as n. */
  lemma ParseDigitsOfNat(n: nat, rest: string)
    requires rest == [] || !IsDigit(rest[0])
    ensures ParseDigits(NatDigits(n) + rest) == Some(n)
  {
    DigitPrefixStopsAtNonDigit(NatDigits(n), rest);
    NatDigitsValue(n);
  }

  /** Text that does not start with white space is not trimmed. */
  lemma TrimStartOfNonSpace(s: string)
    requires s != [] && !IsWhiteSpace(s[0])
    ensures TrimStart(s) == s
  {
  }

  lemma ParseSignedOfMinus(u: string, v: nat)
    requires ParseDigits(u) == Some(v)
    ensures ParseSigned("-" + u) == Some(-(v as int))
  {
  }

  lemma ParseSignedOfPlus(u: string, v: nat)
    requires ParseDigits(u) == Some(v)
    ensures ParseSigned("+" + u) == Some(v)
  {
    assert ("+" + u)[1..] == u;
  }

  lemma ParseSignedOfNoSign(u: string, v: nat)
    requires ParseDigits(u) == Some(v)
    ensures ParseSigned(u) == Some(v)
  {
  }

  lemma ParseIntOfNegative(n: int, rest: string)
    requires n < 0
    requires rest == [] || !IsDigit(rest[0])
    ensures ParseInt(Decimal(n) + rest) == Some(n)
  {
    var u := NatDigits(-n) + rest;
    assert Decimal(n) + rest == ['-'] + u;
    TrimStartOfNonSpace(['-'] + u);
    ParseDigitsOfNat(-n, rest);
    ParseSignedOfMinus(u, -n);
  }

  lemma ParseIntOfNonNegative(n: nat, rest: string)
    requires rest == [] || !IsDigit(rest[0])
    ensures ParseInt(Decimal(n) + rest) == Some(n)
  {
    var s := NatDigits(n) + rest;
    assert Decimal(n) + rest == s;
    assert IsDigit(s[0]);
    TrimStartOfNonSpace(s);
    ParseDigitsOfNat(n, rest);
  }

  /** Round trip: `parseInt(String(n) + rest, 10) == n` whenever `rest`
      does not continue the number with another digit. */
  lemma ParseIntOfDecimal(n: int, rest: string)
    requires rest == [] || !IsDigit(rest[0])
    ensures ParseInt(Decimal(n) + rest) == Some(n)
  {
    if n < 0 {
      ParseIntOfNegative(n, rest);
    } else {
      ParseIntOfNonNegative(n, rest);
    }
  }

  /** parseInt inverts String on integers. */
  lemma ParseIntInvertsDecimal(n: int)
    ensures ParseInt(Decimal(n)) == Some(n)
  {
    ParseIntOfDecimal(n, []);
    assert Decimal(n) + [] == Decimal(n);
  }

  /** TrimStart removes a prefix made of white space and nothing else. */
  lemma {:induction false} TrimStartDropsWhiteSpace(s: string)
    ensures var k := |s| - |TrimStart(s)|;
            TrimStart(s) == s[k..] && forall i :: 0 <= i < k ==> IsWhiteSpace(s[i])
  {
    if s != [] && IsWhiteSpace(s[0]) {
      TrimStartDropsWhiteSpace(s[1..]);
      var k := |s| - |TrimStart(s)|;
      assert s[1..][k - 1..] == s[k..];
      forall i | 0 < i < k
        ensures IsWhiteSpace(s[i])
      {
        assert s[i] == s[1..][i - 1];
      }
    }
  }

  /** parseInt reads a numeric prefix and ignores what follows, so a path
      id such as "1abc" or "1.5" names message 1, and "0x1A" reads as 0. */
  lemma ParseIntReadsPrefix()
    ensures ParseInt("1abc") == Some(1)
    ensures ParseInt("1.5") == Some(1)
    ensures ParseInt("0x1A") == Some(0)
  {
  }

  /** A '+' sign and leading zeros are accepted. */
  lemma ParseIntAcceptsPlusAndZeros()
    ensures ParseInt("+007") == Some(7)
  {
    assert DigitsValue("007") == 7 by {
      assert "007"[..2] == "00" && "00"[..1] == "0" && "0"[..0] == "";
    }
    assert "+007" == "" + (SignText(Plus) + ("007" + ""));
    ParseIntOfDigits("", Plus, "007", "");
  }

  /** Leading white space and a '-' sign are accepted. */
  lemma ParseIntAcceptsSpaceAndMinus()
    ensures ParseInt(" -12px") == Some(-12)
  {
    assert DigitsValue("12") == 12 by {
      assert "12"[..1] == "1" && "1"[..0] == "";
    }
    assert " -12px" == " " + (SignText(Minus) + ("12" + "px"));
    ParseIntOfDigits(" ", Minus, "12", "px");
  }

  /** Without a digit after the sign there is no number: NaN. */
  lemma ParseIntRejects()
    ensures ParseInt("abc") == None
    ensures ParseInt("") == None
    ensures ParseInt("-") == None
  {
  }

  /** One sign at most, and the digits must follow it directly. */
  lemma ParseIntRejectsLooseSigns()
    ensures ParseInt("+ 1") == None
    ensures ParseInt("--1") == None
  {
  }

  lemma {:induction false} TrimStartSkipsWhiteSpace(ws: string, s: string)
    requires forall i :: 0 <= i < |ws| ==> IsWhiteSpace(ws[i])
    ensures TrimStart(ws + s) == TrimStart(s)
  {
    if ws != [] {
      assert (ws + s)[0] == ws[0] && IsWhiteSpace(ws[0]);
      assert (ws + s)[1..] == ws[1..] + s;
      assert TrimStart(ws + s) == TrimStart(ws[1..] + s);
      TrimStartSkipsWhiteSpace(ws[1..], s);
    } else {
      assert ws + s == s;
    }
  }

  /** Leading white space never changes what parseInt reads. */
  lemma ParseIntSkipsWhiteSpace(ws: string, s: string)
    requires forall i :: 0 <= i < |ws| ==> IsWhiteSpace(ws[i])
    ensures ParseInt(ws + s) == ParseInt(s)
  {
    TrimStartSkipsWhiteSpace(ws, s);
  }

  /** A run of digits followed by a non-digit reads as its value. */
  lemma ParseDigitsOfRun(ds: string, rest: string)
    requires ds != [] && AllDigits(ds)
    requires rest == [] || !IsDigit(rest[0])
    ensures ParseDigits(ds + rest) == Some(DigitsValue(ds))
  {
    DigitPrefixStopsAtNonDigit(ds, rest);
  }

  /** The optional sign in front of the digits. */
  datatype Sign = NoSign | Plus | Minus

  function SignText(sg: Sign): string {
    match sg
    case NoSign => ""
    case Plus => "+"
    case Minus => "-"
  }

  /** The value of a number of magnitude v under a sign. */
  function Signed(sg: Sign, v: nat): int {
    if sg == Minus then -(v as int) else v
  }

  /** An optional sign in front of a number reads as its signed value. */
  lemma ParseSignedOfSign(sg: Sign, u: string, v: nat)
    requires ParseDigits(u) == Some(v)
    ensures ParseSigned(SignText(sg) + u) == Some(Signed(sg, v))
  {
    match sg
    case Minus => ParseSignedOfMinus(u, v);
    case Plus => ParseSignedOfPlus(u, v);
    case NoSign =>
      assert SignText(sg) + u == u;
      ParseSignedOfNoSign(u, v);
  }

  /** A sign or a digit at the head: nothing is trimmed, only the sign step
      remains. */
  lemma ParseIntOfUntrimmed(t: string)
    requires t != [] && (IsDigit(t[0]) || t[0] == '-' || t[0] == '+')
    ensures ParseInt(t) == ParseSigned(t)
  {
    TrimStartOfNonSpace(t);
  }

  /** parseInt of white space, an optional sign, a run of digits (leading
      zeros allowed) and a continuation that is not a digit is the signed
      value of the digits. */
  lemma ParseIntOfDigits(ws: string, sg: Sign, ds: string, rest: string)
    requires forall i :: 0 <= i < |ws| ==> IsWhiteSpace(ws[i])
    requires ds != [] && AllDigits(ds)
    requires rest == [] || !IsDigit(rest[0])
    ensures ParseInt(ws + (SignText(sg) + (ds + rest))) == Some(Signed(sg, DigitsValue(ds)))
  {
    var u := ds + rest;
    var t := SignText(sg) + u;
    assert ParseSigned(t) == Some(Signed(sg, DigitsValue(ds))) by {
      ParseDigitsOfRun(ds, rest);
      ParseSignedOfSign(sg, u, DigitsValue(ds));
    }
    assert ParseInt(t) == ParseSigned(t) by {
      assert t[0] == if sg == NoSign then ds[0] else SignText(sg)[0];
      ParseIntOfUntrimmed(t);
    }
    ParseIntSkipsWhiteSpace(ws, t);
  }
}
