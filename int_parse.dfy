/**
 * `parseInt(s, 10)` of ECMAScript, as the facade's `status` uses it:
 * skip leading white space, take an optional sign, then the longest
 * prefix of decimal digits; no digit at all gives NaN (here `None`).
 * The integer is unbounded: very long digit strings that JavaScript
 * rounds or turns into Infinity are not modelled.
 */
module IntParse {
  import opened Wrappers

  /** StrWhiteSpaceChar: the WhiteSpace and LineTerminator code points. */
  predicate IsWhiteSpace(c: char) {
    || c == '\t' || c == '\n' || c == '\U{000B}' || c == '\U{000C}' || c == '\r'
    || c == ' ' || c == '\U{00A0}' || c == '\U{1680}' || '\U{2000}' <= c <= '\U{200A}'
    || c == '\U{2028}' || c == '\U{2029}' || c == '\U{202F}' || c == '\U{205F}'
    || c == '\U{3000}' || c == '\U{FEFF}'
  }

  /** A radix-10 digit: only the ASCII digits count. */
  predicate IsDigit(c: char) {
    '0' <= c <= '9'
  }

  predicate AllDigits(s: string) {
    forall i :: 0 <= i < |s| ==> IsDigit(s[i])
  }

  /** The value of a digit character; `c - '0'` as an integer. */
  function DigitValue(c: char): (d: int)
    ensures IsDigit(c) ==> 0 <= d < 10
  {
    c as int - '0' as int
  }

  function DigitChar(d: nat): (c: char)
    requires d < 10
    ensures IsDigit(c) && DigitValue(c) == d
  {
    ('0' as int + d) as char
  }

  /** The longest prefix of `s` made of digits. */
  function DigitPrefix(s: string): string {
    if |s| > 0 && IsDigit(s[0]) then [s[0]] + DigitPrefix(s[1..]) else []
  }

  /** The digits parseInt reads are a prefix of the input, all digits, and as many as there are. */
  lemma {:induction false} DigitPrefixSpec(s: string)
    ensures DigitPrefix(s) <= s && AllDigits(DigitPrefix(s))
    ensures |DigitPrefix(s)| == |s| || !IsDigit(s[|DigitPrefix(s)|])
  {
    if |s| > 0 && IsDigit(s[0]) {
      DigitPrefixSpec(s[1..]);
    }
  }

  /** The number a digit string denotes, most significant digit first. */
  function DigitsValue(d: string): int {
    if d == [] then 0 else DigitsValue(d[..|d| - 1]) * 10 + DigitValue(d[|d| - 1])
  }

  /** The value of the longest digit prefix, or NaN when there is none. */
  function ParseDigits(u: string): Option<int> {
    var d := DigitPrefix(u);
    if d == [] then None else Some(DigitsValue(d))
  }

  /** An optional sign followed by digits; `t` has no leading white space. */
  function ParseSigned(t: string): Option<int> {
    if |t| > 0 && t[0] == '-' then
      match ParseDigits(t[1..])
      case None => None
      case Some(v) => Some(-v)
    else if |t| > 0 && t[0] == '+' then ParseDigits(t[1..])
    else ParseDigits(t)
  }

  /**
   * parseInt(s, 10) followed by Number.isInteger: leading white space is
   * skipped, then the sign and digits are read; `None` is NaN.
   */
  function ParseInt(s: string): Option<int> {
    if s != [] && IsWhiteSpace(s[0]) then ParseInt(s[1..]) else ParseSigned(s)
  }

  /** The decimal digits of a natural number, without leading zeros. */
  function NatDigits(n: nat): (s: string)
    ensures |s| > 0 && AllDigits(s)
    ensures n > 0 ==> s[0] != '0'
    decreases n
  {
    if n < 10 then [DigitChar(n)] else NatDigits(n / 10) + [DigitChar(n % 10)]
  }

  function Magnitude(n: int): (m: nat)
    ensures n < 0 ==> m == -n
    ensures n >= 0 ==> m == n
  {
    if n < 0 then -n else n
  }

  /** How JavaScript writes an integer as a string (String(n)). */
  function Decimal(n: int): string {
    (if n < 0 then "-" else "") + NatDigits(Magnitude(n))
  }

  lemma {:induction false} NatDigitsValue(n: nat)
    ensures DigitsValue(NatDigits(n)) == n
    decreases n
  {
    if n >= 10 {
      var s := NatDigits(n);
      assert s[..|s| - 1] == NatDigits(n / 10);
      NatDigitsValue(n / 10);
    }
  }

  lemma {:induction false} DigitPrefixOfDigits(d: string, rest: string)
    requires AllDigits(d)
    requires rest == [] || !IsDigit(rest[0])
    ensures DigitPrefix(d + rest) == d
  {
    if d != [] {
      assert (d + rest)[1..] == d[1..] + rest;
      DigitPrefixOfDigits(d[1..], rest);
    } else {
      assert d + rest == rest;
    }
  }

  lemma ParseDigitsOfNat(n: nat, rest: string)
    requires rest == [] || !IsDigit(rest[0])
    ensures ParseDigits(NatDigits(n) + rest) == Some(n)
  {
    DigitPrefixOfDigits(NatDigits(n), rest);
    NatDigitsValue(n);
  }

  lemma ParseUnsigned(u: string)
    requires u != [] && IsDigit(u[0])
    ensures ParseInt(u) == ParseDigits(u)
  {
  }

  lemma ParseNegative(u: string, v: int)
    requires ParseDigits(u) == Some(v)
    ensures ParseInt("-" + u) == Some(-v)
  {
    assert ("-" + u)[0] == '-' && ("-" + u)[1..] == u;
  }

  lemma ParsePositive(u: string)
    ensures ParseInt("+" + u) == ParseDigits(u)
  {
    assert ("+" + u)[0] == '+' && ("+" + u)[1..] == u;
  }

  lemma ParseNatDigits(m: nat, rest: string)
    requires rest == [] || !IsDigit(rest[0])
    ensures ParseInt(NatDigits(m) + rest) == Some(m)
  {
    var u := NatDigits(m) + rest;
    ParseDigitsOfNat(m, rest);
    assert u[0] == NatDigits(m)[0];
    ParseUnsigned(u);
  }

  /** How the decimal form of an integer begins: a minus sign exactly when it is negative. */
  lemma DecimalShape(n: int, rest: string)
    ensures n < 0 ==> Decimal(n) + rest == "-" + (NatDigits(Magnitude(n)) + rest)
    ensures n >= 0 ==> Decimal(n) + rest == NatDigits(n) + rest
  {
    if n < 0 {
      assert Decimal(n) == "-" + NatDigits(Magnitude(n));
    } else {
      assert Decimal(n) == NatDigits(n);
    }
  }

  /** A minus sign, the digits of `m`, then anything that is not a digit: parses to -m. */
  lemma ParseNegatedNatDigits(x: string, m: nat, rest: string)
    requires rest == [] || !IsDigit(rest[0])
    requires x == "-" + (NatDigits(m) + rest)
    ensures ParseInt(x) == Some(-(m as int))
  {
    ParseNatDigits(m, rest);
    ParseIntMinus(NatDigits(m) + rest, m);
  }

  /**
   * Round trip: parsing the decimal form of any integer gives it back,
   * and whatever follows the digits (if it does not start with a digit) is ignored.
   */
  lemma ParseIntDecimal(n: int, rest: string)
    requires rest == [] || !IsDigit(rest[0])
    ensures ParseInt(Decimal(n) + rest) == Some(n)
  {
    DecimalShape(n, rest);
    if n < 0 {
      ParseNegatedNatDigits(Decimal(n) + rest, Magnitude(n), rest);
    } else {
      ParseNatDigits(n, rest);
    }
  }

  /** Leading white space never changes the result. */
  lemma {:induction false} ParseIntSkipsWhiteSpace(w: string, s: string)
    requires forall i :: 0 <= i < |w| ==> IsWhiteSpace(w[i])
    ensures ParseInt(w + s) == ParseInt(s)
  {
    if w == [] {
      assert w + s == s;
    } else {
      assert (w + s)[0] == w[0];
      assert (w + s)[1..] == w[1..] + s;
      ParseIntSkipsWhiteSpace(w[1..], s);
    }
  }

  /** A string that starts with a digit is a number. */
  lemma ParseIntDigitFirst(s: string)
    requires |s| > 0 && IsDigit(s[0])
    ensures ParseInt(s).Some?
  {
    ParseUnsigned(s);
  }

  /** A minus sign before a run of digits negates the value those digits parse to. */
  lemma ParseIntMinus(s: string, v: int)
    requires |s| > 0 && IsDigit(s[0])
    requires ParseInt(s) == Some(v)
    ensures ParseInt("-" + s) == Some(-v)
  {
    ParseUnsigned(s);
    ParseNegative(s, v);
  }

  /** A plus sign before a run of digits changes nothing. */
  lemma ParseIntPlus(s: string)
    requires |s| > 0 && IsDigit(s[0])
    ensures ParseInt("+" + s) == ParseInt(s)
  {
    ParseUnsigned(s);
    ParsePositive(s);
  }

  /** Without a digit anywhere in the string there is no integer. */
  lemma {:induction false} ParseIntNeedsDigit(s: string)
    requires ParseInt(s).Some?
    ensures exists i :: 0 <= i < |s| && IsDigit(s[i])
  {
    if s != [] && IsWhiteSpace(s[0]) {
      ParseIntNeedsDigit(s[1..]);
      var i :| 0 <= i < |s[1..]| && IsDigit(s[1..][i]);
      assert IsDigit(s[i + 1]);
    } else if s != [] && (s[0] == '-' || s[0] == '+') {
      assert |s| > 1 && IsDigit(s[1]);
    } else {
      assert IsDigit(s[0]);
    }
  }

  /**
   * A string whose first character is neither white space, a sign nor a
   * digit is not a number; the strings JavaScript gives for `undefined`
   * and `null` are such strings.
   */
  lemma ParseIntRejects(s: string)
    requires s == [] || (!IsWhiteSpace(s[0]) && !IsDigit(s[0]) && s[0] != '-' && s[0] != '+')
    ensures ParseInt(s) == None
  {
  }
}
