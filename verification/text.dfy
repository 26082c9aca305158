/**
 * The JavaScript string primitives the application relies on, restricted to
 * ASCII: `trim`, `toUpperCase`, `toLowerCase`, `substring(0, n)`, `parseInt`
 * and the decimal rendering of a number inside a template literal.
 */
module Text {
  import opened Base

  /** ASCII white space as `String.prototype.trim` and `parseInt` skip it:
      space, tab, line feed, vertical tab, form feed, carriage return. */
  predicate IsSpace(c: char) {
    c == ' ' || ('\t' <= c <= '\r')
  }

  /** True when the string holds nothing but white space, so that `s.trim()` is falsy. */
  predicate IsBlank(s: string) {
    forall i :: 0 <= i < |s| ==> IsSpace(s[i])
  }

  /** `s` without its leading white space. */
  function TrimStart(s: string): (r: string)
    ensures |r| <= |s| && r == s[|s| - |r|..]
    ensures forall i :: 0 <= i < |s| - |r| ==> IsSpace(s[i])
    ensures |r| > 0 ==> !IsSpace(r[0])
  {
    if |s| > 0 && IsSpace(s[0]) then TrimStart(s[1..]) else s
  }

  /** `s` without its trailing white space. */
  function TrimEnd(s: string): (r: string)
    ensures |r| <= |s| && r == s[..|r|]
    ensures forall i :: |r| <= i < |s| ==> IsSpace(s[i])
    ensures |r| > 0 ==> !IsSpace(r[|r| - 1])
  {
    if |s| > 0 && IsSpace(s[|s| - 1]) then TrimEnd(s[..|s| - 1]) else s
  }

  /** `s.trim()`: the slice of `s` left after its leading and trailing white
      space is cut off. It is empty exactly when `s` is blank, and otherwise
      neither starts nor ends with white space. */
  function Trim(s: string): (r: string)
    ensures r == [] <==> IsBlank(s)
    ensures |r| > 0 ==> !IsSpace(r[0]) && !IsSpace(r[|r| - 1])
    ensures |r| <= |TrimStart(s)| && r == s[|s| - |TrimStart(s)|..][..|r|]
    ensures forall i :: |s| - |TrimStart(s)| + |r| <= i < |s| ==> IsSpace(s[i])
  {
    TrimBlank(s);
    var t := TrimStart(s);
    var u := TrimEnd(t);
    assert u == t[..|u|];
    u
  }

  lemma TrimBlank(s: string)
    ensures TrimEnd(TrimStart(s)) == [] <==> IsBlank(s)
  {
    var t := TrimStart(s);
    if |t| == 0 {
      assert IsBlank(s);
    } else {
      var u := TrimEnd(t);
      assert t[0] == s[|s| - |t|];
      assert !IsSpace(t[0]);
      assert |u| > 0;
    }
  }

  predicate IsLowerLetter(c: char) { 'a' <= c <= 'z' }
  predicate IsUpperLetter(c: char) { 'A' <= c <= 'Z' }

  function UpperChar(c: char): char {
    if IsLowerLetter(c) then (c as int - 32) as char else c
  }

  function LowerChar(c: char): char {
    if IsUpperLetter(c) then (c as int + 32) as char else c
  }

  /** `s.toUpperCase()` on ASCII: no lower-case letter survives, and the
      string still compares equal to `s` case-insensitively. */
  function ToUpper(s: string): (r: string)
    ensures |r| == |s|
    ensures forall i :: 0 <= i < |r| ==> !IsLowerLetter(r[i])
    ensures forall i :: 0 <= i < |r| ==> LowerChar(r[i]) == LowerChar(s[i])
  {
    seq(|s|, i requires 0 <= i < |s| => UpperChar(s[i]))
  }

  /** `s.toLowerCase()` on ASCII: no upper-case letter survives, and the
      string still compares equal to `s` case-insensitively. */
  function ToLower(s: string): (r: string)
    ensures |r| == |s|
    ensures forall i :: 0 <= i < |r| ==> !IsUpperLetter(r[i])
    ensures forall i :: 0 <= i < |r| ==> UpperChar(r[i]) == UpperChar(s[i])
  {
    seq(|s|, i requires 0 <= i < |s| => LowerChar(s[i]))
  }

  /** `s.substring(0, n)`: the first `n` characters, or all of `s` when it is shorter. */
  function Prefix(s: string, n: nat): (r: string)
    ensures |r| == if |s| < n then |s| else n
    ensures r <= s
  {
    if |s| < n then s else s[..n]
  }

  predicate IsDigit(c: char) { '0' <= c <= '9' }

  function DigitChar(d: nat): (c: char)
    requires d < 10
    ensures IsDigit(c) && c as int - '0' as int == d
  {
    ('0' as int + d) as char
  }

  function DigitValue(c: char): (d: nat)
    requires IsDigit(c)
    ensures d < 10
  {
    c as int - '0' as int
  }

  /** The decimal rendering of a natural number, as `${n}` produces it. */
  function NatToString(n: nat): (r: string)
    ensures |r| > 0
    ensures forall i :: 0 <= i < |r| ==> IsDigit(r[i])
    ensures n < 10 ==> r == [DigitChar(n)]
  {
    if n < 10 then [DigitChar(n)] else NatToString(n / 10) + [DigitChar(n % 10)]
  }

  /** The longest prefix of `s` made of decimal digits. */
  function DigitPrefix(s: string): (r: string)
    ensures r <= s
    ensures forall i :: 0 <= i < |r| ==> IsDigit(r[i])
    ensures |r| < |s| ==> !IsDigit(s[|r|])
  {
    if |s| > 0 && IsDigit(s[0]) then [s[0]] + DigitPrefix(s[1..]) else []
  }

  /** The number a string of decimal digits denotes. */
  function DigitsValue(d: string): nat
    requires forall i :: 0 <= i < |d| ==> IsDigit(d[i])
  {
    if |d| == 0 then 0 else DigitsValue(d[..|d| - 1]) * 10 + DigitValue(d[|d| - 1])
  }

  /** `parseInt(s, 10)`: skip leading white space, read an optional sign and
      then as many decimal digits as there are; `None` stands for `NaN`, the
      result when no digit follows. */
  function ParseInt(s: string): (r: Option<int>)
    ensures r.None? <==> DigitPrefix(UnsignedPart(TrimStart(s))) == []
  {
    ParseSigned(TrimStart(s))
  }

  /** `parseInt` once the leading white space is gone: the sign, then the digits. */
  function ParseSigned(t: string): Option<int> {
    match Magnitude(UnsignedPart(t))
    case None => None
    case Some(m) => Some(if IsNegative(t) then -(m as int) else m)
  }

  /** The value of the digits that open `body`, or `None` when it opens with none. */
  function Magnitude(body: string): (m: Option<nat>)
    ensures m.None? <==> DigitPrefix(body) == []
  {
    var digits := DigitPrefix(body);
    if |digits| == 0 then None else Some(DigitsValue(digits))
  }

  predicate IsNegative(t: string) { |t| > 0 && t[0] == '-' }

  function UnsignedPart(t: string): string {
    if |t| > 0 && (t[0] == '-' || t[0] == '+') then t[1..] else t
  }

  /** The rendering of `n` denotes `n`. */
  lemma {:induction false} DigitsValueOfNatToString(n: nat)
    ensures DigitsValue(NatToString(n)) == n
  {
    if n >= 10 {
      var d := NatToString(n);
      assert d[..|d| - 1] == NatToString(n / 10);
      DigitsValueOfNatToString(n / 10);
    }
  }

  lemma {:induction false} DigitPrefixOfDigits(s: string)
    requires forall i :: 0 <= i < |s| ==> IsDigit(s[i])
    ensures DigitPrefix(s) == s
  {
    if |s| > 0 {
      DigitPrefixOfDigits(s[1..]);
    }
  }

  /** A string that starts with a non-space character has no leading white space to skip. */
  lemma {:induction false} TrimStartKeeps(s: string)
    requires |s| > 0 && !IsSpace(s[0])
    ensures TrimStart(s) == s
  {
  }

  /** `parseInt` of a non-empty string of decimal digits is the number they denote. */
  lemma {:induction false} ParseIntOfDigits(d: string)
    requires |d| > 0 && forall i :: 0 <= i < |d| ==> IsDigit(d[i])
    ensures ParseInt(d) == Some(DigitsValue(d))
  {
    MagnitudeOfDigits(d);
    NoSign(d);
    ParseSignedOf(d, DigitsValue(d));
    ParseIntOfUnspaced(d);
  }

  /** With a leading minus sign, `parseInt` gives the negated number. */
  lemma {:induction false} ParseIntOfNegatedDigits(d: string)
    requires |d| > 0 && forall i :: 0 <= i < |d| ==> IsDigit(d[i])
    ensures ParseInt("-" + d) == Some(-(DigitsValue(d) as int))
  {
    MagnitudeOfDigits(d);
    ParseIntOfMinusDigits(d, d);
  }

  /** A minus sign before a body that opens with the digits `d`: minus their value. */
  lemma {:induction false} ParseIntOfMinusDigits(body: string, d: string)
    requires |d| > 0 && forall i :: 0 <= i < |d| ==> IsDigit(d[i])
    requires Magnitude(body) == Some(DigitsValue(d))
    ensures ParseInt("-" + body) == Some(-(DigitsValue(d) as int))
  {
    ParseIntOfMinus(body, DigitsValue(d));
  }

  /** A minus sign before a body whose magnitude is `m` parses to `-m`. */
  lemma {:induction false} ParseIntOfMinus(body: string, m: int)
    requires Magnitude(body) == Some(m)
    ensures ParseInt("-" + body) == Some(-m)
  {
    MinusSign(body);
    ParseSignedOf("-" + body, m);
    ParseIntOfUnspaced("-" + body);
  }

  /** A string of digits, read as a magnitude, is the number it denotes. */
  lemma {:induction false} MagnitudeOfDigits(d: string)
    requires |d| > 0 && forall i :: 0 <= i < |d| ==> IsDigit(d[i])
    ensures Magnitude(d) == Some(DigitsValue(d))
  {
    DigitPrefixOfDigits(d);
  }

  /** The sign stage: the magnitude of the unsigned part, negated after a minus sign. */
  lemma {:induction false} ParseSignedOf(t: string, m: int)
    requires Magnitude(UnsignedPart(t)) == Some(m)
    ensures IsNegative(t) ==> ParseSigned(t) == Some(-m)
    ensures !IsNegative(t) ==> ParseSigned(t) == Some(m)
  {
  }

  /** Leading white space is skipped up to the first non-space character. */
  lemma {:induction false} TrimStartSkipsBlank(w: string, rest: string)
    requires IsBlank(w)
    requires rest == [] || !IsSpace(rest[0])
    ensures TrimStart(w + rest) == rest
    decreases |w|
  {
    if |w| == 0 {
      assert w + rest == rest;
    } else {
      assert (w + rest)[1..] == w[1..] + rest;
      TrimStartSkipsBlank(w[1..], rest);
    }
  }

  /** The digit prefix stops at the first character that is not a digit. */
  lemma {:induction false} DigitPrefixStopsAt(d: string, t: string)
    requires forall i :: 0 <= i < |d| ==> IsDigit(d[i])
    requires t == [] || !IsDigit(t[0])
    ensures DigitPrefix(d + t) == d
    decreases |d|
  {
    if |d| == 0 {
      assert d + t == t;
    } else {
      assert (d + t)[1..] == d[1..] + t;
      DigitPrefixStopsAt(d[1..], t);
    }
  }

  /** `parseInt` ignores leading white space. */
  lemma {:induction false} ParseIntSkipsBlank(w: string, rest: string)
    requires IsBlank(w)
    requires rest == [] || !IsSpace(rest[0])
    ensures ParseInt(w + rest) == ParseInt(rest)
  {
    TrimStartSkipsBlank(w, rest);
    TrimStartSkipsBlank([], rest);
    assert [] + rest == rest;
  }

  /** Text that opens with no white space goes straight to the sign and digits. */
  lemma {:induction false} ParseIntOfUnspaced(s: string)
    requires |s| > 0 && !IsSpace(s[0])
    ensures ParseInt(s) == ParseSigned(s)
  {
    TrimStartKeeps(s);
  }

  /** Digits followed by text that does not start with a digit: the digits' value. */
  lemma {:induction false} MagnitudeStopsAtNonDigit(d: string, t: string)
    requires |d| > 0 && forall i :: 0 <= i < |d| ==> IsDigit(d[i])
    requires t == [] || !IsDigit(t[0])
    ensures Magnitude(d + t) == Some(DigitsValue(d))
  {
    DigitPrefixStopsAt(d, t);
  }

  /** Digits followed by text that does not start with a digit parse to the
      number the digits denote. */
  lemma {:induction false} ParseIntStopsAtNonDigit(d: string, t: string)
    requires |d| > 0 && forall i :: 0 <= i < |d| ==> IsDigit(d[i])
    requires t == [] || !IsDigit(t[0])
    ensures ParseInt(d + t) == Some(DigitsValue(d))
  {
    MagnitudeStopsAtNonDigit(d, t);
    SignedRegroup([], d, t);
    NoSign(d + t);
    ParseSignedOf(d + t, DigitsValue(d));
    ParseIntOfUnspaced(d + t);
  }

  /** After a minus sign, the same digits parse to the negated number. */
  lemma {:induction false} ParseIntNegatedStopsAtNonDigit(d: string, t: string)
    requires |d| > 0 && forall i :: 0 <= i < |d| ==> IsDigit(d[i])
    requires t == [] || !IsDigit(t[0])
    ensures ParseInt("-" + (d + t)) == Some(-(DigitsValue(d) as int))
  {
    MagnitudeStopsAtNonDigit(d, t);
    ParseIntOfMinusDigits(d + t, d);
  }

  /** Text that opens with a digit has no sign and no leading white space. */
  lemma {:induction false} NoSign(body: string)
    requires |body| > 0 && IsDigit(body[0])
    ensures !IsSpace(body[0]) && !IsNegative(body) && UnsignedPart(body) == body
  {
  }

  /** A leading minus sign is read as the sign, and the rest as the body. */
  lemma {:induction false} MinusSign(body: string)
    ensures ("-" + body)[0] == '-'
    ensures IsNegative("-" + body) && UnsignedPart("-" + body) == body
  {
    assert ("-" + body)[1..] == body;
  }

  /** Regrouping of the text `w`, minus sign, `d`, `t`. */
  lemma {:induction false} SignedRegroup(w: string, d: string, t: string)
    requires |d| > 0
    ensures w + "-" + d + t == w + ("-" + (d + t))
    ensures w + d + t == w + (d + t)
    ensures (d + t)[0] == d[0]
  {
  }

  /** `parseInt` in general: after any leading white space, a run of digits
      followed by anything that does not start with a digit (a decimal point,
      an exponent, a letter, nothing) parses to the number the digits denote;
      the rest of the text is ignored. */
  lemma {:induction false} ParseIntReadsLeadingDigits(w: string, d: string, t: string)
    requires IsBlank(w)
    requires |d| > 0 && forall i :: 0 <= i < |d| ==> IsDigit(d[i])
    requires t == [] || !IsDigit(t[0])
    ensures ParseInt(w + d + t) == Some(DigitsValue(d))
  {
    SignedRegroup(w, d, t);
    ParseIntSkipsBlank(w, d + t);
    ParseIntStopsAtNonDigit(d, t);
  }

  /** The same with a minus sign before the digits: the negated number. */
  lemma {:induction false} ParseIntReadsNegatedDigits(w: string, d: string, t: string)
    requires IsBlank(w)
    requires |d| > 0 && forall i :: 0 <= i < |d| ==> IsDigit(d[i])
    requires t == [] || !IsDigit(t[0])
    ensures ParseInt(w + "-" + d + t) == Some(-(DigitsValue(d) as int))
  {
    SignedRegroup(w, d, t);
    MinusSign(d + t);
    ParseIntSkipsBlank(w, "-" + (d + t));
    ParseIntNegatedStopsAtNonDigit(d, t);
  }

  /** Round trip: `parseInt` reads back the decimal rendering of any natural number. */
  lemma ParseIntOfNatToString(n: nat)
    ensures ParseInt(NatToString(n)) == Some(n)
  {
    ParseIntOfDigits(NatToString(n));
    DigitsValueOfNatToString(n);
  }
}
