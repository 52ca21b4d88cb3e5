/** Shared values and the handful of JavaScript string and number operations
    the components rely on: `String.prototype.trim`, the decimal rendering of
    an integer, `padStart(2, "0")`, `parseInt(s, 10)`, `Math.floor` of a
    quotient and the truncating `%` operator. */
module Common {

  datatype Option<+T> = None | Some(value: T) {
    function GetOr(default: T): T {
      match this
      case Some(v) => v
      case None => default
    }
  }

  datatype Result<+T, +E> = Ok(value: T) | Err(error: E)

  /** The outcome of an awaited call that may throw. */
  datatype Awaited<+T> = Returned(value: T) | Threw

  // ---------------------------------------------------------------------------
  // Whitespace and trim()

  /** The characters `trim()` removes: ECMAScript WhiteSpace and LineTerminator. */
  predicate IsWhitespace(c: char) {
    c == ' ' || c == '\t' || c == '\n' || c == '\r' || c == '\U{B}' || c == '\U{C}'
    || c == '\U{A0}' || c == '\U{1680}' || ('\U{2000}' <= c <= '\U{200A}')
    || c == '\U{2028}' || c == '\U{2029}' || c == '\U{202F}' || c == '\U{205F}'
    || c == '\U{3000}' || c == '\U{FEFF}'
  }

  /** `s` with its leading whitespace removed. */
  function TrimStart(s: string): (r: string)
    ensures |r| <= |s| && r == s[|s| - |r|..]
    ensures forall i :: 0 <= i < |s| - |r| ==> IsWhitespace(s[i])
    ensures r == [] || !IsWhitespace(r[0])
  {
    if s != [] && IsWhitespace(s[0]) then TrimStart(s[1..]) else s
  }

  /** `s` with its trailing whitespace removed. */
  function TrimEnd(s: string): (r: string)
    ensures |r| <= |s| && r == s[..|r|]
    ensures forall i :: |r| <= i < |s| ==> IsWhitespace(s[i])
    ensures r == [] || !IsWhitespace(r[|r| - 1])
  {
    if s != [] && IsWhitespace(s[|s| - 1]) then TrimEnd(s[..|s| - 1]) else s
  }

  /** JavaScript's `s.trim()`. */
  function Trim(s: string): string {
    TrimEnd(TrimStart(s))
  }

  /** JavaScript's `!s.trim()`: the trimmed string is empty, hence falsy. */
  predicate IsBlank(s: string) {
    Trim(s) == ""
  }

  /** A string is blank exactly when every one of its characters is whitespace. */
  lemma BlankIffAllWhitespace(s: string)
    ensures IsBlank(s) <==> forall i :: 0 <= i < |s| ==> IsWhitespace(s[i])
  {
    var t := TrimStart(s);
    assert t != [] ==> t[0] == s[|s| - |t|];
  }

  // ---------------------------------------------------------------------------
  // Decimal digits

  predicate IsDigit(c: char) {
    '0' <= c <= '9'
  }

  predicate AllDigits(s: string) {
    forall i :: 0 <= i < |s| ==> IsDigit(s[i])
  }

  function DigitChar(d: nat): (c: char)
    requires d < 10
    ensures IsDigit(c) && DigitValue(c) == d
  {
    (('0' as int) + d) as char
  }

  function DigitValue(c: char): (d: nat)
    requires IsDigit(c)
    ensures d < 10
  {
    (c as int) - ('0' as int)
  }

  /** The number a string of decimal digits denotes (the empty string denotes 0). */
  function DigitsValue(s: string): nat
    requires AllDigits(s)
  {
    if s == [] then 0 else DigitsValue(s[..|s| - 1]) * 10 + DigitValue(s[|s| - 1])
  }

  /** The decimal rendering of a natural number, as `String(n)` gives it. */
  function NatToString(n: nat): (r: string)
    ensures |r| >= 1 && AllDigits(r)
    ensures r[0] == '0' ==> n == 0
    decreases n
  {
    if n < 10 then [DigitChar(n)] else NatToString(n / 10) + [DigitChar(n % 10)]
  }

  /** The decimal rendering of an integer, with a leading minus when negative. */
  function IntToString(i: int): (r: string)
    ensures |r| >= 1
    ensures i >= 0 ==> r == NatToString(i)
    ensures i < 0 ==> r == "-" + NatToString(-i)
  {
    if i < 0 then "-" + NatToString(-i) else NatToString(i)
  }

  /** Reading the rendering back gives the number: the rendering loses nothing. */
  lemma {:induction false} NatToStringRoundTrip(n: nat)
    ensures DigitsValue(NatToString(n)) == n
    decreases n
  {
    if n >= 10 {
      NatToStringRoundTrip(n / 10);
      var s := NatToString(n);
      assert s[..|s| - 1] == NatToString(n / 10);
    }
  }

  /** Different numbers have different renderings. */
  lemma NatToStringInjective(m: nat, n: nat)
    requires NatToString(m) == NatToString(n)
    ensures m == n
  {
    NatToStringRoundTrip(m);
    NatToStringRoundTrip(n);
  }

  /** JavaScript's `s.padStart(2, "0")`. */
  function PadTwo(s: string): (r: string)
    ensures |s| >= 2 ==> r == s
    ensures |s| < 2 ==> |r| == 2 && r[2 - |s|..] == s
    ensures forall i :: 0 <= i < 2 - |s| ==> r[i] == '0'
  {
    if |s| >= 2 then s else if |s| == 1 then "0" + s else "00"
  }

  // ---------------------------------------------------------------------------
  // Arithmetic as JavaScript does it

  /** `a % b` in JavaScript: the remainder takes the sign of the dividend. */
  function JsRem(a: int, b: int): (r: int)
    requires b > 0
    ensures a >= 0 ==> r == a % b && r < b
    ensures a < 0 ==> -b < r <= 0
  {
    if a >= 0 then a % b else -((-a) % b)
  }

  /** The minutes and seconds that `Math.floor(s / 60)` and `s % 60` give. */
  function MinutesSeconds(s: int): (r: (int, int))
    ensures s >= 0 ==> r.0 * 60 + r.1 == s && 0 <= r.0 && 0 <= r.1 < 60
    ensures s < 0 ==> r.0 < 0 && -60 < r.1 <= 0
  {
    (s / 60, JsRem(s, 60))
  }

  /** `${mins}:${secs.toString().padStart(2, "0")}` for `seconds`. */
  function FormatClock(seconds: int): string {
    var (mins, secs) := MinutesSeconds(seconds);
    IntToString(mins) + ":" + PadTwo(IntToString(secs))
  }

  /** Reads an "M:SS" clock string back as a number of seconds. */
  function ClockValue(t: string): Option<nat> {
    if |t| >= 4 && t[|t| - 3] == ':' && AllDigits(t[..|t| - 3]) && AllDigits(t[|t| - 2..])
       && DigitsValue(t[|t| - 2..]) < 60
    then Some(DigitsValue(t[..|t| - 3]) * 60 + DigitsValue(t[|t| - 2..]))
    else None
  }

  /** A non-negative clock renders with exactly two second digits, and reading
      it back gives the number of seconds it was rendered from. */
  lemma ClockRoundTrip(seconds: nat)
    ensures ClockValue(FormatClock(seconds)) == Some(seconds)
  {
    var (mins, secs) := MinutesSeconds(seconds);
    var m := NatToString(mins);
    var p := PadTwo(NatToString(secs));
    var t := m + ":" + p;
    assert FormatClock(seconds) == t;
    NatToStringRoundTrip(mins);
    PaddedSeconds(secs);
    assert t[..|t| - 3] == m;
    assert t[|t| - 2..] == p;
  }

  /** Seconds below a minute pad to two digits that read back as the seconds. */
  lemma PaddedSeconds(secs: nat)
    requires secs < 60
    ensures var p := PadTwo(NatToString(secs));
            |p| == 2 && AllDigits(p) && DigitsValue(p) == secs
  {
    var p := PadTwo(NatToString(secs));
    NatToStringRoundTrip(secs);
    if secs < 10 {
      assert p == ['0', DigitChar(secs)];
      assert p[..1] == ['0'];
      assert DigitsValue(p[..1]) == DigitsValue([]) * 10 + 0;
    } else {
      assert NatToString(secs) == NatToString(secs / 10) + [DigitChar(secs % 10)];
      assert p == NatToString(secs);
    }
  }

  // ---------------------------------------------------------------------------
  // parseInt(s, 10)

  /** The longest prefix of `s` made of decimal digits. */
  function LeadingDigits(s: string): (r: string)
    ensures AllDigits(r) && r <= s
    ensures |r| < |s| ==> !IsDigit(s[|r|])
  {
    if s != [] && IsDigit(s[0]) then [s[0]] + LeadingDigits(s[1..]) else []
  }

  /** JavaScript's `parseInt(s, 10)`; `None` stands for `NaN`. */
  function ParseInt(s: string): Option<int> {
    var t := TrimStart(s);
    var negative := t != [] && t[0] == '-';
    var body := if t != [] && (t[0] == '-' || t[0] == '+') then t[1..] else t;
    var digits := LeadingDigits(body);
    var value: int := if digits == [] then 0 else DigitsValue(digits);
    if digits == [] then None
    else if negative then Some(-value)
    else Some(value)
  }

  lemma {:induction false} LeadingDigitsOfDigits(d: string, rest: string)
    requires AllDigits(d)
    requires rest == [] || !IsDigit(rest[0])
    ensures LeadingDigits(d + rest) == d
    decreases |d|
  {
    if d != [] {
      assert (d + rest)[1..] == d[1..] + rest;
      LeadingDigitsOfDigits(d[1..], rest);
    }
  }

  /** `parseInt` reads back what `String(n)` wrote, whatever non-digit text follows. */
  lemma ParseIntRoundTrip(n: nat, rest: string)
    requires rest == [] || !IsDigit(rest[0])
    ensures ParseInt(NatToString(n) + rest) == Some(n)
  {
    var d := NatToString(n);
    var s := d + rest;
    assert s[0] == d[0];
    DigitIsNotWhitespace(s[0]);
    LeadingDigitsOfDigits(d, rest);
    NatToStringRoundTrip(n);
    assert TrimStart(s) == s;
  }

  /** The same for any integer: a minus sign is read back as a negative number. */
  lemma IntParseRoundTrip(i: int, rest: string)
    requires rest == [] || !IsDigit(rest[0])
    ensures ParseInt(IntToString(i) + rest) == Some(i)
  {
    if i >= 0 {
      ParseIntRoundTrip(i, rest);
    } else {
      var d := NatToString(-i);
      var s := "-" + d + rest;
      assert s == "-" + (d + rest);
      assert !IsWhitespace(s[0]);
      assert TrimStart(s) == s;
      assert s[1..] == d + rest;
      LeadingDigitsOfDigits(d, rest);
      NatToStringRoundTrip(-i);
    }
  }

  /** Reads an integer numeral, an optional minus sign and its digits, at the
      start of `s`, giving its value and the text after it. */
  function ReadInt(s: string): (r: Option<(int, string)>)
    ensures r.Some? ==> |r.value.1| < |s| && r.value.1 == s[|s| - |r.value.1|..]
  {
    var negative := s != [] && s[0] == '-';
    var body := if negative then s[1..] else s;
    var digits := LeadingDigits(body);
    if digits == [] then None
    else
      var value: int := DigitsValue(digits);
      Some((if negative then -value else value, body[|digits|..]))
  }

  /** What `IntToString` writes is read back, and the rest is left as it was. */
  lemma ReadIntRoundTrip(i: int, rest: string)
    requires rest == [] || !IsDigit(rest[0])
    ensures ReadInt(IntToString(i) + rest) == Some((i, rest))
  {
    if i < 0 {
      assert IntToString(i) + rest == "-" + (NatToString(-i) + rest);
      ReadNegativeRoundTrip(-i, rest);
    } else {
      ReadNatRoundTrip(i, rest);
    }
  }

  lemma ReadNatRoundTrip(n: nat, rest: string)
    requires rest == [] || !IsDigit(rest[0])
    ensures ReadInt(NatToString(n) + rest) == Some((n, rest))
  {
    var s := NatToString(n) + rest;
    assert s[0] == NatToString(n)[0];
    DigitsThenRest(n, rest);
  }

  lemma ReadNegativeRoundTrip(n: nat, rest: string)
    requires rest == [] || !IsDigit(rest[0])
    ensures ReadInt("-" + (NatToString(n) + rest)) == Some((0 - n, rest))
  {
    var s := "-" + (NatToString(n) + rest);
    assert s[1..] == NatToString(n) + rest;
    DigitsThenRest(n, rest);
  }

  lemma DigitsThenRest(n: nat, rest: string)
    requires rest == [] || !IsDigit(rest[0])
    ensures var s := NatToString(n) + rest;
            LeadingDigits(s) == NatToString(n) && s[|NatToString(n)|..] == rest
            && DigitsValue(LeadingDigits(s)) == n
  {
    LeadingDigitsOfDigits(NatToString(n), rest);
    NatToStringRoundTrip(n);
  }

  lemma DigitIsNotWhitespace(c: char)
    requires IsDigit(c)
    ensures !IsWhitespace(c) && c != '-' && c != '+'
  {
  }

  /** A decimal rendering followed by text that does not start with a digit
      splits back uniquely into the number and the text. */
  lemma DecimalPrefixInjective(a: nat, x: string, b: nat, y: string)
    requires x == [] || !IsDigit(x[0])
    requires y == [] || !IsDigit(y[0])
    requires NatToString(a) + x == NatToString(b) + y
    ensures a == b && x == y
  {
    LeadingDigitsOfDigits(NatToString(a), x);
    LeadingDigitsOfDigits(NatToString(b), y);
    NatToStringInjective(a, b);
    var s := NatToString(a) + x;
    assert x == s[|NatToString(a)|..];
    assert y == s[|NatToString(b)|..];
  }

  /** `s` ends with `q`. */
  predicate EndsWith<T(==)>(s: seq<T>, q: seq<T>) {
    |q| <= |s| && s[|s| - |q|..] == q
  }

  lemma EndsWithAppend<T>(p: seq<T>, s: seq<T>, q: seq<T>)
    requires EndsWith(s, q)
    ensures EndsWith(p + s, q)
  {
    assert (p + s)[|p + s| - |q|..] == s[|s| - |q|..];
  }

  // ---------------------------------------------------------------------------
  // Subsequences

  /** `a` is `b` with some elements left out, the rest kept in order. */
  predicate SubsequenceOf<T(==)>(a: seq<T>, b: seq<T>)
    decreases |b|
  {
    a == [] || (b != [] && ((a[0] == b[0] && SubsequenceOf(a[1..], b[1..])) || SubsequenceOf(a, b[1..])))
  }
}
