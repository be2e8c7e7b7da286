/** Python string operations the pipeline relies on: `str.strip`, `str.lstrip`,
    `str.strip(chars)`, `str.split(sep)`, `str.find`, `str.startswith`, and the
    decimal conversions behind `str(int)`, `int(str)` and `float(str)`.
    Strings are sequences of Unicode scalar values, as Python's `str` is a
    sequence of code points, so `|s|` is Python's `len(s)`. */
module Text {

  import opened Wrappers

  /** The characters for which Python's `str.isspace()` holds: the set that
      `str.strip()` and `str.lstrip()` remove when called without arguments. */
  const Whitespace: set<char> := {
    '\t', '\n', '\U{B}', '\U{C}', '\r', '\U{1C}', '\U{1D}', '\U{1E}', '\U{1F}',
    ' ', '\U{85}', '\U{A0}', '\U{1680}',
    '\U{2000}', '\U{2001}', '\U{2002}', '\U{2003}', '\U{2004}', '\U{2005}',
    '\U{2006}', '\U{2007}', '\U{2008}', '\U{2009}', '\U{200A}',
    '\U{2028}', '\U{2029}', '\U{202F}', '\U{205F}', '\U{3000}'
  }

  /** `s.lstrip(chars)`: drop the longest prefix made of characters in `d`. */
  function LStripChars(s: string, d: set<char>): string {
    if |s| > 0 && s[0] in d then LStripChars(s[1..], d) else s
  }

  /** `s.rstrip(chars)`: drop the longest suffix made of characters in `d`. */
  function RStripChars(s: string, d: set<char>): string {
    if |s| > 0 && s[|s| - 1] in d then RStripChars(s[..|s| - 1], d) else s
  }

  /** `s.strip(chars)` */
  function StripChars(s: string, d: set<char>): string {
    RStripChars(LStripChars(s, d), d)
  }

  /** Left stripping keeps a suffix, drops only characters in `d`, and stops
      at the first character outside `d`. */
  lemma {:induction false} LStripCharsFacts(s: string, d: set<char>)
    ensures var r := LStripChars(s, d);
      && |r| <= |s| && r == s[|s| - |r|..]
      && (r == [] || r[0] !in d)
      && (forall i :: 0 <= i < |s| - |r| ==> s[i] in d)
    decreases |s|
  {
    if |s| > 0 && s[0] in d {
      LStripCharsFacts(s[1..], d);
    }
  }

  /** Right stripping keeps a prefix, drops only characters in `d`, and stops
      at the last character outside `d`. */
  lemma {:induction false} RStripCharsFacts(s: string, d: set<char>)
    ensures var r := RStripChars(s, d);
      && |r| <= |s| && r == s[..|r|]
      && (r == [] || r[|r| - 1] !in d)
      && (forall i :: |r| <= i < |s| ==> s[i] in d)
    decreases |s|
  {
    if |s| > 0 && s[|s| - 1] in d {
      RStripCharsFacts(s[..|s| - 1], d);
    }
  }

  /** Stripping keeps the infix that starts where left stripping stops, and
      neither end of that infix is in `d`. */
  lemma StripCharsFacts(s: string, d: set<char>)
    ensures |LStripChars(s, d)| <= |s|
    ensures var a := |s| - |LStripChars(s, d)|; var r := StripChars(s, d);
      && a + |r| <= |s| && r == s[a..a + |r|]
      && (r == [] || (r[0] !in d && r[|r| - 1] !in d))
  {
    LStripCharsFacts(s, d);
    var l := LStripChars(s, d);
    RStripCharsFacts(l, d);
    var r := StripChars(s, d);
    var a := |s| - |l|;
    assert r == l[..|r|];
    if r != [] {
      assert r[0] == l[0];
    }
  }

  /** Left stripping passes over a prefix made of dropped characters. */
  lemma {:induction false} LStripCharsPrefix(p: string, s: string, d: set<char>)
    requires forall i :: 0 <= i < |p| ==> p[i] in d
    ensures LStripChars(p + s, d) == LStripChars(s, d)
  {
    if p == [] {
      assert p + s == s;
    } else {
      assert (p + s)[0] == p[0] && (p + s)[1..] == p[1..] + s;
      LStripCharsPrefix(p[1..], s, d);
    }
  }

  /** Right stripping passes over a suffix made of dropped characters. */
  lemma {:induction false} RStripCharsSuffix(s: string, p: string, d: set<char>)
    requires forall i :: 0 <= i < |p| ==> p[i] in d
    ensures RStripChars(s + p, d) == RStripChars(s, d)
  {
    if p == [] {
      assert s + p == s;
    } else {
      assert (s + p)[|s + p| - 1] == p[|p| - 1] && (s + p)[..|s + p| - 1] == s + p[..|p| - 1];
      RStripCharsSuffix(s, p[..|p| - 1], d);
    }
  }

  /** A string without dropped characters keeps all of them when stripped,
      whatever dropped characters surround it. */
  lemma StripCharsSurrounded(p: string, s: string, q: string, d: set<char>)
    requires forall i :: 0 <= i < |p| ==> p[i] in d
    requires forall i :: 0 <= i < |q| ==> q[i] in d
    requires forall i :: 0 <= i < |s| ==> s[i] !in d
    ensures StripChars(p + s + q, d) == s
  {
    assert p + s + q == p + (s + q);
    LStripCharsPrefix(p, s + q, d);
    if s == [] {
      assert s + q == q;
      LStripAllDropped(q, d);
    } else {
      assert LStripChars(s + q, d) == s + q;
      RStripCharsSuffix(s, q, d);
    }
  }

  /** `s.strip()` */
  function Strip(s: string): string {
    StripChars(s, Whitespace)
  }

  /** `s.lstrip()` */
  function LStrip(s: string): string {
    LStripChars(s, Whitespace)
  }

  /** `not s.strip()`: the string is empty or made only of whitespace. */
  predicate IsBlank(s: string) {
    Strip(s) == ""
  }

  lemma {:induction false} LStripAllDropped(s: string, d: set<char>)
    requires forall i :: 0 <= i < |s| ==> s[i] in d
    ensures LStripChars(s, d) == ""
    decreases |s|
  {
    if |s| > 0 {
      LStripAllDropped(s[1..], d);
    }
  }

  /** A string is blank exactly when every one of its characters is whitespace. */
  lemma BlankIffAllWhitespace(s: string)
    ensures IsBlank(s) <==> forall i :: 0 <= i < |s| ==> s[i] in Whitespace
  {
    if forall i :: 0 <= i < |s| ==> s[i] in Whitespace {
      LStripAllDropped(s, Whitespace);
    } else {
      LStripCharsFacts(s, Whitespace);
      RStripCharsFacts(LStripChars(s, Whitespace), Whitespace);
    }
  }

  /** Stripping keeps an infix of the string, so it adds no character. */
  lemma StripInfix(s: string)
    ensures forall c :: c in Strip(s) ==> c in s
  {
    StripCharsFacts(s, Whitespace);
  }

  /** Stripping twice is stripping once. */
  lemma StripIdempotent(s: string)
    ensures Strip(Strip(s)) == Strip(s)
  {
    StripCharsFacts(s, Whitespace);
    StripUnchanged(Strip(s), Whitespace);
  }

  /** A string that neither starts nor ends with a dropped character is left
      unchanged by stripping. */
  lemma StripUnchanged(s: string, d: set<char>)
    requires s == [] || (s[0] !in d && s[|s| - 1] !in d)
    ensures StripChars(s, d) == s
  {
  }

  function StartsWith(s: string, prefix: string): bool {
    |prefix| <= |s| && s[..|prefix|] == prefix
  }

  /** `pat` occurs in `s` at index `k`. */
  predicate OccursAt(s: string, pat: string, k: nat) {
    k + |pat| <= |s| && s[k..k + |pat|] == pat
  }

  /** Python's `s.find(pat, start)`: the lowest index at or after `start` at
      which `pat` occurs, or -1 when there is none. */
  function Find(s: string, pat: string, start: nat): (r: int)
    ensures r == -1 || (start <= r && OccursAt(s, pat, r))
    ensures r >= 0 ==> forall k: nat :: start <= k < r ==> !OccursAt(s, pat, k)
    ensures r == -1 ==> forall k: nat :: start <= k ==> !OccursAt(s, pat, k)
    decreases |s| - start
  {
    if start + |pat| > |s| then -1
    else if s[start..start + |pat|] == pat then start
    else Find(s, pat, start + 1)
  }

  // ---------------------------------------------------------------------
  // Splitting and joining on a one-character separator

  /** Python's `s.split(sep)` for a one-character separator: the maximal
      separator-free pieces between occurrences of `sep`; never empty. */
  function Split(s: string, sep: char): (parts: seq<string>)
    ensures |parts| >= 1
    ensures forall k :: 0 <= k < |parts| ==> sep !in parts[k]
  {
    if s == [] then [""]
    else
      var rest := Split(s[1..], sep);
      if s[0] == sep then [""] + rest
      else [[s[0]] + rest[0]] + rest[1..]
  }

  /** `sep.join(parts)` */
  function Join(parts: seq<string>, sep: char): string {
    if parts == [] then ""
    else if |parts| == 1 then parts[0]
    else parts[0] + [sep] + Join(parts[1..], sep)
  }

  /** Joining the pieces of a split gives back the original string. */
  lemma {:induction false} JoinSplit(s: string, sep: char)
    ensures Join(Split(s, sep), sep) == s
  {
    if s != [] {
      var rest := Split(s[1..], sep);
      JoinSplit(s[1..], sep);
      if s[0] == sep {
        assert Split(s, sep) == [""] + rest;
      } else {
        var parts := Split(s, sep);
        assert parts[0] == [s[0]] + rest[0];
        if |rest| == 1 {
          assert parts == [[s[0]] + rest[0]];
        } else {
          assert parts[1..] == rest[1..];
          assert Join(parts, sep) == [s[0]] + rest[0] + [sep] + Join(rest[1..], sep);
        }
      }
    }
  }

  /** Splitting a join of separator-free pieces gives back the pieces. */
  lemma {:induction false} SplitJoin(parts: seq<string>, sep: char)
    requires |parts| >= 1
    requires forall k :: 0 <= k < |parts| ==> sep !in parts[k]
    ensures Split(Join(parts, sep), sep) == parts
    decreases |parts|, |parts[0]|
  {
    var s := Join(parts, sep);
    if parts[0] == [] {
      if |parts| > 1 {
        assert s == [sep] + Join(parts[1..], sep);
        assert s[1..] == Join(parts[1..], sep);
        SplitJoin(parts[1..], sep);
      }
    } else {
      var shorter := [parts[0][1..]] + parts[1..];
      assert shorter[1..] == parts[1..];
      assert forall k :: 0 <= k < |shorter| ==> sep !in shorter[k] by {
        assert forall c :: c in parts[0][1..] ==> c in parts[0];
      }
      if |parts| == 1 {
        assert s[1..] == Join(shorter, sep);
      } else {
        assert s[1..] == Join(shorter, sep);
      }
      SplitJoin(shorter, sep);
      assert s[0] == parts[0][0] && s[0] != sep;
      assert [s[0]] + parts[0][1..] == parts[0];
    }
  }

  // ---------------------------------------------------------------------
  // Decimal digits

  predicate IsDigit(c: char) {
    '0' <= c <= '9'
  }

  function DigitValue(c: char): nat
    requires IsDigit(c)
  {
    (c as int) - ('0' as int)
  }

  function DigitChar(d: nat): (c: char)
    requires d < 10
    ensures IsDigit(c) && DigitValue(c) == d
  {
    (('0' as int) + d) as char
  }

  predicate AllDigits(s: string) {
    forall i :: 0 <= i < |s| ==> IsDigit(s[i])
  }

  /** The value of a string of decimal digits, most significant first. */
  function DigitsValue(s: string): nat
    requires AllDigits(s)
  {
    if s == [] then 0 else DigitsValue(s[..|s| - 1]) * 10 + DigitValue(s[|s| - 1])
  }

  /** The decimal numeral of a natural number, without leading zeros. */
  function NatToString(n: nat): string {
    if n < 10 then [DigitChar(n)] else NatToString(n / 10) + [DigitChar(n % 10)]
  }

  /** The numeral is a non-empty digit string with no leading zero whose
      value is `n`. */
  lemma {:induction false} NatToStringFacts(n: nat)
    ensures var r := NatToString(n);
      && |r| >= 1 && AllDigits(r)
      && DigitsValue(r) == n
      && (|r| > 1 ==> r[0] != '0')
  {
    if n >= 10 {
      NatToStringFacts(n / 10);
      var r := NatToString(n);
      assert r[..|r| - 1] == NatToString(n / 10);
    }
  }

  /** `str(n)` for a Python int. */
  function IntToString(n: int): string {
    if n < 0 then "-" + NatToString(-n) else NatToString(n)
  }

  /** The optional sign and the rest of a numeral. */
  function SignOf(t: string): (int, string) {
    if |t| > 0 && (t[0] == '-' || t[0] == '+') then (if t[0] == '-' then -1 else 1, t[1..])
    else (1, t)
  }

  /** `int(s)` for a Python string: surrounding whitespace, an optional sign,
      then one or more decimal digits; anything else raises `ValueError`,
      modelled as `None`. */
  function ParseInt(s: string): Option<int>
  {
    var (sign, body) := SignOf(Strip(s));
    if |body| > 0 && AllDigits(body) then Some(sign * DigitsValue(body)) else None
  }

  function Pow10(k: nat): (r: nat)
    ensures r >= 1
  {
    if k == 0 then 1 else 10 * Pow10(k - 1)
  }

  /** The value of an unsigned positional numeral: digits with at most one
      decimal point and at least one digit in all. */
  function DecimalValue(body: string): Option<real> {
    var dot := Find(body, ".", 0);
    if dot < 0 then PointValue(body, "")
    else PointValue(body[..dot], body[dot + 1..])
  }

  /** The value of the digits `whole` before the point and `frac` after it. */
  function PointValue(whole: string, frac: string): Option<real> {
    if |whole| + |frac| > 0 && AllDigits(whole) && AllDigits(frac) then
      Some(DigitsValue(whole) as real + FractionValue(frac))
    else None
  }

  /** The value of the digits after the point. */
  function FractionValue(frac: string): real
    requires AllDigits(frac)
  {
    DigitsValue(frac) as real / Pow10(|frac|) as real
  }

  /** `float(s)` for a Python string written in positional decimal notation:
      surrounding whitespace, an optional sign, then an unsigned numeral. */
  function ParseFloat(s: string): Option<real> {
    var (sign, body) := SignOf(Strip(s));
    match DecimalValue(body)
    case Some(v) => Some(sign as real * v)
    case None => None
  }

  lemma DecimalValueOfDigits(digits: string)
    requires |digits| > 0 && AllDigits(digits)
    ensures DecimalValue(digits) == Some(DigitsValue(digits) as real)
  {
    NoDotInDigits(digits, 0);
    assert FractionValue("") == 0.0;
  }

  lemma NumeralEnds(n: int)
    ensures var s := IntToString(n); |s| > 0 && s[0] !in Whitespace && s[|s| - 1] !in Whitespace
  {
    var s := IntToString(n);
    var digits := NatToString(if n < 0 then -n else n);
    NatToStringFacts(if n < 0 then -n else n);
    assert IsDigit(digits[|digits| - 1]);
    assert s[|s| - 1] == digits[|digits| - 1];
    assert s[0] == '-' || IsDigit(s[0]);
  }

  lemma StripNumeral(n: int)
    ensures Strip(IntToString(n)) == IntToString(n)
  {
    NumeralEnds(n);
    StripUnchanged(IntToString(n), Whitespace);
  }

  /** `int(str(n)) == n`: rendering then parsing an integer is the identity. */
  lemma ParseIntRoundTrip(n: int)
    ensures ParseInt(IntToString(n)) == Some(n)
  {
    NumeralSign(n);
  }

  /** A rendered integer splits into its sign and the digits of its magnitude. */
  lemma NumeralSign(n: int)
    ensures var digits := NatToString(if n < 0 then -n else n);
      && Strip(IntToString(n)) == IntToString(n)
      && SignOf(IntToString(n)) == (if n < 0 then -1 else 1, digits)
      && |digits| > 0 && AllDigits(digits)
      && DigitsValue(digits) == (if n < 0 then -n else n)
  {
    var s := IntToString(n);
    StripNumeral(n);
    var digits := NatToString(if n < 0 then -n else n);
    NatToStringFacts(if n < 0 then -n else n);
    if n < 0 {
      assert s[1..] == digits;
    }
  }

  /** `float(str(n)) == n` for an integer `n`: the float parser agrees with the
      integer parser on integer numerals. */
  lemma ParseFloatOfIntString(n: int)
    ensures ParseFloat(IntToString(n)) == Some(n as real)
  {
    NumeralSign(n);
    var m := if n < 0 then -n else n;
    var digits := NatToString(m);
    DecimalValueOfDigits(digits);
    var sign := if n < 0 then -1 else 1;
    ParseFloatParts(IntToString(n), sign, digits, m as real);
    if n < 0 {
      assert sign as real * m as real == n as real;
    }
  }

  /** `float(s)` once `s` is known to be stripped and split into its sign
      and an unsigned numeral of value `v`. */
  lemma ParseFloatParts(s: string, sign: int, body: string, v: real)
    requires Strip(s) == s && SignOf(s) == (sign, body) && DecimalValue(body) == Some(v)
    ensures ParseFloat(s) == Some(sign as real * v)
  {
  }

  lemma {:induction false} NoDotInDigits(body: string, start: nat)
    requires AllDigits(body)
    ensures Find(body, ".", start) == -1
    decreases |body| - start
  {
    if start + 1 <= |body| {
      assert body[start..start + 1][0] == body[start];
      NoDotInDigits(body, start + 1);
    }
  }
}
