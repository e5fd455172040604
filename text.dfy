/** The string primitives the renderer relies on: ASCII character classes and case,
    substring tests, splitting on a separator, and the number parsers int() and float()
    restricted to plain decimal notation. */
module Text {
  import opened Base

  predicate IsDigit(c: char) { '0' <= c <= '9' }

  predicate IsUpperLetter(c: char) { 'A' <= c <= 'Z' }

  predicate IsLowerLetter(c: char) { 'a' <= c <= 'z' }

  /** Membership in Python's `string.ascii_letters`. */
  predicate IsAsciiLetter(c: char) { IsUpperLetter(c) || IsLowerLetter(c) }

  predicate AllDigits(s: string) { forall i :: 0 <= i < |s| ==> IsDigit(s[i]) }

  /** `c.upper()` on the ASCII range. */
  function UpperChar(c: char): (u: char)
    ensures IsLowerLetter(c) ==> IsUpperLetter(u) && u as int - 'A' as int == c as int - 'a' as int
    ensures !IsLowerLetter(c) ==> u == c
  {
    if IsLowerLetter(c) then (c as int - 'a' as int + 'A' as int) as char else c
  }

  /** `s.upper()` on the ASCII range. */
  function Upper(s: string): (u: string)
    ensures |u| == |s|
    ensures forall i :: 0 <= i < |s| ==> u[i] == UpperChar(s[i])
  {
    seq(|s|, i requires 0 <= i < |s| => UpperChar(s[i]))
  }

  predicate StartsWith(s: string, prefix: string) {
    |prefix| <= |s| && s[..|prefix|] == prefix
  }

  predicate EndsWith(s: string, suffix: string) {
    |suffix| <= |s| && s[|s| - |suffix|..] == suffix
  }

  lemma EndsWithSuffix(p: string, u: string)
    ensures EndsWith(p + u, u)
  {
    assert (p + u)[|p|..] == u;
  }

  /** A string does not end with u when one of the characters that would have to match
      differs. */
  lemma NotEndsWith(s: string, u: string, i: nat)
    requires |u| <= |s| && i < |u| && s[|s| - |u| + i] != u[i]
    ensures !EndsWith(s, u)
  {
    assert s[|s| - |u|..][i] == s[|s| - |u| + i];
  }

  /** A string does not start with u when one of the characters that would have to
      match differs. */
  lemma NotStartsWith(s: string, u: string, i: nat)
    requires i < |u| && (|u| <= |s| ==> s[i] != u[i])
    ensures !StartsWith(s, u)
  {
    if |u| <= |s| {
      assert s[..|u|][i] == s[i];
    }
  }

  /** Python's `t in s` for strings: t occurs as a contiguous substring of s. */
  predicate Contains(s: string, t: string)
    decreases |s|
  {
    StartsWith(s, t) || (|s| > 0 && Contains(s[1..], t))
  }

  /** Index of the first occurrence of c in s, or |s| when there is none. */
  function IndexOf(s: string, c: char): (k: nat)
    ensures k <= |s|
    ensures k < |s| ==> s[k] == c
    ensures forall i :: 0 <= i < k ==> s[i] != c
  {
    if s == [] then 0 else if s[0] == c then 0 else 1 + IndexOf(s[1..], c)
  }

  /** Python's `s.split(sep)` for a one-character separator: the pieces between
      separators, always at least one. */
  function Split(s: string, sep: char): (parts: seq<string>)
    ensures |parts| >= 1
    decreases |s|
  {
    var k := IndexOf(s, sep);
    if k == |s| then [s] else [s[..k]] + Split(s[k + 1..], sep)
  }

  /** Python's `s.rsplit(sep, 1)[1]`: the text after the last separator; a string
      without the separator gives a one-element list, and indexing it raises. */
  function AfterLast(s: string, sep: char): (r: Result<string>)
    ensures r.Ok? ==> |r.value| < |s| && sep !in r.value && EndsWith(s, [sep] + r.value)
    ensures r.Err? <==> sep !in s
    decreases |s|
  {
    if s == [] then Err(IndexError(1))
    else if s[|s| - 1] == sep then Ok([])
    else match AfterLast(s[..|s| - 1], sep)
      case Err(e) => Err(e)
      case Ok(t) => Ok(t + [s[|s| - 1]])
  }

  /** The text after the last separator is whatever follows a separator it does not
      contain. */
  lemma {:induction false} AfterLastOfJoin(prefix: string, sep: char, tail: string)
    requires sep !in tail
    ensures AfterLast(prefix + [sep] + tail, sep) == Ok(tail)
    decreases |tail|
  {
    var s := prefix + [sep] + tail;
    if tail != [] {
      var init := tail[..|tail| - 1];
      assert s[..|s| - 1] == prefix + [sep] + init;
      assert s[|s| - 1] == tail[|tail| - 1];
      assert tail[|tail| - 1] in tail;
      assert forall x :: x in init ==> x in tail;
      AfterLastOfJoin(prefix, sep, init);
      assert init + [tail[|tail| - 1]] == tail;
    }
  }

  function DigitValue(c: char): nat requires IsDigit(c) { c as int - '0' as int }

  function DigitChar(d: nat): (c: char)
    requires d < 10
    ensures IsDigit(c) && DigitValue(c) == d
  {
    ('0' as int + d) as char
  }

  /** The value of a string of decimal digits, most significant first. */
  function DigitsValue(s: string): nat
    requires AllDigits(s)
  {
    if s == [] then 0 else DigitsValue(s[..|s| - 1]) * 10 + DigitValue(s[|s| - 1])
  }

  /** The decimal numeral of n, without leading zeros. */
  function Decimal(n: nat): (s: string)
    ensures |s| >= 1 && AllDigits(s)
  {
    if n < 10 then [DigitChar(n)] else Decimal(n / 10) + [DigitChar(n % 10)]
  }

  lemma {:induction false} DecimalRoundTrip(n: nat)
    ensures DigitsValue(Decimal(n)) == n
  {
    if n >= 10 {
      DecimalRoundTrip(n / 10);
      var s := Decimal(n);
      assert s[..|s| - 1] == Decimal(n / 10);
    }
  }

  /** The text after an optional leading '+' or '-'. */
  function Unsigned(s: string): (t: string)
    ensures |t| <= |s|
  {
    if |s| > 0 && (s[0] == '-' || s[0] == '+') then s[1..] else s
  }

  /** Python's `int(s)` restricted to plain decimal notation: an optional sign followed by
      at least one digit; every other string raises. */
  function ParseInt(s: string): (r: Result<int>)
    ensures r.Ok? <==> |Unsigned(s)| > 0 && AllDigits(Unsigned(s))
    ensures r.Ok? && s[0] == '-' ==> r.value == -(DigitsValue(Unsigned(s)) as int)
    ensures r.Ok? && s[0] != '-' ==> r.value == DigitsValue(Unsigned(s))
    ensures r.Err? ==> r.error == ValueError(s)
  {
    var digits := Unsigned(s);
    if |digits| > 0 && AllDigits(digits) then
      Ok(if s[0] == '-' then -(DigitsValue(digits) as int) else DigitsValue(digits))
    else Err(ValueError(s))
  }

  /** int() reads a plain run of digits as the number they spell. */
  lemma ParseIntOfDigits(s: string)
    requires |s| > 0 && AllDigits(s)
    ensures ParseInt(s) == Ok(DigitsValue(s))
  {
    assert IsDigit(s[0]);
    assert Unsigned(s) == s;
  }

  /** int() reads a '-' followed by a run of digits as the negated number. */
  lemma ParseIntOfSigned(digits: string)
    requires |digits| > 0 && AllDigits(digits)
    ensures ParseInt("-" + digits) == Ok(-(DigitsValue(digits) as int))
  {
    var s := "-" + digits;
    assert s[1..] == digits;
  }

  /** The decimal numeral of an integer, with a '-' when it is negative. */
  function IntNumeral(n: int): (s: string)
    ensures |s| >= 1
  {
    if n < 0 then "-" + Decimal(-n) else Decimal(n)
  }

  /** int() reads back the numeral of every integer. */
  lemma ParseIntRoundTrip(n: int)
    ensures ParseInt(IntNumeral(n)) == Ok(n)
  {
    if n < 0 {
      var m: nat := -n;
      var digits := Decimal(m);
      assert IntNumeral(n) == "-" + digits;
      ParseIntOfSigned(digits);
      DecimalRoundTrip(m);
    } else {
      var digits := Decimal(n);
      assert IntNumeral(n) == digits;
      ParseIntOfDigits(digits);
      DecimalRoundTrip(n);
    }
  }

  function Pow10(k: nat): (p: nat)
    ensures p >= 1
  {
    if k == 0 then 1 else 10 * Pow10(k - 1)
  }

  /** The value of the digits before and after a decimal point. */
  function Magnitude(whole: string, fraction: string): real
    requires AllDigits(whole) && AllDigits(fraction)
  {
    DigitsValue(whole) as real + DigitsValue(fraction) as real / Pow10(|fraction|) as real
  }

  /** The sign of an optional leading '+' or '-', and the text after it. */
  function SignOf(s: string): (real, string)
  {
    if |s| > 0 && s[0] == '-' then (-1.0, s[1..])
    else if |s| > 0 && s[0] == '+' then (1.0, s[1..])
    else (1.0, s)
  }

  /** Python's `float(s)` restricted to plain decimal notation: an optional sign, digits,
      an optional point and more digits, at least one digit in all. */
  function ParseFloat(s: string): (r: Result<real>)
  {
    var (sign, body) := SignOf(s);
    var k := IndexOf(body, '.');
    var whole := body[..k];
    var fraction := if k < |body| then body[k + 1..] else [];
    if AllDigits(whole) && AllDigits(fraction) && |whole| + |fraction| > 0 then
      Ok(sign * Magnitude(whole, fraction))
    else
      Err(ValueError(s))
  }

  /** A string that float() accepts holds no letter: it is made of digits, at most one
      point and an optional leading sign. */
  lemma ParsedNumberHasNoLetters(s: string)
    requires ParseFloat(s).Ok?
    ensures forall i :: 0 <= i < |s| ==> !IsAsciiLetter(s[i])
  {
    var (sign, body) := SignOf(s);
    var k := IndexOf(body, '.');
    var fraction := if k < |body| then body[k + 1..] else [];
    assert forall i :: 0 <= i < |body| ==> IsDigit(body[i]) || body[i] == '.' by {
      forall i | 0 <= i < |body| ensures IsDigit(body[i]) || body[i] == '.' {
        if i < k { assert body[i] == body[..k][i]; }
        else if i > k { assert body[i] == fraction[i - k - 1]; }
      }
    }
    forall i | 0 <= i < |s| ensures !IsAsciiLetter(s[i]) {
      if |s| > 0 && (s[0] == '-' || s[0] == '+') {
        if i > 0 { assert s[i] == body[i - 1]; }
      } else {
        assert s[i] == body[i];
      }
    }
  }

  /** float() reads a plain run of digits as the number they spell. */
  lemma ParseFloatOfDigits(s: string)
    requires s != [] && AllDigits(s)
    ensures ParseFloat(s) == Ok(DigitsValue(s) as real)
  {
    assert IsDigit(s[0]);
    assert SignOf(s) == (1.0, s);
    NoPointInDigits(s);
    assert s[..|s|] == s;
    assert Magnitude(s, []) == DigitsValue(s) as real;
  }

  lemma NoPointInDigits(s: string)
    requires AllDigits(s)
    ensures IndexOf(s, '.') == |s|
  {
    var k := IndexOf(s, '.');
    if k < |s| {
      assert false;
    }
  }

  /** float() reads the decimal numeral of a natural number as that number. */
  lemma ParseFloatOfDecimal(n: nat)
    ensures ParseFloat(Decimal(n)) == Ok(n as real)
  {
    ParseFloatOfDigits(Decimal(n));
    DecimalRoundTrip(n);
  }
}
