/** The parts of Kotlin's standard string library the decoder relies on:
    `isWhitespace`, `trim`, `isBlank`, `startsWith`, `substringAfter`,
    `substringAfterLast`, `toIntOrNull`/`toInt`, `Int.toString` and `lowercase`. */
module Strings {
  import opened Common

  /** Kotlin's `Char.isWhitespace()` on the JVM: `Character.isWhitespace` or
      `Character.isSpaceChar`, written out as the code points it accepts. */
  predicate IsWhitespace(c: char) {
    || ('\t' <= c <= '\r')
    || ('\U{1C}' <= c <= ' ')
    || c == '\U{A0}' || c == '\U{1680}'
    || ('\U{2000}' <= c <= '\U{200A}')
    || c == '\U{2028}' || c == '\U{2029}' || c == '\U{202F}'
    || c == '\U{205F}' || c == '\U{3000}'
  }

  /** Kotlin's `isBlank()`: empty or whitespace only. */
  predicate IsBlank(s: string) {
    forall i :: 0 <= i < |s| ==> IsWhitespace(s[i])
  }

  /** Neither end of `s` is whitespace. */
  predicate IsTrimmed(s: string) {
    s == [] || (!IsWhitespace(s[0]) && !IsWhitespace(s[|s| - 1]))
  }

  /** Drops the leading whitespace. */
  function TrimStart(s: string): (r: string)
    ensures |r| <= |s| && r == s[|s| - |r|..]
    ensures r == [] || !IsWhitespace(r[0])
    ensures forall i :: 0 <= i < |s| - |r| ==> IsWhitespace(s[i])
  {
    if s != [] && IsWhitespace(s[0]) then TrimStart(s[1..]) else s
  }

  /** Drops the trailing whitespace. */
  function TrimEnd(s: string): (r: string)
    ensures |r| <= |s| && r == s[..|r|]
    ensures r == [] || !IsWhitespace(r[|r| - 1])
    ensures forall i :: |r| <= i < |s| ==> IsWhitespace(s[i])
  {
    if s != [] && IsWhitespace(s[|s| - 1]) then TrimEnd(s[..|s| - 1]) else s
  }

  /** Kotlin's `trim()`: the longest infix of `s` with no whitespace at either end;
      it is empty exactly when `s` is blank. */
  function Trim(s: string): (r: string)
    ensures IsTrimmed(r)
    ensures |r| <= |s|
    ensures r == [] <==> IsBlank(s)
    ensures exists i, j :: 0 <= i <= j <= |s| && r == s[i..j] && IsBlank(s[..i]) && IsBlank(s[j..])
  {
    var t := TrimStart(s);
    var r := TrimEnd(t);
    assert r != [] ==> r[0] == t[0];
    assert t != [] ==> !IsWhitespace(t[0]);
    TrimIsInfix(s, t, r);
    r
  }

  /** Cutting a blank prefix and then a blank suffix leaves an infix of `s`
      with blank text on either side. */
  lemma TrimIsInfix(s: string, t: string, r: string)
    requires |t| <= |s| && t == s[|s| - |t|..] && forall i :: 0 <= i < |s| - |t| ==> IsWhitespace(s[i])
    requires |r| <= |t| && r == t[..|r|] && forall i :: |r| <= i < |t| ==> IsWhitespace(t[i])
    ensures exists i, j :: 0 <= i <= j <= |s| && r == s[i..j] && IsBlank(s[..i]) && IsBlank(s[j..])
  {
    var i := |s| - |t|;
    var j := i + |r|;
    assert r == s[i..j];
    assert IsBlank(s[..i]) by {
      forall k | 0 <= k < i ensures IsWhitespace(s[..i][k]) { assert s[..i][k] == s[k]; }
    }
    assert IsBlank(s[j..]) by {
      forall k | 0 <= k < |s| - j ensures IsWhitespace(s[j..][k]) {
        assert s[j..][k] == t[|r| + k];
      }
    }
  }

  /** `trim()` leaves a string without whitespace at its ends unchanged. */
  lemma TrimKeepsTrimmed(s: string)
    requires IsTrimmed(s)
    ensures Trim(s) == s
  {
    assert TrimStart(s) == s;
    assert TrimEnd(s) == s;
  }

  /** `trim()` is idempotent. */
  lemma TrimIdempotent(s: string)
    ensures Trim(Trim(s)) == Trim(s)
  {
    TrimKeepsTrimmed(Trim(s));
  }

  /** Kotlin's `startsWith(prefix)`. */
  predicate StartsWith(s: string, prefix: string) {
    |prefix| <= |s| && s[..|prefix|] == prefix
  }

  /** `pat` occurs in `s` at index `i`. */
  predicate OccursAt(s: string, pat: string, i: int) {
    0 <= i && i + |pat| <= |s| && s[i..i + |pat|] == pat
  }

  /** The first index at or after `from` where `pat` occurs, if any. */
  function IndexOfFrom(s: string, pat: string, from: nat): (r: Option<nat>)
    requires from <= |s|
    ensures r.Some? ==> from <= r.value && OccursAt(s, pat, r.value)
    ensures forall i :: from <= i && (r.None? || i < r.value) ==> !OccursAt(s, pat, i)
    decreases |s| - from
  {
    if OccursAt(s, pat, from) then Some(from)
    else if from == |s| then None
    else IndexOfFrom(s, pat, from + 1)
  }

  /** Kotlin's `indexOf(pat)`: the first occurrence of `pat` in `s`. */
  function IndexOf(s: string, pat: string): (r: Option<nat>)
    ensures r.Some? ==> OccursAt(s, pat, r.value)
    ensures forall i :: 0 <= i && (r.None? || i < r.value) ==> !OccursAt(s, pat, i)
  {
    IndexOfFrom(s, pat, 0)
  }

  lemma SplitAround(s: string, i: int, j: int)
    requires 0 <= i <= j <= |s|
    ensures s == s[..i] + s[i..j] + s[j..]
  {
  }

  /** Kotlin's `substringAfter(delimiter)`: the text after the first occurrence of
      the delimiter, or the whole string when there is none. */
  function SubstringAfter(s: string, delimiter: string): (r: string)
    ensures IndexOf(s, delimiter).None? ==> r == s
    ensures IndexOf(s, delimiter).Some? ==>
              s == s[..IndexOf(s, delimiter).value] + delimiter + r
  {
    match IndexOf(s, delimiter)
    case None => s
    case Some(i) =>
      SplitAround(s, i, i + |delimiter|);
      s[i + |delimiter|..]
  }

  /** Kotlin's `substringAfterLast(delimiter)` for a one-character delimiter: the
      text after the last occurrence, or the whole string when there is none. */
  function SubstringAfterLast(s: string, delimiter: char): (r: string)
    ensures delimiter !in r
    ensures |r| <= |s| && r == s[|s| - |r|..]
    ensures delimiter in s ==> |r| < |s| && s[|s| - |r| - 1] == delimiter
    ensures delimiter !in s ==> r == s
  {
    if s == [] then []
    else if s[|s| - 1] == delimiter then []
    else
      var r := SubstringAfterLast(s[..|s| - 1], delimiter) + [s[|s| - 1]];
      assert delimiter in s ==> delimiter in s[..|s| - 1] by {
        if delimiter in s {
          var k :| 0 <= k < |s| && s[k] == delimiter;
          assert s[..|s| - 1][k] == delimiter;
        }
      }
      r
  }

  predicate IsDigit(c: char) {
    '0' <= c <= '9'
  }

  predicate AllDigits(s: string) {
    forall i :: 0 <= i < |s| ==> IsDigit(s[i])
  }

  /** The value of a string of decimal digits. */
  function DigitsValue(s: string): nat
    requires AllDigits(s)
  {
    if s == [] then 0
    else DigitsValue(s[..|s| - 1]) * 10 + (s[|s| - 1] as int - '0' as int)
  }

  /** The range of Kotlin's 32-bit `Int`. */
  const IntMin: int := -0x8000_0000
  const IntMax: int := 0x7FFF_FFFF

  predicate InIntRange(n: int) {
    IntMin <= n <= IntMax
  }

  /** `s` without one leading sign character. */
  function Unsigned(s: string): string {
    if s != [] && (s[0] == '-' || s[0] == '+') then s[1..] else s
  }

  /** The shape `toIntOrNull` accepts: an optional sign, then one digit or more. */
  predicate IsIntText(s: string) {
    Unsigned(s) != [] && AllDigits(Unsigned(s))
  }

  /** The number such a text denotes, negated after a minus sign. */
  function TextValue(s: string): int
    requires IsIntText(s)
  {
    var d: int := DigitsValue(Unsigned(s));
    if s[0] == '-' then -d else d
  }

  /** Kotlin's `String.toIntOrNull()`: an optional `+` or `-` followed by at least
      one digit, whose value fits in an `Int`; anything else is null. */
  function ToIntOrNull(s: string): (r: Option<int>)
    ensures r.Some? ==> InIntRange(r.value)
    ensures r.Some? ==> s != [] && (IsDigit(s[0]) || s[0] == '-' || s[0] == '+')
    ensures r.Some? <==> IsIntText(s) && InIntRange(TextValue(s))
    ensures r.Some? ==> r.value == TextValue(s)
  {
    if s == [] then None
    else
      var start := if s[0] == '-' || s[0] == '+' then 1 else 0;
      var digits := s[start..];
      if digits == [] || !AllDigits(digits) then None
      else
        var d: int := DigitsValue(digits);
        var v := if s[0] == '-' then -d else d;
        if InIntRange(v) then Some(v) else None
  }

  /** A plus sign and leading zeros are accepted; a lone sign and a decimal
      point are not. */
  lemma ToIntOrNullExamples()
    ensures ToIntOrNull("+5") == Some(5)
    ensures ToIntOrNull("007") == Some(7)
    ensures ToIntOrNull("-") == None
    ensures ToIntOrNull("1.5") == None
  {
    assert Unsigned("+5") == "5" && DigitsValue("5") == 5 by { assert "5"[..0] == ""; }
    assert Unsigned("007") == "007";
    assert DigitsValue("007") == 7 by {
      assert "007"[..2] == "00" && "00"[..1] == "0" && "0"[..0] == "";
    }
    assert Unsigned("-") == "";
    assert !AllDigits("1.5") by { assert !IsDigit("1.5"[1]); }
  }

  /** The decimal digits of a natural number, most significant first. */
  function NatToDigits(n: nat): (r: string)
    ensures r != [] && AllDigits(r)
  {
    if n < 10 then [('0' as int + n) as char]
    else NatToDigits(n / 10) + [('0' as int + n % 10) as char]
  }

  /** Kotlin's `Int.toString()` (the text of a string template `"${n}"`). */
  function IntToString(n: int): string {
    if n < 0 then "-" + NatToDigits(-n) else NatToDigits(n)
  }

  lemma {:induction false} NatToDigitsValue(n: nat)
    ensures DigitsValue(NatToDigits(n)) == n
  {
    if n >= 10 {
      NatToDigitsValue(n / 10);
      var s := NatToDigits(n);
      assert s[..|s| - 1] == NatToDigits(n / 10);
    }
  }

  /** Reading back what `Int.toString()` wrote gives the same `Int`. */
  lemma IntToStringRoundTrip(n: int)
    requires InIntRange(n)
    ensures ToIntOrNull(IntToString(n)) == Some(n)
  {
    var s := IntToString(n);
    if n < 0 {
      var ds := NatToDigits(-n);
      NatToDigitsValue(-n);
      assert s[0] == '-';
      assert s[1..] == ds;
    } else {
      var ds := NatToDigits(n);
      NatToDigitsValue(n);
      assert s == ds;
      assert IsDigit(s[0]);
      assert s[0..] == ds;
    }
  }

  /** The character of one UTF-16 code unit, as Kotlin's `Char` arithmetic and
      `Character.toChars` produce it. A surrogate unit is not a character on its
      own, so the model writes U+FFFD REPLACEMENT CHARACTER for it. */
  function CodeUnitChar(code: nat): (c: char)
    requires code < 0x1_0000
    ensures !(0xD800 <= code < 0xE000) ==> c as int == code
  {
    if 0xD800 <= code < 0xE000 then '\U{FFFD}' else code as char
  }

  /** `lowercase()` on ASCII letters; every other character is kept. The only
      text lower-cased by the decoder is a Roman numeral, which is ASCII. */
  function LowercaseAscii(s: string): (r: string)
    ensures |r| == |s|
    ensures forall i :: 0 <= i < |s| ==>
              r[i] == if 'A' <= s[i] <= 'Z' then (s[i] as int + 32) as char else s[i]
  {
    seq(|s|, i requires 0 <= i < |s| => if 'A' <= s[i] <= 'Z' then (s[i] as int + 32) as char else s[i])
  }
}
