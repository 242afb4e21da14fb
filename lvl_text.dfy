/** The fixed glyphs of list markers: the default bullet and the table that maps
    four private-use code points of symbol fonts (Symbol, Wingdings) to ordinary
    Unicode glyphs. */
module Glyphs {
  import opened Strings

  /** U+2022 BULLET. */
  const DefaultBullet: string := "\U{2022}"

  /** U+F0B7 -> U+2022, U+F0A8 -> U+25E6, U+F09F -> U+25AA, U+F02D -> U+2013. */
  const Wingdings: map<string, string> := map[
    "\U{F0B7}" := "\U{2022}",
    "\U{F0A8}" := "\U{25E6}",
    "\U{F09F}" := "\U{25AA}",
    "\U{F02D}" := "\U{2013}"
  ]

  /** The table maps exactly the four symbol-font code points above, each to a
      visible one-character glyph. */
  lemma WingdingsShape()
    ensures Wingdings.Keys == {"\U{F0B7}", "\U{F0A8}", "\U{F09F}", "\U{F02D}"}
    ensures |Wingdings.Keys| == 4
    ensures forall k :: k in Wingdings ==> |k| == 1 && |Wingdings[k]| == 1 && !IsBlank(Wingdings[k])
    ensures !IsBlank(DefaultBullet)
  {
    assert Wingdings.Keys == {"\U{F0B7}", "\U{F0A8}", "\U{F09F}", "\U{F02D}"};
    forall k | k in Wingdings
      ensures |k| == 1 && |Wingdings[k]| == 1 && !IsBlank(Wingdings[k])
    {
      assert !IsWhitespace(Wingdings[k][0]);
    }
    assert !IsWhitespace(DefaultBullet[0]);
  }
}

/** The cleaning applied to a level's `lvlText` attribute when numbering
    definitions are read: placeholders such as "%1" go, `&#xHHHH;` escapes are
    decoded, the result goes through the symbol-font table, and a blank or
    missing text becomes the default bullet. */
module LvlText {
  import opened Common
  import opened Strings
  import opened Glyphs

  /** The regular expression `%\d+` matches at the start of `s`. */
  predicate PlaceholderAt(s: string) {
    |s| >= 2 && s[0] == '%' && IsDigit(s[1])
  }

  /** No "%" of `s` is followed by a digit. */
  predicate NoPlaceholder(s: string) {
    forall i :: 0 <= i < |s| - 1 && s[i] == '%' ==> !IsDigit(s[i + 1])
  }

  /** `s` without its leading run of digits. */
  function DropDigits(s: string): (r: string)
    ensures |r| <= |s| && r == s[|s| - |r|..]
    ensures r == [] || !IsDigit(r[0])
    ensures forall i :: 0 <= i < |s| - |r| ==> IsDigit(s[i])
  {
    if s != [] && IsDigit(s[0]) then DropDigits(s[1..]) else s
  }

  /** `replace(Regex("%\\d+"), "")`: scanning from the left, every "%" followed
      by digits is removed together with all those digits. */
  function RemovePlaceholders(s: string): (r: string)
    ensures |r| <= |s|
    ensures NoPlaceholder(r)
    ensures s != [] && !IsDigit(s[0]) && r != [] ==> !IsDigit(r[0])
    ensures NoPlaceholder(s) ==> r == s
  {
    if s == [] then []
    else if PlaceholderAt(s) then RemovePlaceholders(DropDigits(s[1..]))
    else
      var tail := RemovePlaceholders(s[1..]);
      var r := [s[0]] + tail;
      assert NoPlaceholder(s) ==> NoPlaceholder(s[1..]) by {
        forall i | 0 <= i < |s| - 2 && s[1..][i] == '%' ensures s[i + 1] == '%' {}
      }
      assert s[0] == '%' && |r| > 1 ==> !IsDigit(r[1]) by {
        if s[0] == '%' && |r| > 1 {
          assert |s| > 1 && !IsDigit(s[1]);
        }
      }
      assert forall i :: 1 <= i < |r| - 1 && r[i] == '%' ==> !IsDigit(r[i + 1]) by {
        forall i | 1 <= i < |r| - 1 && r[i] == '%' ensures !IsDigit(r[i + 1]) {
          assert r[i] == tail[i - 1] && r[i + 1] == tail[i];
        }
      }
      r
  }

  /** Dropping the digits of `a` is not affected by text after it that does not
      start with a digit. */
  lemma {:induction false} DropDigitsConcat(a: string, z: string)
    requires z == [] || !IsDigit(z[0])
    ensures DropDigits(a + z) == DropDigits(a) + z
    decreases |a|
  {
    if a != [] {
      assert (a + z)[0] == a[0] && (a + z)[1..] == a[1..] + z;
      if IsDigit(a[0]) {
        DropDigitsConcat(a[1..], z);
      }
    } else {
      assert a + z == z;
    }
  }

  /** Removal works piece by piece: a text that does not start with a digit can
      be cleaned on its own and appended. */
  lemma {:induction false} RemovePlaceholdersConcat(x: string, z: string)
    requires z == [] || !IsDigit(z[0])
    ensures RemovePlaceholders(x + z) == RemovePlaceholders(x) + RemovePlaceholders(z)
    decreases |x|, 1
  {
    if x == [] {
      assert x + z == z;
    } else if PlaceholderAt(x) {
      ConcatAtPlaceholder(x, z);
    } else {
      ConcatAtKept(x, z);
    }
  }

  lemma {:induction false} ConcatAtPlaceholder(x: string, z: string)
    requires z == [] || !IsDigit(z[0])
    requires PlaceholderAt(x)
    ensures RemovePlaceholders(x + z) == RemovePlaceholders(x) + RemovePlaceholders(z)
    decreases |x|, 0
  {
    var s := x + z;
    ConcatHead(x, z);
    UnfoldPlaceholder(s);
    UnfoldPlaceholder(x);
    DropDigitsConcat(x[1..], z);
    RemovePlaceholdersConcat(DropDigits(x[1..]), z);
  }

  lemma {:induction false} ConcatAtKept(x: string, z: string)
    requires z == [] || !IsDigit(z[0])
    requires x != [] && !PlaceholderAt(x)
    ensures RemovePlaceholders(x + z) == RemovePlaceholders(x) + RemovePlaceholders(z)
    decreases |x|, 0
  {
    ConcatHead(x, z);
    calc {
      RemovePlaceholders(x + z);
      { UnfoldKeep(x + z); }
      [x[0]] + RemovePlaceholders(x[1..] + z);
      { RemovePlaceholdersConcat(x[1..], z); }
      [x[0]] + (RemovePlaceholders(x[1..]) + RemovePlaceholders(z));
      ([x[0]] + RemovePlaceholders(x[1..])) + RemovePlaceholders(z);
      { UnfoldKeep(x); }
      RemovePlaceholders(x) + RemovePlaceholders(z);
    }
  }

  /** The head of `x + z`, and whether a placeholder starts there, are decided
      by `x` when `z` does not start with a digit. */
  lemma ConcatHead(x: string, z: string)
    requires x != [] && (z == [] || !IsDigit(z[0]))
    ensures (x + z)[0] == x[0] && (x + z)[1..] == x[1..] + z
    ensures PlaceholderAt(x + z) <==> PlaceholderAt(x)
  {
    var s := x + z;
    if |x| >= 2 {
      assert s[1] == x[1];
    } else if |s| >= 2 {
      assert s[1] == z[0];
    }
  }

  lemma UnfoldPlaceholder(s: string)
    requires PlaceholderAt(s)
    ensures RemovePlaceholders(s) == RemovePlaceholders(DropDigits(s[1..]))
  {
  }

  lemma UnfoldKeep(s: string)
    requires s != [] && !PlaceholderAt(s)
    ensures RemovePlaceholders(s) == [s[0]] + RemovePlaceholders(s[1..])
  {
  }

  /** A run of digits is dropped whole. */
  lemma {:induction false} AllDigitsDropped(d: string)
    requires AllDigits(d)
    ensures DropDigits(d) == []
    decreases |d|
  {
    if d != [] {
      assert AllDigits(d[1..]) by {
        forall i | 0 <= i < |d| - 1 ensures IsDigit(d[1..][i]) { assert d[1..][i] == d[i + 1]; }
      }
      AllDigitsDropped(d[1..]);
    }
  }

  /** Only placeholders are removed: a "%" followed by digits, with all of them,
      disappears between two pieces that are cleaned on their own. */
  lemma PlaceholderRemoved(x: string, d: string, y: string)
    requires d != [] && AllDigits(d)
    requires y == [] || !IsDigit(y[0])
    ensures RemovePlaceholders(x + "%" + d + y) == RemovePlaceholders(x) + RemovePlaceholders(y)
  {
    var z := "%" + d + y;
    assert x + "%" + d + y == x + z;
    assert z[0] == '%';
    RemovePlaceholdersConcat(x, z);
    PlaceholderTail(d, y);
  }

  /** A placeholder at the front goes with all its digits. */
  lemma PlaceholderTail(d: string, y: string)
    requires d != [] && AllDigits(d)
    requires y == [] || !IsDigit(y[0])
    ensures RemovePlaceholders("%" + d + y) == RemovePlaceholders(y)
  {
    var z := "%" + d + y;
    PercentSplit(d, y);
    UnfoldPlaceholder(z);
    DropDigitsConcat(d, y);
    AllDigitsDropped(d);
    calc {
      RemovePlaceholders(z);
      RemovePlaceholders(DropDigits(d + y));
      RemovePlaceholders(DropDigits(d) + y);
      { assert DropDigits(d) + y == y; }
      RemovePlaceholders(y);
    }
  }

  lemma PercentSplit(d: string, y: string)
    requires d != [] && IsDigit(d[0])
    ensures PlaceholderAt("%" + d + y) && ("%" + d + y)[1..] == d + y
  {
    var z := "%" + d + y;
    assert z[0] == '%' && z[1] == d[0];
  }

  /** A digit of the pattern `[0-9A-F]`, and its value. */
  predicate IsUpperHexDigit(c: char) {
    ('0' <= c <= '9') || ('A' <= c <= 'F')
  }

  function HexDigitValue(c: char): (v: nat)
    requires IsUpperHexDigit(c)
    ensures v < 16
  {
    if '0' <= c <= '9' then c as int - '0' as int else c as int - 'A' as int + 10
  }

  function HexDigit(v: nat): (c: char)
    requires v < 16
    ensures IsUpperHexDigit(c) && HexDigitValue(c) == v
  {
    if v < 10 then ('0' as int + v) as char else ('A' as int + v - 10) as char
  }

  /** The regular expression `&#x([0-9A-F]{4});` matches at the start of `s`. */
  predicate EscapeAt(s: string) {
    |s| >= 8 && s[0] == '&' && s[1] == '#' && s[2] == 'x'
    && IsUpperHexDigit(s[3]) && IsUpperHexDigit(s[4])
    && IsUpperHexDigit(s[5]) && IsUpperHexDigit(s[6]) && s[7] == ';'
  }

  /** The code given by the four hex digits of an escape at the start of `s`. */
  function EscapeCode(s: string): (code: nat)
    requires EscapeAt(s)
    ensures code < 0x1_0000
  {
    HexDigitValue(s[3]) * 0x1000 + HexDigitValue(s[4]) * 0x100
    + HexDigitValue(s[5]) * 0x10 + HexDigitValue(s[6])
  }

  /** The regular-expression replacement of every `&#xHHHH;` by its character,
      scanning from the left. */
  function DecodeEscapes(s: string): (r: string)
    ensures |r| <= |s|
    ensures '&' !in s ==> r == s
  {
    if s == [] then []
    else if EscapeAt(s) then [CodeUnitChar(EscapeCode(s))] + DecodeEscapes(s[8..])
    else [s[0]] + DecodeEscapes(s[1..])
  }

  /** The escape `&#xHHHH;` that names a character of the Basic Multilingual Plane. */
  function Escape(c: char): (e: string)
    requires c as int < 0x1_0000
    ensures EscapeAt(e) && |e| == 8
  {
    var v := c as int;
    "&#x" + [HexDigit(v / 0x1000), HexDigit(v / 0x100 % 0x10), HexDigit(v / 0x10 % 0x10), HexDigit(v % 0x10)] + ";"
  }

  /** Decoding undoes escaping: an escaped character followed by anything reads
      back as the character followed by the decoding of the rest. */
  lemma EscapeRoundTrip(c: char, rest: string)
    requires c as int < 0x1_0000
    ensures DecodeEscapes(Escape(c) + rest) == [c] + DecodeEscapes(rest)
  {
    var s := Escape(c) + rest;
    var v := c as int;
    assert EscapeAt(s);
    assert s[8..] == rest;
    assert s[3..7] == Escape(c)[3..7];
    HexSplit(v);
    assert EscapeCode(s) == v;
  }

  /** An escape anywhere in the text is decoded, and the text on either side is
      decoded independently: no match can run across the `&` that opens it. */
  lemma EscapeDecodedAnywhere(x: string, c: char, rest: string)
    requires c as int < 0x1_0000
    ensures DecodeEscapes(x + Escape(c) + rest) == DecodeEscapes(x) + [c] + DecodeEscapes(rest)
  {
    var z := Escape(c) + rest;
    assert x + Escape(c) + rest == x + z;
    DecodeEscapesConcat(x, z);
    EscapeRoundTrip(c, rest);
  }

  /** Decoding splits over a concatenation whose second part starts with `&`. */
  lemma {:induction false} DecodeEscapesConcat(x: string, z: string)
    requires z != [] && z[0] == '&'
    ensures DecodeEscapes(x + z) == DecodeEscapes(x) + DecodeEscapes(z)
    decreases |x|
  {
    if x == [] {
      assert x + z == z;
    } else {
      EscapeAtConcat(x, z);
      if EscapeAt(x) {
        assert (x + z)[8..] == x[8..] + z;
        DecodeEscapesConcat(x[8..], z);
        assert EscapeCode(x + z) == EscapeCode(x);
      } else {
        assert (x + z)[1..] == x[1..] + z;
        DecodeEscapesConcat(x[1..], z);
      }
    }
  }

  /** An escape matches at the start of `x + z` exactly when it matches at the
      start of `x`, when `z` starts with `&`: an `&` cannot sit inside a match. */
  lemma EscapeAtConcat(x: string, z: string)
    requires x != [] && z != [] && z[0] == '&'
    ensures EscapeAt(x + z) <==> EscapeAt(x)
    ensures EscapeAt(x) ==> (x + z)[..8] == x[..8]
  {
    var s := x + z;
    if |x| < 8 {
      assert s[|x|] == '&';
      assert !EscapeAt(s);
    }
    if EscapeAt(x) {
      assert s[..8] == x[..8];
    }
  }

  /** Text in which no escape matches anywhere, lowercase or malformed ones
      included, is kept as written. */
  lemma {:induction false} NoEscapeKept(s: string)
    requires forall i :: 0 <= i <= |s| ==> !EscapeAt(s[i..])
    ensures DecodeEscapes(s) == s
    decreases |s|
  {
    if s != [] {
      assert !EscapeAt(s[0..]) && s[0..] == s;
      forall i | 0 <= i <= |s[1..]| ensures !EscapeAt(s[1..][i..]) {
        assert s[1..][i..] == s[i + 1..];
      }
      NoEscapeKept(s[1..]);
    }
  }

  /** An escape between other characters is decoded in place. */
  lemma InnerEscapeExample()
    ensures DecodeEscapes("(&#x2022;)") == "(\U{2022})"
  {
    var c := '\U{2022}';
    assert c as int / 0x1000 == 2 && c as int / 0x100 % 0x10 == 0;
    assert c as int / 0x10 % 0x10 == 2 && c as int % 0x10 == 2;
    assert HexDigit(2) == '2' && HexDigit(0) == '0';
    assert Escape(c) == "&#x2022;";
    assert "(&#x2022;)" == "(" + Escape(c) + ")";
    calc {
      DecodeEscapes("(&#x2022;)");
      DecodeEscapes("(" + Escape(c) + ")");
      { EscapeDecodedAnywhere("(", c, ")"); }
      DecodeEscapes("(") + [c] + DecodeEscapes(")");
      { assert DecodeEscapes("(") == "(" && DecodeEscapes(")") == ")"; }
      "(" + [c] + ")";
    }
  }

  /** A lowercase escape is not matched by `[0-9A-F]` and is kept. */
  lemma LowercaseEscapeKept()
    ensures DecodeEscapes("&#xf0b7;") == "&#xf0b7;"
  {
    var t := "&#xf0b7;";
    forall i | 0 <= i <= |t| ensures !EscapeAt(t[i..]) {
      if i == 0 { assert !IsUpperHexDigit(t[3]); }
    }
    NoEscapeKept(t);
  }

  /** A number below 0x10000 is the sum of its four hex digits in place. */
  lemma HexSplit(v: nat)
    requires v < 0x1_0000
    ensures v == v / 0x1000 * 0x1000 + v / 0x100 % 0x10 * 0x100 + v / 0x10 % 0x10 * 0x10 + v % 0x10
  {
    var q1 := v / 0x10;
    var q2 := q1 / 0x10;
    assert v == q1 * 0x10 + v % 0x10;
    assert q1 == q2 * 0x10 + q1 % 0x10;
    assert q2 == q2 / 0x10 * 0x10 + q2 % 0x10;
    assert q2 == v / 0x100 && q2 / 0x10 == v / 0x1000;
  }

  /** The symbol-font lookup of the whole text, with the blank fallback. */
  function MapGlyph(text: string): (r: string)
    ensures !IsBlank(r)
    ensures text in Wingdings ==> r == Wingdings[text]
    ensures text !in Wingdings && !IsBlank(text) ==> r == text
    ensures text !in Wingdings && IsBlank(text) ==> r == DefaultBullet
  {
    WingdingsShape();
    if text in Wingdings then Wingdings[text]
    else if !IsBlank(text) then text
    else DefaultBullet
  }

  /** The cleaned marker text of a `lvlText` element whose `val` attribute is
      `val` (None when it is missing). */
  function CleanLvlText(val: Option<string>): (r: string)
    ensures !IsBlank(r)
    ensures val.None? ==> r == DefaultBullet
  {
    WingdingsShape();
    match val
    case None => DefaultBullet
    case Some(v) => MapGlyph(DecodeEscapes(RemovePlaceholders(v)))
  }

  /** Worked example: a numbering template loses its placeholder. */
  lemma CleanTemplateExample()
    ensures CleanLvlText(Some("%1.")) == "."
  {
    calc {
      CleanLvlText(Some("%1."));
      MapGlyph(DecodeEscapes(RemovePlaceholders("%1.")));
      { TemplateLosesPlaceholder(); }
      MapGlyph(DecodeEscapes("."));
      { assert DecodeEscapes(".") == "."; }
      MapGlyph(".");
      { NotSymbolGlyph('.'); assert !IsWhitespace('.'); }
      ".";
    }
  }

  /** A one-character text outside the private-use area is not in the table. */
  lemma NotSymbolGlyph(c: char)
    requires c < '\U{E000}'
    ensures [c] !in Wingdings
  {
    assert Wingdings.Keys == {"\U{F0B7}", "\U{F0A8}", "\U{F09F}", "\U{F02D}"};
  }

  lemma TemplateLosesPlaceholder()
    ensures RemovePlaceholders("%1.") == "."
  {
    assert PlaceholderAt("%1.") && "%1."[1..] == "1.";
    assert DropDigits("1.") == "." by {
      assert "1."[1..] == ".";
    }
    assert RemovePlaceholders(".") == ".";
  }

  /** Worked example: a bare placeholder leaves a blank text, hence the default bullet. */
  lemma CleanPlaceholderOnlyExample()
    ensures CleanLvlText(Some("%1")) == DefaultBullet
  {
    assert DropDigits("1") == "" by {
      assert "1"[1..] == "";
    }
    assert RemovePlaceholders("%1") == "";
    assert DecodeEscapes("") == "";
  }

  /** Worked example: an escaped symbol-font bullet becomes the ordinary bullet. */
  lemma CleanEscapedSymbolExample()
    ensures CleanLvlText(Some("&#xF0B7;")) == "\U{2022}"
  {
    EscapedSymbolDecodes();
    SymbolBullet();
  }

  /** The four symbol-font code points become their glyphs; U+F0D1 (the
      code point the source's comment names for the dash) is not in the table
      and stays as it is. */
  lemma SymbolGlyphs()
    ensures MapGlyph("\U{F0B7}") == "\U{2022}"
    ensures MapGlyph("\U{F0A8}") == "\U{25E6}"
    ensures MapGlyph("\U{F09F}") == "\U{25AA}"
    ensures MapGlyph("\U{F02D}") == "\U{2013}"
    ensures MapGlyph("\U{F0D1}") == "\U{F0D1}"
  {
    WingdingsShape();
    assert "\U{F0D1}" !in Wingdings;
    assert !IsWhitespace("\U{F0D1}"[0]);
  }

  lemma SymbolBullet()
    ensures MapGlyph("\U{F0B7}") == "\U{2022}"
  {
    assert "\U{F0B7}" in Wingdings && Wingdings["\U{F0B7}"] == "\U{2022}";
  }

  lemma EscapedSymbolDecodes()
    ensures DecodeEscapes(RemovePlaceholders("&#xF0B7;")) == "\U{F0B7}"
  {
    var e := "&#xF0B7;";
    assert '%' !in e;
    assert e == Escape('\U{F0B7}') + "";
    EscapeRoundTrip('\U{F0B7}', "");
  }
}
