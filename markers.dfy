/** The list-marker engine: the marker text of one list item, computed from its
    list definition and the counter store, which it advances and then trims. */
module Markers {
  import opened Common
  import opened Strings
  import opened Glyphs
  import opened Docx
  import opened Counters
  import opened Roman

  /** The formats whose marker is a number taken from the counter store. */
  predicate IsNumbered(format: string) {
    format == "decimal" || format == "lowerLetter" || format == "upperLetter"
    || format == "lowerRoman" || format == "upperRoman"
  }

  /** Kotlin's `base + v - 1` on `Char`: each step wraps to 16 bits. */
  function LetterCode(base: char, v: int): (code: nat)
    ensures code < 0x1_0000
  {
    ((base as int + v) % 0x1_0000 - 1) % 0x1_0000
  }

  function LetterChar(base: char, v: int): char {
    CodeUnitChar(LetterCode(base, v))
  }

  /** The marker of a numbered format for the number `v`. */
  function NumberText(format: string, v: int): string
    requires IsNumbered(format)
  {
    if format == "decimal" then IntToString(v) + "."
    else if format == "lowerLetter" then [LetterChar('a', v)] + "."
    else if format == "upperLetter" then [LetterChar('A', v)] + "."
    else if format == "lowerRoman" then LowercaseAscii(RomanOf(v)) + "."
    else RomanOf(v) + "."
  }

  /** The marker of a bullet level: the symbol-font glyph of its text, else the
      text's first character; the default bullet for an empty text. */
  function BulletText(lvlText: string): (r: string)
    ensures r != []
    ensures lvlText == [] ==> r == DefaultBullet
    ensures lvlText in Wingdings ==> r == Wingdings[lvlText]
    ensures lvlText != [] && lvlText !in Wingdings ==> r == [lvlText[0]]
  {
    WingdingsShape();
    if lvlText == [] then DefaultBullet
    else if lvlText in Wingdings then Wingdings[lvlText]
    else [lvlText[0]]
  }

  /** A marker and the counter store after it was computed. */
  datatype Marking = Marking(marker: string, counters: Store)

  /** The style of the element's list at the element's level, if there is one. */
  function StyleOf(e: DocxElement, defs: ListDefinitions): Option<ListStyle> {
    if e.numId in defs && e.listLevel in defs[e.numId] then Some(defs[e.numId][e.listLevel])
    else None
  }

  /** What `getListMarker` returns and leaves in the store. Without a style the
      default bullet is returned and the store is untouched; otherwise a numbered
      format takes one number, and in every case the deeper counters of the list
      are forgotten afterwards. */
  function MarkerOf(e: DocxElement, defs: ListDefinitions, m: Store): (r: Marking)
    ensures r.marker != []
  {
    match StyleOf(e, defs)
    case None => Marking(DefaultBullet, m)
    case Some(style) =>
      var marker :=
        if style.format == "bullet" then BulletText(style.lvlText)
        else if IsNumbered(style.format) then NumberText(style.format, Current(m, e.numId, e.listLevel))
        else DefaultBullet;
      var m' := if IsNumbered(style.format) then Advanced(m, e.numId, e.listLevel) else m;
      Marking(marker, ResetUpper(m', e.numId, e.listLevel))
  }

  /** `getListMarker`. */
  method GetListMarker(element: DocxElement, listDefinitions: ListDefinitions, counters: ListCounters)
    returns (marker: string)
    requires counters.Valid()
    modifies counters
    ensures counters.Valid()
    ensures Marking(marker, counters.counters) == MarkerOf(element, listDefinitions, old(counters.counters))
  {
    if element.numId !in listDefinitions {
      return DefaultBullet;
    }
    var levelStyles := listDefinitions[element.numId];
    if element.listLevel !in levelStyles {
      return DefaultBullet;
    }
    var style := levelStyles[element.listLevel];
    assert StyleOf(element, listDefinitions) == Some(style);
    if style.format == "bullet" {
      marker := BulletText(style.lvlText);
    } else if IsNumbered(style.format) {
      marker := TakeNumber(style.format, element.numId, element.listLevel, counters);
    } else {
      marker := DefaultBullet;
    }
    counters.ResetUpperLevels(element.numId, element.listLevel);
  }

  /** The numbered branches of `getListMarker`: one `getAndIncrement`, formatted. */
  method TakeNumber(format: string, numId: int, level: int, counters: ListCounters)
    returns (marker: string)
    requires IsNumbered(format) && counters.Valid()
    modifies counters
    ensures counters.Valid()
    ensures marker == NumberText(format, Current(old(counters.counters), numId, level))
    ensures counters.counters == Advanced(old(counters.counters), numId, level)
  {
    var v := counters.GetAndIncrement(numId, level);
    match format
    case "decimal" =>
      marker := IntToString(v) + ".";
    case "lowerLetter" =>
      marker := [LetterChar('a', v)] + ".";
    case "upperLetter" =>
      marker := [LetterChar('A', v)] + ".";
    case "lowerRoman" =>
      var roman := ToRoman(v);
      marker := LowercaseAscii(roman) + ".";
    case _ =>
      var roman := ToRoman(v);
      marker := roman + ".";
  }

  /** With no style for the item's list or level, the marker is the default bullet
      and the counter store is left exactly as it was (no reset either); this
      covers a document without any numbering definitions. */
  lemma NoStyleNoCounting(e: DocxElement, defs: ListDefinitions, m: Store)
    requires e.numId !in defs || e.listLevel !in defs[e.numId]
    ensures MarkerOf(e, defs, m) == Marking(DefaultBullet, m)
  {
  }

  /** A numbered format takes exactly one number from its own counter: afterwards
      that counter is one further, the deeper levels of the same list start again
      at 1, and every other counter reads as before. */
  lemma NumberedTakesOneNumber(e: DocxElement, defs: ListDefinitions, m: Store, numId: int, level: int)
    requires StyleOf(e, defs).Some? && IsNumbered(StyleOf(e, defs).value.format)
    ensures MarkerOf(e, defs, m).marker ==
            NumberText(StyleOf(e, defs).value.format, Current(m, e.numId, e.listLevel))
    ensures Current(MarkerOf(e, defs, m).counters, numId, level) ==
            if (numId, level) == (e.numId, e.listLevel) then Current(m, numId, level) + 1
            else if numId == e.numId && level > e.listLevel then 1
            else Current(m, numId, level)
  {
    ResetRestartsDeeper(Advanced(m, e.numId, e.listLevel), e.numId, e.listLevel, numId, level);
  }

  /** Bullet and unknown formats never take a number: the only change they make
      is forgetting the deeper counters of the list. */
  lemma UnnumberedTakesNoNumber(e: DocxElement, defs: ListDefinitions, m: Store, numId: int, level: int)
    requires StyleOf(e, defs).Some? && !IsNumbered(StyleOf(e, defs).value.format)
    ensures MarkerOf(e, defs, m).marker ==
            if StyleOf(e, defs).value.format == "bullet" then BulletText(StyleOf(e, defs).value.lvlText)
            else DefaultBullet
    ensures Current(MarkerOf(e, defs, m).counters, numId, level) ==
            if numId == e.numId && level > e.listLevel then 1 else Current(m, numId, level)
  {
    ResetRestartsDeeper(m, e.numId, e.listLevel, numId, level);
  }

  /** The items of a list: level `level` of list 1, formatted as decimals. */
  function DecimalItem(level: int): DocxElement {
    ListItemElement("", level, 1, DefaultTextStyle)
  }

  const DecimalDefs: ListDefinitions :=
    map[1 := map[0 := ListStyle("decimal", "."), 1 := ListStyle("decimal", ".")]]

  lemma DecimalMarker(level: int, m: Store)
    requires level == 0 || level == 1
    ensures MarkerOf(DecimalItem(level), DecimalDefs, m).marker == IntToString(Current(m, 1, level)) + "."
  {
    assert StyleOf(DecimalItem(level), DecimalDefs) == Some(ListStyle("decimal", "."));
  }

  /** A level-0 item of the decimal list shows its counter, which goes one
      further, and forgets the level-1 counter. */
  lemma LevelZeroItem(m: Store)
    ensures var r := MarkerOf(DecimalItem(0), DecimalDefs, m);
            && r.marker == IntToString(Current(m, 1, 0)) + "."
            && Current(r.counters, 1, 0) == Current(m, 1, 0) + 1
            && Current(r.counters, 1, 1) == 1
  {
    DecimalMarker(0, m);
    NumberedTakesOneNumber(DecimalItem(0), DecimalDefs, m, 1, 0);
    NumberedTakesOneNumber(DecimalItem(0), DecimalDefs, m, 1, 1);
  }

  /** A level-1 item shows its own counter, which goes one further, and leaves
      the level-0 counter alone. */
  lemma LevelOneItem(m: Store)
    ensures var r := MarkerOf(DecimalItem(1), DecimalDefs, m);
            && r.marker == IntToString(Current(m, 1, 1)) + "."
            && Current(r.counters, 1, 0) == Current(m, 1, 0)
            && Current(r.counters, 1, 1) == Current(m, 1, 1) + 1
  {
    DecimalMarker(1, m);
    NumberedTakesOneNumber(DecimalItem(1), DecimalDefs, m, 1, 0);
    NumberedTakesOneNumber(DecimalItem(1), DecimalDefs, m, 1, 1);
  }

  /** Outline renumbering on a two-level decimal list: level 0 counts 1, 2; a
      level-1 item then starts at 1; back at level 0 the count goes on with 3 and
      the level-1 counter is forgotten, so the next level-1 item is 1 again. */
  lemma OutlineRenumbering()
    ensures var m1 := MarkerOf(DecimalItem(0), DecimalDefs, map[]);
            var m2 := MarkerOf(DecimalItem(0), DecimalDefs, m1.counters);
            var m3 := MarkerOf(DecimalItem(1), DecimalDefs, m2.counters);
            var m4 := MarkerOf(DecimalItem(0), DecimalDefs, m3.counters);
            var m5 := MarkerOf(DecimalItem(1), DecimalDefs, m4.counters);
            m1.marker == "1." && m2.marker == "2." && m3.marker == "1."
            && m4.marker == "3." && m5.marker == "1."
  {
    SmallNumerals();
    var m1 := MarkerOf(DecimalItem(0), DecimalDefs, map[]);
    LevelZeroItem(map[]);
    assert m1.marker == "1." && Current(m1.counters, 1, 0) == 2 && Current(m1.counters, 1, 1) == 1;
    var m2 := MarkerOf(DecimalItem(0), DecimalDefs, m1.counters);
    LevelZeroItem(m1.counters);
    assert m2.marker == "2." && Current(m2.counters, 1, 0) == 3 && Current(m2.counters, 1, 1) == 1;
    var m3 := MarkerOf(DecimalItem(1), DecimalDefs, m2.counters);
    LevelOneItem(m2.counters);
    assert m3.marker == "1." && Current(m3.counters, 1, 0) == 3;
    var m4 := MarkerOf(DecimalItem(0), DecimalDefs, m3.counters);
    LevelZeroItem(m3.counters);
    assert m4.marker == "3." && Current(m4.counters, 1, 1) == 1;
    LevelOneItem(m4.counters);
  }

  lemma SmallNumerals()
    ensures IntToString(1) == "1" && IntToString(2) == "2" && IntToString(3) == "3"
  {
  }

  /** Letter markers: numbers 1 to 26 give the letters a..z (A..Z) in order. */
  lemma LetterMarkers(v: int)
    requires 1 <= v <= 26
    ensures 'a' <= LetterChar('a', v) <= 'z' && LetterChar('a', v) as int == 'a' as int + v - 1
    ensures 'A' <= LetterChar('A', v) <= 'Z' && LetterChar('A', v) as int == 'A' as int + v - 1
  {
    SmallLetterCode('a', v);
    SmallLetterCode('A', v);
  }

  /** The source does not stop at z: 27 gives the character after z (Z). */
  lemma LetterMarkersOverflow()
    ensures LetterChar('a', 27) == '{' && LetterChar('A', 27) == '['
  {
    SmallLetterCode('a', 27);
    SmallLetterCode('A', 27);
  }

  /** Without wrap-around the code is the base's plus `v - 1`. */
  lemma SmallLetterCode(base: char, v: int)
    requires 1 <= base as int + v <= 0xD800
    ensures LetterCode(base, v) == base as int + v - 1
  {
  }

  /** Roman markers are the Roman numeral of the number, lower-cased for
      `lowerRoman`, followed by a dot; out of range only the dot is left. */
  lemma RomanMarkers(v: int)
    ensures NumberText("upperRoman", v) == RomanOf(v) + "."
    ensures |NumberText("lowerRoman", v)| == |RomanOf(v)| + 1
    ensures forall c :: c in NumberText("lowerRoman", v)[..|RomanOf(v)|] ==> c in "mdclxvi"
    ensures forall k :: 0 <= k < |RomanOf(v)| ==>
              NumberText("lowerRoman", v)[k] as int == RomanOf(v)[k] as int + 32
    ensures v < 1 || v > 3999 ==> NumberText("lowerRoman", v) == "." && NumberText("upperRoman", v) == "."
  {
    RomanLetters(v);
    var r := RomanOf(v);
    var lower := NumberText("lowerRoman", v);
    assert lower[..|r|] == LowercaseAscii(r);
    forall c | c in lower[..|r|] ensures c in "mdclxvi" {
      var k :| 0 <= k < |r| && lower[k] == c;
      assert r[k] in "MDCLXVI";
    }
    forall k | 0 <= k < |r| ensures lower[k] as int == r[k] as int + 32 {
      assert r[k] in "MDCLXVI";
      assert lower[k] == LowercaseAscii(r)[k];
    }
  }

  /** The symbol-font dash bullet is shown as an en dash, and any other
      bullet text by its first character. */
  lemma BulletExamples()
    ensures BulletText("\U{F02D}") == "\U{2013}"
    ensures BulletText("o") == "o"
  {
    WingdingsShape();
    assert "o" !in Wingdings;
  }
}
