# DocxViewer decoder, modelled in Dafny

This project models the decoder of the DocxViewer Android app. The decoder turns a
`.docx` file into a list of document elements that the app then draws. The
elements are texts, newlines, list items, images and tables. The model covers:

- **Package extraction** (`parseDocx`). The zip entries are routed to the
  document part, the numbering part, the relationships part and the media files.
  Then the three parts are read in a fixed order into a new parse result.
  (`package.dfy`)
- **Relationships** (`parseDocumentRels`). Each relationship id is mapped to the
  media file name its target names. (`rels.dfy`)
- **Numbering** (`parseNumberingXml`). The abstract list definitions are read
  and copied into concrete lists. The `lvlText` marker text is cleaned: `%N`
  placeholders are removed, `&#xHHHH;` escapes are decoded, symbol-font glyphs
  are mapped, and a blank text falls back to the bullet. (`numbering.dfy`,
  `lvl_text.dfy`)
- **Document walk** (`parseDocumentXml`, `parseRunProperties`). This is the
  event-driven pass over `word/document.xml`. It handles paragraphs, list
  paragraphs, runs and their properties, legacy and embedded images, and
  tables. (`walker.dfy`, `walker_facts.dfy`)
- **List markers** (`getListMarker`, `toRoman`, the symbol-font table). The
  marker text of a list item is computed from its list definition and the
  counter store. Bullets, decimals, letters and Roman numerals are covered.
  (`markers.dfy`, `roman.dfy`, `lvl_text.dfy`)
- **List counters** (`ListCounters`). This is the mutable store of per-list,
  per-level numbers. (`counters.dfy`)

The code that changes state is modelled as methods over mutable state, in the
source's own shape:

- the `ListCounters` class;
- the `ParseResult` class, with its list of elements and its counter store;
- the walker loop over the events, with the source's local variables;
- the numbering and relationships loops;
- the zip-entry loop;
- `toRoman`'s nested loops.

Each of these methods is proved equal to a functional specification. The
event and entry loops equal a fold of a step function over their input
(`Walk`, `Numbering.Run`, `RelsFold`, `Collect`). `toRoman` equals the greedy
encoding `Greedy`. The `ListCounters` methods equal the map functions
`Advanced` and `ResetUpper`. The lemmas about what the decoder promises are
proved on those specifications.

The platform's UTF-8 decoding and XML pull parser enter the model as a
`Tokenizer` parameter. A tokenizer maps the bytes of a part to start and end
tags, or to a failure. The float arithmetic of font sizes enters as a `Metrics`
parameter. Zip decompression is represented by the sequence of entries the zip
stream yields.

## Model

Source paths are relative to the repository root.

| member | source | states |
|---|---|---|
| Strings.Trim | app/src/main/java/com/vlg/docxviewer/parser/Parser.kt:261 | `trim()` yields the infix left after removing whitespace from both ends: it has no whitespace at either end, and it is empty exactly when the input is blank |
| Strings.TrimKeepsTrimmed | app/src/main/java/com/vlg/docxviewer/parser/Parser.kt:261 | `trim()` leaves a string without end whitespace unchanged |
| Strings.TrimIdempotent | app/src/main/java/com/vlg/docxviewer/parser/Parser.kt:282 | trimming twice is trimming once |
| Strings.SubstringAfter | app/src/main/java/com/vlg/docxviewer/parser/Parser.kt:146 | the input is the text before the first delimiter, then the delimiter, then the result; without a delimiter the whole input is returned |
| Strings.SubstringAfterLast | app/src/main/java/com/vlg/docxviewer/parser/Parser.kt:114 | the result is a suffix holding no delimiter, preceded by the delimiter when the input has one; without a delimiter the whole input is returned |
| Strings.ToIntOrNull | app/src/main/java/com/vlg/docxviewer/parser/Parser.kt:194 | a value is read exactly when the text is an optional `+` or `-` followed by one or more digits and the signed value fits the 32-bit `Int` range; the value is that signed decimal value (leading zeros allowed) |
| Strings.ToIntOrNullExamples | app/src/main/java/com/vlg/docxviewer/parser/Parser.kt:194 | `+5` reads as 5, `007` as 7, and `-` and `1.5` read as nothing |
| Strings.IntToStringRoundTrip | app/src/main/java/com/vlg/docxviewer/parser/Parser.kt:52 | reading back the decimal text of an `Int` gives the same `Int` |
| Strings.LowercaseAscii | app/src/main/java/com/vlg/docxviewer/parser/Parser.kt:73 | keeps the length, maps each ASCII capital to its small letter and keeps every other character |
| Strings.CodeUnitChar | app/src/main/java/com/vlg/docxviewer/parser/Parser.kt:404 | a code unit that is not a surrogate is the character with that code |
| Xml.GetAttributeValue | app/src/main/java/com/vlg/docxviewer/parser/Parser.kt:143-144 | an attribute is found exactly when one with that name (and, if given, that namespace) exists; the search runs from the last attribute backwards |
| Xml.LastMatchWins | app/src/main/java/com/vlg/docxviewer/parser/Parser.kt:143-144 | the value found is that of a matching attribute with no matching attribute after it |
| Xml.IntAttr | app/src/main/java/com/vlg/docxviewer/parser/Parser.kt:391-395 | a missing attribute gives the default; a present one succeeds exactly when it reads as an `Int` (`toInt()` throws otherwise), and then gives the value read |
| Counters.Current | app/src/main/java/com/vlg/docxviewer/parser/ListCounters.kt:8 | an unseen (list, level) reads as 1, a seen one as its stored number |
| Counters.Advanced | app/src/main/java/com/vlg/docxviewer/parser/ListCounters.kt:6-11 | one more key at most, that key one past the number handed out, every other entry unchanged |
| Counters.ResetUpper | app/src/main/java/com/vlg/docxviewer/parser/ListCounters.kt:13-19 | exactly the entries of that list at deeper levels are removed; the rest keep their values |
| Counters.ListCounters.constructor | app/src/main/java/com/vlg/docxviewer/parser/ListCounters.kt:4 | a new store is empty |
| Counters.ListCounters.GetAndIncrement | app/src/main/java/com/vlg/docxviewer/parser/ListCounters.kt:6-11 | returns the current number (at least 1) and leaves the store advanced for that key only |
| Counters.ListCounters.ResetUpperLevels | app/src/main/java/com/vlg/docxviewer/parser/ListCounters.kt:13-19 | after collecting the matching keys and removing them one by one, the store is `ResetUpper` of the old store |
| Counters.SuccessiveNumbers | app/src/main/java/com/vlg/docxviewer/parser/ListCounters.kt:6-11 | successive calls on an unseen key hand out 1, 2, 3, … |
| Counters.AdvancedTimesFrame | app/src/main/java/com/vlg/docxviewer/parser/ListCounters.kt:6-11 | repeated calls on one key never change another key |
| Counters.ResetRestartsDeeper | app/src/main/java/com/vlg/docxviewer/parser/ListCounters.kt:13-19 | after a reset, deeper levels of the list start again at 1 and everything else continues where it was |
| Counters.ResetIdempotent | app/src/main/java/com/vlg/docxviewer/parser/ListCounters.kt:13-19 | resetting twice is resetting once |
| Counters.ResetEmpty | app/src/main/java/com/vlg/docxviewer/parser/ListCounters.kt:13-19 | resetting an empty store leaves it empty |
| Counters.OperationsKeepStoreValid | app/src/main/java/com/vlg/docxviewer/parser/ListCounters.kt:3-19 | both operations keep every stored number at least 2, so every number handed out is at least 1 |
| Roman.ToRoman | app/src/main/java/com/vlg/docxviewer/parser/Parser.kt:23-37 | the nested loops produce the greedy encoding over the 13-entry table, and the empty string outside 1..3999 |
| Roman.Greedy | app/src/main/java/com/vlg/docxviewer/parser/Parser.kt:25-35 | the specification of `toRoman`: from table entry `i`, take the largest numeral not above `n`, append it and continue; its properties are `DecodeGreedy`, `GreedyLetters` and `RomanRoundTrip` |
| Roman.DecodeGreedy | app/src/main/java/com/vlg/docxviewer/parser/Parser.kt:25-35 | the classical reading of a greedy encoding is the number encoded |
| Roman.RomanRoundTrip | app/src/main/java/com/vlg/docxviewer/parser/Parser.kt:23-37 | every number in 1..3999 has a non-empty numeral that reads back as itself |
| Roman.RomanLetters | app/src/main/java/com/vlg/docxviewer/parser/Parser.kt:23-37 | only the letters MDCLXVI are written, and the result is empty exactly outside 1..3999 |
| Roman.RomanExamples | app/src/main/java/com/vlg/docxviewer/parser/Parser.kt:23-37 | 4 is IV, 1999 is MCMXCIX, and 0 and 4000 give the empty string |
| Glyphs.WingdingsShape | app/src/main/java/com/vlg/docxviewer/parser/Parser.kt:16-21 | the table has exactly the four keys U+F0B7, U+F0A8, U+F09F and U+F02D, each mapped to a visible one-character glyph, and the bullet is visible |
| LvlText.SymbolGlyphs | app/src/main/java/com/vlg/docxviewer/parser/Parser.kt:16-21 | the four glyphs U+F0B7, U+F0A8, U+F09F, U+F02D map to U+2022, U+25E6, U+25AA, U+2013; U+F0D1 (named by the comment) is not mapped |
| LvlText.DropDigits | app/src/main/java/com/vlg/docxviewer/parser/Parser.kt:401 | the result is a suffix that does not start with a digit, and everything dropped before it is a digit |
| LvlText.RemovePlaceholders | app/src/main/java/com/vlg/docxviewer/parser/Parser.kt:401 | no `%` followed by a digit is left, the text never grows, and text with no `%`-digit placeholder is unchanged |
| LvlText.RemovePlaceholdersConcat | app/src/main/java/com/vlg/docxviewer/parser/Parser.kt:401 | removing placeholders from `x + z` is removing them from each part, when `x` does not end in the middle of a placeholder and `z` does not start with a digit |
| LvlText.PlaceholderRemoved | app/src/main/java/com/vlg/docxviewer/parser/Parser.kt:401 | a `%` followed by a maximal run of digits is removed, and the text on either side is cleaned independently |
| LvlText.DecodeEscapes | app/src/main/java/com/vlg/docxviewer/parser/Parser.kt:402-405 | the text never grows, and text without `&` is unchanged; `EscapeDecodedAnywhere` and `NoEscapeKept` state that every escape is decoded wherever it occurs and everything else is kept |
| LvlText.EscapeRoundTrip | app/src/main/java/com/vlg/docxviewer/parser/Parser.kt:402-405 | an escape `&#xHHHH;` of a Basic Multilingual Plane character at the start of the text decodes to that character, followed by the decoding of the rest |
| LvlText.EscapeDecodedAnywhere | app/src/main/java/com/vlg/docxviewer/parser/Parser.kt:402-405 | an escape anywhere in the text decodes to its character, and the text on either side is decoded independently |
| LvlText.DecodeEscapesConcat | app/src/main/java/com/vlg/docxviewer/parser/Parser.kt:402-405 | decoding splits over a concatenation whose second part starts with `&`, since no match can run across that `&` |
| LvlText.NoEscapeKept | app/src/main/java/com/vlg/docxviewer/parser/Parser.kt:402-405 | text in which `&#x([0-9A-F]{4});` matches nowhere is kept as written |
| LvlText.InnerEscapeExample | app/src/main/java/com/vlg/docxviewer/parser/Parser.kt:402-405 | `(&#x2022;)` decodes to `(•)` |
| LvlText.LowercaseEscapeKept | app/src/main/java/com/vlg/docxviewer/parser/Parser.kt:402-405 | the lowercase escape `&#xf0b7;` is kept as written |
| LvlText.MapGlyph | app/src/main/java/com/vlg/docxviewer/parser/Parser.kt:407 | a symbol-font glyph is mapped; another visible text is kept; a blank text becomes the bullet; the result is never blank |
| LvlText.CleanLvlText | app/src/main/java/com/vlg/docxviewer/parser/Parser.kt:399-410 | the cleaned marker text is never blank, and a missing attribute gives the bullet |
| LvlText.CleanTemplateExample | app/src/main/java/com/vlg/docxviewer/parser/Parser.kt:399-410 | `%1.` is cleaned to `.` |
| LvlText.CleanPlaceholderOnlyExample | app/src/main/java/com/vlg/docxviewer/parser/Parser.kt:399-410 | `%1` alone is cleaned to the bullet |
| LvlText.CleanEscapedSymbolExample | app/src/main/java/com/vlg/docxviewer/parser/Parser.kt:399-410 | `&#xF0B7;` is cleaned to U+2022 |
| Markers.LetterCode | app/src/main/java/com/vlg/docxviewer/parser/Parser.kt:54-57 | `'a' + n - 1` on `Char` stays a 16-bit code unit |
| Markers.NumberText | app/src/main/java/com/vlg/docxviewer/parser/Parser.kt:52-83 | the specification of the numbered formats, from the number taken; its properties are `DecimalMarker`, `LetterMarkers` and `RomanMarkers` |
| Markers.BulletText | app/src/main/java/com/vlg/docxviewer/parser/Parser.kt:48-50 | an empty `lvlText` gives the bullet; a symbol-font key gives its glyph; any other text gives its first character |
| Markers.BulletExamples | app/src/main/java/com/vlg/docxviewer/parser/Parser.kt:48-50 | U+F02D gives U+2013, and `o` gives `o` |
| Markers.MarkerOf | app/src/main/java/com/vlg/docxviewer/parser/Parser.kt:39-89 | the marker is never empty |
| Markers.GetListMarker | app/src/main/java/com/vlg/docxviewer/parser/Parser.kt:39-89 | the marker and the new counter store are those of `MarkerOf` on the old store |
| Markers.TakeNumber | app/src/main/java/com/vlg/docxviewer/parser/Parser.kt:52-83 | the numbered formats take exactly one number, formatted per format, and advance only that counter |
| Markers.NoStyleNoCounting | app/src/main/java/com/vlg/docxviewer/parser/Parser.kt:44-45 | with no style for the list or level, the marker is the bullet and the store is untouched (no reset either) |
| Markers.NumberedTakesOneNumber | app/src/main/java/com/vlg/docxviewer/parser/Parser.kt:52-88 | a numbered item shows its counter's current number; afterwards that counter is one further, deeper levels restart at 1 and all else is unchanged |
| Markers.UnnumberedTakesNoNumber | app/src/main/java/com/vlg/docxviewer/parser/Parser.kt:47-88 | bullet and unknown formats take no number; they only forget deeper counters of the list |
| Markers.DecimalMarker | app/src/main/java/com/vlg/docxviewer/parser/Parser.kt:52 | a decimal marker is the counter's number followed by a dot |
| Markers.OutlineRenumbering | app/src/main/java/com/vlg/docxviewer/parser/Parser.kt:52-88 | items at levels 0, 0, 1, 0, 1 of a decimal list are marked 1., 2., 1., 3., 1. |
| Markers.LetterMarkers | app/src/main/java/com/vlg/docxviewer/parser/Parser.kt:53-65 | numbers 1..26 give the letters a..z (A..Z) in alphabetical order |
| Markers.LetterMarkersOverflow | app/src/main/java/com/vlg/docxviewer/parser/Parser.kt:53-65 | 27 gives the character after z (`{`), after Z (`[`): there is no bound at 26 |
| Markers.RomanMarkers | app/src/main/java/com/vlg/docxviewer/parser/Parser.kt:67-83 | Roman markers are the numeral plus a dot, and just a dot out of range; for `lowerRoman` each letter is the upper-case numeral's letter plus 32 (its small letter) |
| Numbering.Put | app/src/main/java/com/vlg/docxviewer/parser/Parser.kt:422-423 | `getOrPut(...)[level] = style` adds that one level, keeping the other levels and the other definitions |
| Numbering.NumberingOf | app/src/main/java/com/vlg/docxviewer/parser/Parser.kt:371-373 | an empty part gives no definitions |
| Numbering.Step | app/src/main/java/com/vlg/docxviewer/parser/Parser.kt:388-430 | the specification of one event of the loop, with the variables of `parseNumberingXml` as state; `toInt()` failures are failures; its properties are `StepKeepsWellFormed`, `LevelEndStoresCurrentStyle` and `NumberingChangesOnlyAtLink` |
| Numbering.Run | app/src/main/java/com/vlg/docxviewer/parser/Parser.kt:386-432 | the fold of `Step` over the events, stopping at the first failure; its properties are `RunAppend` and `RunKeepsWellFormed` |
| Numbering.ParseNumberingXml | app/src/main/java/com/vlg/docxviewer/parser/Parser.kt:371-434 | the loop with the source's variables returns `NumberingOf` of the part, failures included |
| Numbering.StepKeepsWellFormed | app/src/main/java/com/vlg/docxviewer/parser/Parser.kt:420-425 | no event breaks the reader's well-formedness |
| Numbering.PutKeepsWellFormed | app/src/main/java/com/vlg/docxviewer/parser/Parser.kt:421-423 | storing a level with real ids and a visible text keeps the definitions well formed |
| Numbering.RunKeepsWellFormed | app/src/main/java/com/vlg/docxviewer/parser/Parser.kt:388-432 | a whole run keeps the reader well formed |
| Numbering.NumberingWellFormed | app/src/main/java/com/vlg/docxviewer/parser/Parser.kt:371-434 | every list returned has real level numbers (never -1) and a visible marker text at every level |
| Numbering.LevelEndStoresCurrentStyle | app/src/main/java/com/vlg/docxviewer/parser/Parser.kt:421-425 | a level is stored only inside an abstract definition with both ids known, with the last format and text read, which stay in force |
| Numbering.NumberingChangesOnlyAtLink | app/src/main/java/com/vlg/docxviewer/parser/Parser.kt:412-417 | only an `abstractNumId` tag writes to the result |
| Numbering.SnapshotIsStable | app/src/main/java/com/vlg/docxviewer/parser/Parser.kt:412-417 | the copy a list takes is a snapshot: later levels of the abstract definition do not reach it |
| Numbering.LinkBeforeDefinitionIsLost | app/src/main/java/com/vlg/docxviewer/parser/Parser.kt:412-417 | a link to an abstract definition not yet read adds nothing |
| Numbering.BadNumberFails | app/src/main/java/com/vlg/docxviewer/parser/Parser.kt:391 | a `numId` that is not an `Int` makes the reader fail |
| Numbering.RunAppend | app/src/main/java/com/vlg/docxviewer/parser/Parser.kt:388-432 | reading two pieces of events is reading the first, then the second |
| Numbering.AbstractPartRun | app/src/main/java/com/vlg/docxviewer/parser/Parser.kt:392-427 | a one-level decimal abstract definition is stored with marker text `.` |
| Numbering.AbstractCloseSteps | app/src/main/java/com/vlg/docxviewer/parser/Parser.kt:421-425 | closing the level and the abstract definition stores the level with the text read and resets the ids |
| Numbering.NumPartRun | app/src/main/java/com/vlg/docxviewer/parser/Parser.kt:391-428 | a list linking to abstract definition 0 copies it as it stands, or gets nothing |
| Numbering.NumPartFrame | app/src/main/java/com/vlg/docxviewer/parser/Parser.kt:391-428 | a list part leaves the abstract definitions and the level state alone |
| Numbering.DefinitionOrderMatters | app/src/main/java/com/vlg/docxviewer/parser/Parser.kt:412-417 | abstract definition first: list 1 gets the decimal level; list first: the result is empty |
| Relationships.RelsOf | app/src/main/java/com/vlg/docxviewer/parser/Parser.kt:131-133 | an empty part gives no relationships |
| Relationships.RelsStep | app/src/main/java/com/vlg/docxviewer/parser/Parser.kt:141-147 | the specification of one event: a `Relationship` tag with both `Id` and `Target` maps the id to the part of the target after `media/`; its property is `RelsStepFrame` |
| Relationships.RelsFold | app/src/main/java/com/vlg/docxviewer/parser/Parser.kt:140-150 | the fold of `RelsStep` over the events; its properties are `RelsDomain` and `RelsLastWins` |
| Relationships.ParseDocumentRels | app/src/main/java/com/vlg/docxviewer/parser/Parser.kt:131-152 | the loop returns `RelsOf` of the part, failures included |
| Relationships.RelsStepFrame | app/src/main/java/com/vlg/docxviewer/parser/Parser.kt:142-147 | one tag sets the id it declares to its target's file name and leaves every other id alone |
| Relationships.RelsDomain | app/src/main/java/com/vlg/docxviewer/parser/Parser.kt:141-150 | the ids mapped are exactly those of `Relationship` tags having both an `Id` and a `Target` |
| Relationships.DeclaredIdMapped | app/src/main/java/com/vlg/docxviewer/parser/Parser.kt:141-150 | every id of a `Relationship` tag with both an `Id` and a `Target` is mapped |
| Relationships.MappedIdDeclared | app/src/main/java/com/vlg/docxviewer/parser/Parser.kt:141-150 | every mapped id comes from such a tag |
| Relationships.RelsLastWins | app/src/main/java/com/vlg/docxviewer/parser/Parser.kt:146 | an id declared more than once maps to its last declaration's file name |
| Relationships.TargetNameExamples | app/src/main/java/com/vlg/docxviewer/parser/Parser.kt:146 | `media/image1.png` maps to `image1.png`, and an external URL without `media/` is kept whole |
| Relationships.NoMediaIn | app/src/main/java/com/vlg/docxviewer/parser/Parser.kt:146 | a target without `m` is kept whole |
| Walker.RunProps | app/src/main/java/com/vlg/docxviewer/parser/Parser.kt:343-364 | the walk resumes on a suffix of the events |
| Walker.FontSize | app/src/main/java/com/vlg/docxviewer/parser/Parser.kt:351-354 | the specification of `sz`: its `val` read as a float, or 24 half-points, converted for display |
| Walker.RunPropStep | app/src/main/java/com/vlg/docxviewer/parser/Parser.kt:349-358 | the specification of one tag inside `rPr`; its properties are `RunPropStepKeepsFlags` and `RunPropsFlags` |
| Walker.ParseRunProperties | app/src/main/java/com/vlg/docxviewer/parser/Parser.kt:343-364 | the loop returns the style and the position after the closing `rPr`, as `RunProps` from the default style |
| Walker.CellStart | app/src/main/java/com/vlg/docxviewer/parser/Parser.kt:190-200 | a new cell is empty, its merge flag is 0 or 1, and its column span is an `Int` |
| Walker.AddRow | app/src/main/java/com/vlg/docxviewer/parser/Parser.kt:246 | a row is appended to an open table, and nothing happens without one |
| Walker.AddCell | app/src/main/java/com/vlg/docxviewer/parser/Parser.kt:253 | a cell is appended to an open row, and nothing happens without one |
| Walker.ParseDocumentXml | app/src/main/java/com/vlg/docxviewer/parser/Parser.kt:154-341 | the loop succeeds exactly when `DocumentOf` does, and then leaves the result's elements and counter store as `DocumentOf` gives them |
| Walker.StartTag | app/src/main/java/com/vlg/docxviewer/parser/Parser.kt:185-233 | the specification of one start tag other than `rPr`; its properties are `StartTagFailure`, `StartTagKeepsElements`, `StartTagKeepsCounters` and `StartTagFrame` |
| Walker.EndTag | app/src/main/java/com/vlg/docxviewer/parser/Parser.kt:235-336 | the specification of one end tag; its properties are `EndTagExtendsElements`, `EndTagCounters` and `EndTagWellFormed` |
| Walker.ParagraphEnd | app/src/main/java/com/vlg/docxviewer/parser/Parser.kt:259-302 | the specification of the `p` end tag; its properties are `ParagraphEndClears`, `ParagraphEndInCell`, `ParagraphEndListItem` and `ParagraphEndPlain` |
| Walker.RunEnd | app/src/main/java/com/vlg/docxviewer/parser/Parser.kt:304-333 | the specification of the `r` end tag; its property is `RunEndOutcome` |
| Walker.Walk | app/src/main/java/com/vlg/docxviewer/parser/Parser.kt:183-340 | the fold of the event steps, with `rPr` handed to `RunProps`, stopping at the first failure; its properties are `WalkExtendsElements`, `WalkKeepsEmptyCounters` and `WalkWellFormed` |
| Walker.DocumentOf | app/src/main/java/com/vlg/docxviewer/parser/Parser.kt:154-341 | the specification of `parseDocumentXml`: tokenize, then walk from the result's elements and counters; its property is `DocumentIsWellFormed` |
| Walker.EndParagraph | app/src/main/java/com/vlg/docxviewer/parser/Parser.kt:259-302 | a paragraph end updates the result and the walker's variables as `ParagraphEnd` does |
| Walker.EndRun | app/src/main/java/com/vlg/docxviewer/parser/Parser.kt:304-333 | a run end appends the images `RunEnd` finds and clears both pending ids |
| WalkerFacts.StepKeepsEmptyCounters | app/src/main/java/com/vlg/docxviewer/parser/Parser.kt:271-278 | the reset on a list change keeps an empty counter store empty |
| WalkerFacts.StartTagKeepsCounters | app/src/main/java/com/vlg/docxviewer/parser/Parser.kt:185-233 | no start tag changes the counter store |
| WalkerFacts.StartTagKeepsElements | app/src/main/java/com/vlg/docxviewer/parser/Parser.kt:185-233 | no start tag changes the elements |
| WalkerFacts.StartTagFailure | app/src/main/java/com/vlg/docxviewer/parser/Parser.kt:209-216 | a start tag fails exactly at an `ilvl` or `numId` inside `numPr` whose `val` is present and not an `Int` |
| WalkerFacts.EndTagExtendsElements | app/src/main/java/com/vlg/docxviewer/parser/Parser.kt:235-336 | an end tag only appends to the elements, and one outside the WordprocessingML namespace changes nothing |
| WalkerFacts.EndTagCounters | app/src/main/java/com/vlg/docxviewer/parser/Parser.kt:235-336 | the only end tag that changes the counter store is a list paragraph outside a cell whose list differs from the previous one, and it forgets that previous list from the item's level down |
| WalkerFacts.WalkKeepsEmptyCounters | app/src/main/java/com/vlg/docxviewer/parser/Parser.kt:183-340 | a walk over a fresh result leaves its counter store empty |
| WalkerFacts.StepExtendsElements | app/src/main/java/com/vlg/docxviewer/parser/Parser.kt:235-336 | one event only appends to the elements |
| WalkerFacts.WalkExtendsElements | app/src/main/java/com/vlg/docxviewer/parser/Parser.kt:183-340 | the elements held before the walk are a prefix of those after it |
| WalkerFacts.PairedAppend | app/src/main/java/com/vlg/docxviewer/parser/Parser.kt:289-297 | the Text-then-Newline pairing survives concatenation |
| WalkerFacts.AppendWellFormed | app/src/main/java/com/vlg/docxviewer/parser/Parser.kt:235-336 | well-formed element lists stay well formed when concatenated |
| WalkerFacts.ParagraphEndWellFormed | app/src/main/java/com/vlg/docxviewer/parser/Parser.kt:259-302 | a paragraph end keeps the output well formed |
| WalkerFacts.RunEndWellFormed | app/src/main/java/com/vlg/docxviewer/parser/Parser.kt:304-333 | a run end keeps the output well formed |
| WalkerFacts.EndTagWellFormed | app/src/main/java/com/vlg/docxviewer/parser/Parser.kt:235-336 | every end tag keeps the output well formed |
| WalkerFacts.StartTagWellFormed | app/src/main/java/com/vlg/docxviewer/parser/Parser.kt:185-233 | every start tag keeps the output well formed |
| WalkerFacts.StartTagFrame | app/src/main/java/com/vlg/docxviewer/parser/Parser.kt:185-233 | start tags other than `tbl`, `tr` and `tc` leave the elements, the counters, the table state and the style alone |
| WalkerFacts.StepWellFormed | app/src/main/java/com/vlg/docxviewer/parser/Parser.kt:184-336 | every event keeps the output well formed |
| WalkerFacts.WalkWellFormed | app/src/main/java/com/vlg/docxviewer/parser/Parser.kt:183-340 | a walk keeps the output well formed |
| WalkerFacts.DocumentIsWellFormed | app/src/main/java/com/vlg/docxviewer/parser/Parser.kt:154-341 | the document read into a fresh result has: trimmed texts; list items with a level and a list; images from the media files; cells of non-empty trimmed texts; every Text followed by a Newline and every Newline preceded by a Text; and an empty counter store |
| WalkerFacts.ParagraphEndClears | app/src/main/java/com/vlg/docxviewer/parser/Parser.kt:299-301 | a paragraph end clears the buffer and the list ids, and keeps the style, the pending images and the table state |
| WalkerFacts.ParagraphEndInCell | app/src/main/java/com/vlg/docxviewer/parser/Parser.kt:260-270 | inside a cell, the trimmed text joins the cell exactly when the paragraph is not blank, and nothing reaches the top level |
| WalkerFacts.ParagraphEndListItem | app/src/main/java/com/vlg/docxviewer/parser/Parser.kt:271-288 | a paragraph with both list ids gives one list item; on a change of list, the previous list's counters from this level down are reset first |
| WalkerFacts.ParagraphEndPlain | app/src/main/java/com/vlg/docxviewer/parser/Parser.kt:289-298 | a non-empty paragraph gives its trimmed text and a newline; an empty one gives nothing |
| WalkerFacts.BlankParagraphGivesEmptyText | app/src/main/java/com/vlg/docxviewer/parser/Parser.kt:289-297 | a paragraph of spaces still gives an empty Text and a Newline, because the emptiness test comes before trimming |
| WalkerFacts.ListParagraphInCellIsText | app/src/main/java/com/vlg/docxviewer/parser/Parser.kt:260-271 | a list paragraph in a cell becomes plain cell text |
| WalkerFacts.StepKeepsStyle | app/src/main/java/com/vlg/docxviewer/parser/Parser.kt:185-336 | no single event changes the run style |
| WalkerFacts.StyleOnlyChangesAtRunProps | app/src/main/java/com/vlg/docxviewer/parser/Parser.kt:203 | without an `rPr`, the style carries over across paragraphs |
| WalkerFacts.RunEndOutcome | app/src/main/java/com/vlg/docxviewer/parser/Parser.kt:304-333 | a run end appends at most two images, all from the media files, clears both ids and leaves the table state alone; with no pending id it changes nothing else |
| WalkerFacts.PictureFoundTwice | app/src/main/java/com/vlg/docxviewer/parser/Parser.kt:304-333 | a picture with drawing id 1 that is also linked as `media/image1.png` is added twice |
| WalkerFacts.CellSpans | app/src/main/java/com/vlg/docxviewer/parser/Parser.kt:193-199 | the merge flag is 1 exactly for `vMerge="restart"`; a `gridSpan` written as an `Int` is that span; without one the span is 1 |
| WalkerFacts.WalkParagraph | app/src/main/java/com/vlg/docxviewer/parser/Parser.kt:204-205 | a paragraph of one run of text reaches its end with that text in the buffer |
| WalkerFacts.PlainParagraphExample | app/src/main/java/com/vlg/docxviewer/parser/Parser.kt:289-298 | a plain paragraph gives its text and a newline in the current style, and the walker is back at the top level |
| WalkerFacts.OpenOneCell | app/src/main/java/com/vlg/docxviewer/parser/Parser.kt:188-200 | `tbl`, `tr`, `tc` open an empty table, row and one-column, unmerged cell |
| WalkerFacts.CellParagraph | app/src/main/java/com/vlg/docxviewer/parser/Parser.kt:260-270 | a paragraph in a cell adds its text to the cell |
| WalkerFacts.CloseOneCell | app/src/main/java/com/vlg/docxviewer/parser/Parser.kt:237-257 | closing the cell, row and table gives one Table element |
| WalkerFacts.OneCellTableExample | app/src/main/java/com/vlg/docxviewer/parser/Parser.kt:188-257 | a one-cell table gives a single Table element whose cell holds the text, spans one column and is not merged |
| WalkerFacts.RunPropsStopsAtClose | app/src/main/java/com/vlg/docxviewer/parser/Parser.kt:347 | run properties are read up to the first closing `rPr`, and the walk resumes right after it |
| WalkerFacts.RunPropsFlags | app/src/main/java/com/vlg/docxviewer/parser/Parser.kt:349-358 | each of bold, italic and underline is set exactly when its tag occurs, whatever its value; the size changes only with an `sz` tag |
| WalkerFacts.RunPropStepKeepsFlags | app/src/main/java/com/vlg/docxviewer/parser/Parser.kt:349-358 | one tag inside `rPr` never clears bold, italic or underline, and only an `sz` tag changes the size |
| WalkerFacts.RunPropsRestartFromDefault | app/src/main/java/com/vlg/docxviewer/parser/Parser.kt:343-364 | each `rPr` starts again from size 14 with no emphasis, so a flag not repeated is lost |
| Package.ExtractPackage | app/src/main/java/com/vlg/docxviewer/parser/Parser.kt:100-118 | the entry loop builds the package `Collect` gives |
| Package.ParseDocx | app/src/main/java/com/vlg/docxviewer/parser/Parser.kt:92-129 | the parse succeeds exactly when `ParsedOf` does, and then returns a fresh result holding its elements, definitions and counter store |
| Package.Route | app/src/main/java/com/vlg/docxviewer/parser/Parser.kt:103-117 | the specification of one zip entry, routed by its path; its properties are `RouteFrame` and `RouteMediaFrame` |
| Package.Collect | app/src/main/java/com/vlg/docxviewer/parser/Parser.kt:100-118 | the fold of `Route` over the entries; its properties are `LastCopyWins`, `MissingPartIsEmpty` and `MediaKeys` |
| Package.ParsedOf | app/src/main/java/com/vlg/docxviewer/parser/Parser.kt:92-129 | the specification of `parseDocx`: relationships, then numbering, then the document, each failure ending the parse; its property is `ParsedIsWellFormed` |
| Package.RouteFrame | app/src/main/java/com/vlg/docxviewer/parser/Parser.kt:103-112 | an entry changes only the part its path names |
| Package.LastCopyWins | app/src/main/java/com/vlg/docxviewer/parser/Parser.kt:101-112 | a part occurring more than once is read from its last copy |
| Package.MissingPartIsEmpty | app/src/main/java/com/vlg/docxviewer/parser/Parser.kt:96-98 | a part that does not occur is empty |
| Package.RouteMediaFrame | app/src/main/java/com/vlg/docxviewer/parser/Parser.kt:113-116 | a media entry sets its own key and keeps the others |
| Package.MediaKeyHasEntry | app/src/main/java/com/vlg/docxviewer/parser/Parser.kt:113-116 | every media key comes from an entry under `word/media/` |
| Package.MediaEntryHasKey | app/src/main/java/com/vlg/docxviewer/parser/Parser.kt:113-116 | every entry under `word/media/` leaves its key |
| Package.MediaKeys | app/src/main/java/com/vlg/docxviewer/parser/Parser.kt:113-116 | the media keys are exactly the last path segments of the entries under `word/media/` |
| Package.LastMediaWins | app/src/main/java/com/vlg/docxviewer/parser/Parser.kt:113-116 | media files with the same last segment overwrite each other, whatever sub-folder they are in |
| Package.MediaKeysAreFileNames | app/src/main/java/com/vlg/docxviewer/parser/Parser.kt:114 | no media key holds a `/` |
| Package.MediaFolderEntry | app/src/main/java/com/vlg/docxviewer/parser/Parser.kt:113-116 | an entry named `word/media/` is stored under the empty name |
| Package.UnrelatedEntryIgnored | app/src/main/java/com/vlg/docxviewer/parser/Parser.kt:103-117 | any other entry changes nothing |
| Package.ParsedIsWellFormed | app/src/main/java/com/vlg/docxviewer/parser/Parser.kt:124-128 | a successful parse yields well-formed elements whose images come from the archive, with an empty counter store |
| Package.BadRelsFails | app/src/main/java/com/vlg/docxviewer/parser/Parser.kt:124 | a relationships part the XML reader rejects makes the whole parse fail |
| Package.NoNumberingAllBullets | app/src/main/java/com/vlg/docxviewer/parser/Parser.kt:125 | without a numbering part there are no definitions, and every list item is marked with the bullet without touching the counters |
| Docx.ParseResult.constructor | app/src/main/java/com/vlg/docxviewer/parser/ParseResult.kt:3-7 | a new result holds the given elements and definitions and a fresh, empty counter store |

## Left out

- The display side is not part of this model: `Displayer.kt`, the fragments, `MainActivity.kt` and `Navigator.kt`. They are consumers of the parse result. The model ends where the counter store is handed over, empty.
- Zip decompression and the stream are outside the model; the entries arrive as a sequence. A zip read failure is caught and logged at `Parser.kt:119-121`. The model represents it as the sequence ending early, at the last entry read whole. Closing the stream is not modelled.
- UTF-8 decoding and the XML pull parser are outside the model; they enter as the `Tokenizer` parameter. A part that is not well-formed XML becomes a failure. The source does not catch that failure, so `parseDocx` fails with it.
- `nextText()` is represented by the text carried on the `t` start event. Its own exception, for a `t` with child elements, belongs to the tokenizer.
- Float arithmetic is a parameter: `toFloatOrNull` on `sz` and `halfPointsToSp`, which halves, scales by the screen density and rounds. Font sizes are `real`.
- The `Log.d` and `Log.e` calls are left out.
- Counters.ListCounters.GetAndIncrement: does not model the 32-bit wrap-around of `current + 1` at `Int.MAX_VALUE`. Numbers are unbounded, because more than two billion items in one list is out of reach.
- Strings.ToIntOrNull: accepts ASCII digits only. Kotlin also accepts other Unicode decimal digits, which WordprocessingML attribute values do not use.
- Strings.CodeUnitChar: a lone UTF-16 surrogate is written as U+FFFD. Dafny characters are Unicode scalar values. This affects letter markers whose code falls in D800–DFFF and `&#xD8xx;` escapes.
- Markers.BulletText: the first character of a `lvlText` outside the Basic Multilingual Plane is the whole character. Kotlin's `first()` would take its high surrogate.
- Walker.RunProps: an `rPr` that is never closed ends at the last event. The `Tokenizer` parameter is unconstrained, so a tokenizer can yield such events: the model's walk then succeeds with the style read so far, where the platform parser would reject the part.
- Walker.ParseDocumentXml: on failure, the contents of the result are left unspecified. The exception escapes `parseDocx`, so no caller sees them.

Notes on the source:

- `gridSpan` and `vMerge` are read as attributes of the `tc` element (`Parser.kt:193-199`). The model does the same. In WordprocessingML they are child elements of `tcPr`, so on ordinary documents every cell has span 1 and merge flag 0.
- `TextStyle.kt` has no `isUnderscore` field, but `Parser.kt:358` sets one. The model follows `Parser.kt`.
- The comment on the fourth symbol-font entry (`Parser.kt:20`) names U+F0D1, but the key written there is U+F02D. The model follows the key (`LvlText.SymbolGlyphs`).
- `ListStyle.kt` is not part of this model. `ListStyle(format, lvlText)` is taken from its use at `Parser.kt:423`.
- A picture can reach the output twice (`WalkerFacts.PictureFoundTwice`). This happens when its drawing id names `image<id>.png` and its relationship names the same file.
