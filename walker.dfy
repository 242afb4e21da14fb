/** `parseDocumentXml` and `parseRunProperties`: one pass over the events of
    `word/document.xml` that turns paragraphs, list paragraphs, images and
    tables into document elements. */
module Walker {
  import opened Common
  import opened Strings
  import opened Xml
  import opened Docx
  import opened Counters
  import opened Relationships

  /** The float side of `sz`, outside the model: reading the attribute as a
      `Float` (`toFloatOrNull`) and converting half-points to display units with
      the screen's scaled density (`halfPointsToSp`). */
  datatype Metrics = Metrics(toFloatOrNull: string -> Option<real>, halfPointsToSp: real -> real)

  /** What the walk reads besides the events: the media files by name, the
      relationship map and the font-size conversion. */
  datatype Context = Context(images: map<string, seq<byte>>, rels: Relationships, metrics: Metrics)

  /** The walker's variables, and the two parts of the parse result it changes. */
  datatype WalkerState = WalkerState(
    paragraph: string,
    listLevel: int,
    numId: int,
    insideNumPr: bool,
    style: TextStyle,
    imageId: string,
    imageRelId: string,
    previousNumId: int,
    table: Option<DocxTable>,
    row: Option<TableRowDocx>,
    cell: Option<TableCell>,
    cellElements: seq<DocxElement>,
    elements: seq<DocxElement>,
    counters: Store)

  function InitialWalker(elements: seq<DocxElement>, counters: Store): WalkerState {
    WalkerState("", -1, -1, false, DefaultTextStyle, "", "", -1, None, None, None, [], elements, counters)
  }

  function OrEmpty(v: Option<string>): string {
    match v
    case Some(s) => s
    case None => ""
  }

  // ---------------------------------------------------------------- run properties

  /** The display size an `sz` tag gives: its `val` read as a float, 24 half-points
      when it is missing or unreadable. */
  function FontSize(metrics: Metrics, attrs: seq<Attribute>): real {
    var halfPoints := match GetAttributeValue(attrs, None, "val")
                      case None => 24.0
                      case Some(v) =>
                        (match metrics.toFloatOrNull(v)
                         case Some(f) => f
                         case None => 24.0);
    metrics.halfPointsToSp(halfPoints)
  }

  /** One event inside `rPr`: the tags `sz`, `b`, `i` and `u` (any namespace)
      change the style; any other event leaves it. */
  function RunPropStep(metrics: Metrics, style: TextStyle, e: Event): TextStyle {
    match e
    case Start(_, name, attrs, _) =>
      if name == "sz" then style.(fontSize := FontSize(metrics, attrs))
      else if name == "b" then style.(isBold := true)
      else if name == "i" then style.(isItalic := true)
      else if name == "u" then style.(isUnderscore := true)
      else style
    case End(_, _) => style
  }

  predicate ClosesRunProps(e: Event) {
    e.End? && e.name == "rPr"
  }

  predicate OpensRunProps(e: Event) {
    e.Start? && e.ns == WordNS && e.name == "rPr"
  }

  /** `parseRunProperties` from style `style` over the events after the `rPr`
      start tag: the style once the closing `rPr` is read, and the events after
      it. */
  function RunProps(metrics: Metrics, style: TextStyle, evs: seq<Event>): (r: (TextStyle, seq<Event>))
    ensures |r.1| <= |evs| && r.1 == evs[|evs| - |r.1|..]
    decreases |evs|
  {
    if evs == [] then (style, [])
    else if ClosesRunProps(evs[0]) then (style, evs[1..])
    else RunProps(metrics, RunPropStep(metrics, style, evs[0]), evs[1..])
  }

  /** `parseRunProperties`: reads events from index `start` up to and including
      the closing `rPr`, and returns the style and the index after it. */
  method ParseRunProperties(evs: seq<Event>, start: nat, metrics: Metrics) returns (style: TextStyle, next: nat)
    requires start <= |evs|
    ensures start <= next <= |evs|
    ensures (style, evs[next..]) == RunProps(metrics, DefaultTextStyle, evs[start..])
  {
    style := DefaultTextStyle;
    var i := start;
    while i < |evs| && !ClosesRunProps(evs[i])
      invariant start <= i <= |evs|
      invariant RunProps(metrics, style, evs[i..]) == RunProps(metrics, DefaultTextStyle, evs[start..])
      decreases |evs| - i
    {
      assert evs[i..][0] == evs[i] && evs[i..][1..] == evs[i + 1..];
      ghost var before := style;
      match evs[i] {
        case Start(_, name, attrs, _) =>
        if name == "sz" {
          var val := GetAttributeValue(attrs, None, "val");
          var halfPoints := 24.0;
          if val.Some? {
            var f := metrics.toFloatOrNull(val.value);
            if f.Some? {
              halfPoints := f.value;
            }
          }
          style := style.(fontSize := metrics.halfPointsToSp(halfPoints));
        } else if name == "b" {
          style := style.(isBold := true);
        } else if name == "i" {
          style := style.(isItalic := true);
        } else if name == "u" {
          style := style.(isUnderscore := true);
        }
        case End(_, _) =>
      }
      assert style == RunPropStep(metrics, before, evs[i]);
      i := i + 1;
    }
    if i < |evs| {
      assert evs[i..][1..] == evs[i + 1..];
      next := i + 1;
    } else {
      next := i;
    }
  }

  // ---------------------------------------------------------------- tables

  /** A `tc` start tag's cell: `gridSpan` read as an `Int` (1 when missing or not
      a number), and 1 for `vMerge="restart"`, 0 otherwise. */
  function CellStart(attrs: seq<Attribute>): (c: TableCell)
    ensures c.content == []
    ensures c.rowspan == 0 || c.rowspan == 1
    ensures InIntRange(c.colspan)
  {
    var colspan := match GetAttributeValue(attrs, Some(WordNS), "gridSpan")
                   case Some(v) =>
                     (match ToIntOrNull(v)
                      case Some(n) => n
                      case None => 1)
                   case None => 1;
    var rowspan := if GetAttributeValue(attrs, Some(WordNS), "vMerge") == Some("restart") then 1 else 0;
    TableCell([], colspan, rowspan)
  }

  /** `currentTable?.rows?.add(row)`. */
  function AddRow(table: Option<DocxTable>, row: TableRowDocx): (r: Option<DocxTable>)
    ensures r.Some? <==> table.Some?
    ensures r.Some? ==> r.value.rows == table.value.rows + [row]
  {
    match table
    case None => None
    case Some(t) => Some(t.(rows := t.rows + [row]))
  }

  /** `currentRow?.cells?.add(cell)`. */
  function AddCell(row: Option<TableRowDocx>, cell: TableCell): (r: Option<TableRowDocx>)
    ensures r.Some? <==> row.Some?
    ensures r.Some? ==> r.value.cells == row.value.cells + [cell]
  {
    match row
    case None => None
    case Some(rw) => Some(rw.(cells := rw.cells + [cell]))
  }

  // ---------------------------------------------------------------- images

  /** The image a legacy drawing id names: the media file "image<id>.png". */
  function LegacyImage(images: map<string, seq<byte>>, imageId: string): seq<DocxElement> {
    var name := "image" + imageId + ".png";
    if name in images then [ImageElement(images[name])] else []
  }

  /** The image an embed relationship id names, through the relationship map. */
  function EmbeddedImage(images: map<string, seq<byte>>, rels: Relationships, relId: string): seq<DocxElement> {
    if relId in rels && rels[relId] in images then [ImageElement(images[rels[relId]])] else []
  }

  // ---------------------------------------------------------------- paragraphs and runs

  /** The end of a paragraph. */
  function ParagraphEnd(st: WalkerState): WalkerState {
    var text := Trim(st.paragraph);
    var emitted :=
      if st.cell.Some? then
        if text != [] then st.(cellElements := st.cellElements + [TextElement(text, st.style)]) else st
      else if st.listLevel != -1 && st.numId != -1 then
        var renumbered :=
          if st.previousNumId != st.numId then
            st.(counters := ResetUpper(st.counters, st.previousNumId, st.listLevel), previousNumId := st.numId)
          else st;
        renumbered.(elements := st.elements + [ListItemElement(text, st.listLevel, st.numId, st.style)])
      else if st.paragraph != [] then
        st.(elements := st.elements + [TextElement(text, st.style), NewlineElement()])
      else st;
    emitted.(paragraph := "", listLevel := -1, numId := -1)
  }

  /** The end of a run: the pending legacy id, then the pending embed id, each
      adds its image to the top-level elements when it is found; both are
      cleared. */
  function RunEnd(ctx: Context, st: WalkerState): WalkerState {
    var legacy := if st.imageId != [] then LegacyImage(ctx.images, st.imageId) else [];
    var embedded := if st.imageRelId != [] then EmbeddedImage(ctx.images, ctx.rels, st.imageRelId) else [];
    st.(elements := st.elements + legacy + embedded, imageId := "", imageRelId := "")
  }

  // ---------------------------------------------------------------- one event

  /** A start tag other than the word-namespace `rPr` (which `Walk` hands to
      `RunProps`). Only `ilvl` and `numId` inside `numPr` can fail. */
  function StartTag(st: WalkerState, ns: string, name: string, attrs: seq<Attribute>, text: string): Result<WalkerState> {
    if ns == WordNS then
      if name == "tbl" then Success(st.(table := Some(DocxTable([]))))
      else if name == "tr" then Success(st.(row := Some(TableRowDocx([]))))
      else if name == "tc" then Success(st.(cellElements := [], cell := Some(CellStart(attrs))))
      else if name == "p" then Success(st.(paragraph := ""))
      else if name == "t" then Success(st.(paragraph := st.paragraph + text))
      else if name == "br" then Success(st.(paragraph := st.paragraph + "\n"))
      else if name == "tab" then Success(st.(paragraph := st.paragraph + "\t"))
      else if name == "numPr" then Success(st.(insideNumPr := true))
      else if name == "ilvl" && st.insideNumPr then
        var level :- IntAttr(attrs, "val", 0);
        Success(st.(listLevel := level))
      else if name == "numId" && st.insideNumPr then
        var numId :- IntAttr(attrs, "val", -1);
        Success(st.(numId := numId))
      else Success(st)
    else if ns == WordDrawingNS && name == "docPr" then
      Success(st.(imageId := OrEmpty(GetAttributeValue(attrs, None, "id"))))
    else if ns == DrawingMainNS && name == "blip" then
      Success(st.(imageRelId := OrEmpty(GetAttributeValue(attrs, Some(RelationshipsNS), "embed"))))
    else Success(st)
  }

  function EndTag(ctx: Context, st: WalkerState, ns: string, name: string): WalkerState {
    if ns != WordNS then st
    else if name == "tbl" then
      if st.table.Some? then st.(elements := st.elements + [TableElement(st.table.value)], table := None) else st
    else if name == "tr" then
      if st.row.Some? then st.(table := AddRow(st.table, st.row.value), row := None) else st
    else if name == "tc" then
      if st.cell.Some? then
        st.(row := AddCell(st.row, st.cell.value.(content := st.cellElements)), cell := None, cellElements := [])
      else st
    else if name == "p" then ParagraphEnd(st)
    else if name == "r" then RunEnd(ctx, st)
    else if name == "numPr" then st.(insideNumPr := false)
    else st
  }

  function Step(ctx: Context, st: WalkerState, e: Event): Result<WalkerState> {
    match e
    case Start(ns, name, attrs, text) => StartTag(st, ns, name, attrs, text)
    case End(ns, name) => Success(EndTag(ctx, st, ns, name))
  }

  /** The walk from state `st` over the events `evs`. */
  function Walk(ctx: Context, st: WalkerState, evs: seq<Event>): Result<WalkerState>
    decreases |evs|
  {
    if evs == [] then Success(st)
    else if OpensRunProps(evs[0]) then
      var props := RunProps(ctx.metrics, DefaultTextStyle, evs[1..]);
      Walk(ctx, st.(style := props.0), props.1)
    else
      var next :- Step(ctx, st, evs[0]);
      Walk(ctx, next, evs[1..])
  }

  /** What `parseDocumentXml` leaves behind, from the result's elements and
      counter store as they were before it. */
  function DocumentOf(ctx: Context, xml: seq<byte>, tokenize: Tokenizer, elements: seq<DocxElement>, counters: Store)
    : Result<WalkerState>
  {
    var evs :- tokenize(xml);
    Walk(ctx, InitialWalker(elements, counters), evs)
  }

  /** `parseDocumentXml`: appends the document's elements to `result.elements`,
      driving `result.listCounters` at list-paragraph ends. */
  method ParseDocumentXml(xml: seq<byte>, result: ParseResult, images: map<string, seq<byte>>,
                          imageRelationships: Relationships, tokenize: Tokenizer, metrics: Metrics)
    returns (r: Result<()>)
    requires result.listCounters.Valid()
    modifies result, result.listCounters
    ensures result.listCounters.Valid()
    ensures var w := DocumentOf(Context(images, imageRelationships, metrics), xml, tokenize,
                                old(result.elements), old(result.listCounters.counters));
            && (r.Success? <==> w.Success?)
            && (w.Success? ==> result.elements == w.value.elements && result.listCounters.counters == w.value.counters)
  {
    var ctx := Context(images, imageRelationships, metrics);
    var evs :- tokenize(xml);
    var currentParagraphText := "";
    var currentListLevel := -1;
    var currentNumId := -1;
    var insideNumPr := false;
    var currentTextStyle := DefaultTextStyle;
    var imageId := "";
    var imageRelId := "";
    var previousNumId := -1;
    var currentTable: Option<DocxTable> := None;
    var currentRow: Option<TableRowDocx> := None;
    var currentCell: Option<TableCell> := None;
    var cellElements: seq<DocxElement> := [];
    var i := 0;
    while i < |evs|
      invariant 0 <= i <= |evs|
      invariant result.listCounters.Valid()
      invariant Walk(ctx, WalkerState(currentParagraphText, currentListLevel, currentNumId, insideNumPr,
                                      currentTextStyle, imageId, imageRelId, previousNumId, currentTable,
                                      currentRow, currentCell, cellElements, result.elements,
                                      result.listCounters.counters), evs[i..])
                == Walk(ctx, InitialWalker(old(result.elements), old(result.listCounters.counters)), evs)
      decreases |evs| - i
    {
      ghost var before := WalkerState(currentParagraphText, currentListLevel, currentNumId, insideNumPr,
                                      currentTextStyle, imageId, imageRelId, previousNumId, currentTable,
                                      currentRow, currentCell, cellElements, result.elements,
                                      result.listCounters.counters);
      assert evs[i..][0] == evs[i] && evs[i..][1..] == evs[i + 1..];
      if OpensRunProps(evs[i]) {
        currentTextStyle, i := ParseRunProperties(evs, i + 1, metrics);
      } else {
        match evs[i] {
          case Start(ns, name, attrs, text) =>
          if ns == WordNS {
            if name == "tbl" {
              currentTable := Some(DocxTable([]));
            } else if name == "tr" {
              currentRow := Some(TableRowDocx([]));
            } else if name == "tc" {
              cellElements := [];
              currentCell := Some(CellStart(attrs));
            } else if name == "p" {
              currentParagraphText := "";
            } else if name == "t" {
              currentParagraphText := currentParagraphText + text;
            } else if name == "br" {
              currentParagraphText := currentParagraphText + "\n";
            } else if name == "tab" {
              currentParagraphText := currentParagraphText + "\t";
            } else if name == "numPr" {
              insideNumPr := true;
            } else if name == "ilvl" {
              if insideNumPr {
                currentListLevel :- IntAttr(attrs, "val", 0);
              }
            } else if name == "numId" {
              if insideNumPr {
                currentNumId :- IntAttr(attrs, "val", -1);
              }
            }
          } else if ns == WordDrawingNS {
            if name == "docPr" {
              imageId := OrEmpty(GetAttributeValue(attrs, None, "id"));
            }
          } else if ns == DrawingMainNS {
            if name == "blip" {
              imageRelId := OrEmpty(GetAttributeValue(attrs, Some(RelationshipsNS), "embed"));
            }
          }
          assert StartTag(before, ns, name, attrs, text) ==
                 Success(WalkerState(currentParagraphText, currentListLevel, currentNumId, insideNumPr,
                                     currentTextStyle, imageId, imageRelId, previousNumId, currentTable,
                                     currentRow, currentCell, cellElements, result.elements,
                                     result.listCounters.counters));
          case End(ns, name) =>
          if ns == WordNS {
            if name == "tbl" {
              if currentTable.Some? {
                result.elements := result.elements + [TableElement(currentTable.value)];
                currentTable := None;
              }
            } else if name == "tr" {
              if currentRow.Some? {
                currentTable := AddRow(currentTable, currentRow.value);
                currentRow := None;
              }
            } else if name == "tc" {
              if currentCell.Some? {
                currentRow := AddCell(currentRow, currentCell.value.(content := cellElements));
                currentCell := None;
                cellElements := [];
              }
            } else if name == "p" {
              cellElements, previousNumId :=
                EndParagraph(result, before, currentCell.Some?, currentParagraphText, currentListLevel,
                             currentNumId, previousNumId, currentTextStyle, cellElements);
              currentParagraphText := "";
              currentListLevel := -1;
              currentNumId := -1;
            } else if name == "r" {
              EndRun(result, ctx, before, imageId, imageRelId, images, imageRelationships);
              imageId := "";
              imageRelId := "";
            } else if name == "numPr" {
              insideNumPr := false;
            }
          }
          assert EndTag(ctx, before, ns, name) ==
                 WalkerState(currentParagraphText, currentListLevel, currentNumId, insideNumPr,
                             currentTextStyle, imageId, imageRelId, previousNumId, currentTable,
                             currentRow, currentCell, cellElements, result.elements,
                             result.listCounters.counters);
        }
        assert Step(ctx, before, evs[i]) ==
               Success(WalkerState(currentParagraphText, currentListLevel, currentNumId, insideNumPr,
                                   currentTextStyle, imageId, imageRelId, previousNumId, currentTable,
                                   currentRow, currentCell, cellElements, result.elements,
                                   result.listCounters.counters));
        i := i + 1;
      }
    }
    r := Success(());
  }

  /** The paragraph-end branch of `parseDocumentXml`: in a cell, the trimmed text
      (when not empty) joins the cell's content; in a list paragraph, a list item
      is appended, after the parse-time counter reset when the list changed;
      otherwise a non-empty paragraph gives its trimmed text and a newline. */
  method EndParagraph(result: ParseResult, ghost st: WalkerState, inCell: bool, paragraph: string,
                      level: int, numId: int, previousNumId: int, style: TextStyle,
                      cellElements: seq<DocxElement>)
    returns (cellElements': seq<DocxElement>, previousNumId': int)
    requires st == st.(paragraph := paragraph, listLevel := level, numId := numId, previousNumId := previousNumId,
                       style := style, cellElements := cellElements, elements := result.elements,
                       counters := result.listCounters.counters)
    requires inCell == st.cell.Some?
    requires result.listCounters.Valid()
    modifies result, result.listCounters
    ensures result.listCounters.Valid()
    ensures ParagraphEnd(st) == st.(paragraph := "", listLevel := -1, numId := -1, previousNumId := previousNumId',
                                    cellElements := cellElements', elements := result.elements,
                                    counters := result.listCounters.counters)
  {
    cellElements' := cellElements;
    previousNumId' := previousNumId;
    if inCell {
      var text := Trim(paragraph);
      if text != [] {
        cellElements' := cellElements + [TextElement(text, style)];
      }
    } else if level != -1 && numId != -1 {
      if previousNumId != numId {
        result.listCounters.ResetUpperLevels(previousNumId, level);
        previousNumId' := numId;
      }
      result.elements := result.elements + [ListItemElement(Trim(paragraph), level, numId, style)];
    } else if paragraph != [] {
      result.elements := result.elements + [TextElement(Trim(paragraph), style), NewlineElement()];
    }
  }

  /** The run-end branch of `parseDocumentXml`: the images the pending ids name
      are appended to the top-level elements (the caller then clears the ids). */
  method EndRun(result: ParseResult, ghost ctx: Context, ghost st: WalkerState, imageId: string, imageRelId: string,
                images: map<string, seq<byte>>, imageRelationships: Relationships)
    requires ctx.images == images && ctx.rels == imageRelationships
    requires st.imageId == imageId && st.imageRelId == imageRelId && st.elements == result.elements
    modifies result
    ensures RunEnd(ctx, st) == st.(elements := result.elements, imageId := "", imageRelId := "")
  {
    if imageId != [] {
      var name := "image" + imageId + ".png";
      if name in images {
        result.elements := result.elements + [ImageElement(images[name])];
      }
    }
    if imageRelId != [] {
      var imageName := if imageRelId in imageRelationships then Some(imageRelationships[imageRelId]) else None;
      if imageName.Some? && imageName.value in images {
        result.elements := result.elements + [ImageElement(images[imageName.value])];
      }
    }
  }
}
