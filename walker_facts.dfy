/** What the document walk guarantees about the elements it produces, and how
    its paragraph, run, table and run-property handling behaves. */
module WalkerFacts {
  import opened Common
  import opened Strings
  import opened Xml
  import opened Docx
  import opened Counters
  import opened Relationships
  import opened Walker

  // ---------------------------------------------------------------- walking

  /** One step of a walk on an event that is not an `rPr` start tag. */
  lemma WalkStep(ctx: Context, st: WalkerState, evs: seq<Event>, next: WalkerState)
    requires evs != [] && !OpensRunProps(evs[0])
    requires Step(ctx, st, evs[0]) == Success(next)
    ensures Walk(ctx, st, evs) == Walk(ctx, next, evs[1..])
  {
  }

  // ---------------------------------------------------------------- the counter store

  lemma StepKeepsEmptyCounters(ctx: Context, st: WalkerState, e: Event)
    requires st.counters == map[]
    requires Step(ctx, st, e).Success?
    ensures Step(ctx, st, e).value.counters == map[]
  {
    match e
    case Start(ns, name, attrs, text) => StartTagKeepsCounters(st, ns, name, attrs, text);
    case End(ns, name) =>
      EndTagCounters(ctx, st, ns, name);
      ResetEmpty(st.previousNumId, st.listLevel);
  }

  /** No start tag touches the counter store. */
  lemma StartTagKeepsCounters(st: WalkerState, ns: string, name: string, attrs: seq<Attribute>, text: string)
    requires StartTag(st, ns, name, attrs, text).Success?
    ensures StartTag(st, ns, name, attrs, text).value.counters == st.counters
  {
  }

  /** The only end tag that touches the counter store is that of a list
      paragraph outside a cell whose list differs from the previous one. */
  lemma EndTagCounters(ctx: Context, st: WalkerState, ns: string, name: string)
    ensures EndTag(ctx, st, ns, name).counters ==
            if ns == WordNS && name == "p" && st.cell.None? && st.listLevel != -1 && st.numId != -1
               && st.previousNumId != st.numId
            then ResetUpper(st.counters, st.previousNumId, st.listLevel)
            else st.counters
  {
    if ns == WordNS && name == "p" {
      if st.cell.Some? {
        ParagraphEndInCell(st);
      } else if st.listLevel != -1 && st.numId != -1 {
        ParagraphEndListItem(st);
      } else {
        ParagraphEndPlain(st);
      }
    }
  }

  /** The walker's counter reset at a list change works on the fresh store of a
      new parse result, so the store is still empty when the walk ends. */
  lemma {:induction false} WalkKeepsEmptyCounters(ctx: Context, st: WalkerState, evs: seq<Event>)
    requires st.counters == map[]
    requires Walk(ctx, st, evs).Success?
    ensures Walk(ctx, st, evs).value.counters == map[]
    decreases |evs|
  {
    if evs != [] {
      if OpensRunProps(evs[0]) {
        var props := RunProps(ctx.metrics, DefaultTextStyle, evs[1..]);
        WalkKeepsEmptyCounters(ctx, st.(style := props.0), props.1);
      } else {
        StepKeepsEmptyCounters(ctx, st, evs[0]);
        WalkKeepsEmptyCounters(ctx, Step(ctx, st, evs[0]).value, evs[1..]);
      }
    }
  }

  // ---------------------------------------------------------------- appending only

  lemma StartTagKeepsElements(st: WalkerState, ns: string, name: string, attrs: seq<Attribute>, text: string)
    requires StartTag(st, ns, name, attrs, text).Success?
    ensures StartTag(st, ns, name, attrs, text).value.elements == st.elements
  {
  }

  /** Only `ilvl` and `numId` inside `numPr` can make a start tag fail, when
      their `val` does not read as an `Int`. */
  lemma StartTagFailure(st: WalkerState, ns: string, name: string, attrs: seq<Attribute>, text: string)
    ensures StartTag(st, ns, name, attrs, text).Failure? <==>
            ns == WordNS && st.insideNumPr && (name == "ilvl" || name == "numId")
            && IntAttr(attrs, "val", if name == "ilvl" then 0 else -1).Failure?
  {
  }

  lemma EndTagExtendsElements(ctx: Context, st: WalkerState, ns: string, name: string)
    ensures st.elements <= EndTag(ctx, st, ns, name).elements
    ensures ns != WordNS ==> EndTag(ctx, st, ns, name) == st
  {
  }

  lemma StepExtendsElements(ctx: Context, st: WalkerState, e: Event)
    requires Step(ctx, st, e).Success?
    ensures st.elements <= Step(ctx, st, e).value.elements
  {
    match e
    case Start(ns, name, attrs, text) => StartTagKeepsElements(st, ns, name, attrs, text);
    case End(ns, name) => EndTagExtendsElements(ctx, st, ns, name);
  }

  /** Elements are only ever appended: what the result held before the walk is a
      prefix of what it holds after. */
  lemma {:induction false} WalkExtendsElements(ctx: Context, st: WalkerState, evs: seq<Event>)
    requires Walk(ctx, st, evs).Success?
    ensures st.elements <= Walk(ctx, st, evs).value.elements
    decreases |evs|
  {
    if evs != [] {
      if OpensRunProps(evs[0]) {
        var props := RunProps(ctx.metrics, DefaultTextStyle, evs[1..]);
        WalkExtendsElements(ctx, st.(style := props.0), props.1);
      } else {
        StepExtendsElements(ctx, st, evs[0]);
        WalkExtendsElements(ctx, Step(ctx, st, evs[0]).value, evs[1..]);
      }
    }
  }

  // ---------------------------------------------------------------- well-formed output

  /** Content of a table cell: a non-empty trimmed text. */
  predicate IsCellText(e: DocxElement) {
    e.kind == Text && e.text.Some? && e.text.value != [] && IsTrimmed(e.text.value)
  }

  predicate CellWellFormed(c: TableCell) {
    (c.rowspan == 0 || c.rowspan == 1) && forall e :: e in c.content ==> IsCellText(e)
  }

  predicate RowWellFormed(r: TableRowDocx) {
    forall c :: c in r.cells ==> CellWellFormed(c)
  }

  predicate TableWellFormed(t: DocxTable) {
    forall r :: r in t.rows ==> RowWellFormed(r)
  }

  /** Each kind carries what it needs: texts are trimmed, list items have a
      level and a list, images hold the bytes of a media file, tables are well
      formed. */
  predicate ElementWellFormed(images: map<string, seq<byte>>, e: DocxElement) {
    match e.kind
    case Text => e.text.Some? && IsTrimmed(e.text.value)
    case ListItem => e.text.Some? && IsTrimmed(e.text.value) && e.listLevel != -1 && e.numId != -1
    case Image => e.imageData.Some? && e.imageData.value in images.Values
    case Newline => e.text.None? && e.imageData.None? && e.table.None?
    case Table => e.table.Some? && TableWellFormed(e.table.value)
  }

  /** Every Text is directly followed by a Newline, and every Newline directly
      follows a Text: a plain paragraph always yields the pair. */
  predicate Paired(elements: seq<DocxElement>) {
    && (forall k :: 0 <= k < |elements| && elements[k].kind == Text ==>
          k + 1 < |elements| && elements[k + 1].kind == Newline)
    && (forall k :: 0 <= k < |elements| && elements[k].kind == Newline ==>
          0 < k && elements[k - 1].kind == Text)
  }

  predicate DocumentWellFormed(images: map<string, seq<byte>>, elements: seq<DocxElement>) {
    (forall e :: e in elements ==> ElementWellFormed(images, e)) && Paired(elements)
  }

  predicate WalkerWellFormed(ctx: Context, st: WalkerState) {
    && DocumentWellFormed(ctx.images, st.elements)
    && (forall e :: e in st.cellElements ==> IsCellText(e))
    && (st.cell.Some? ==> CellWellFormed(st.cell.value))
    && (st.row.Some? ==> RowWellFormed(st.row.value))
    && (st.table.Some? ==> TableWellFormed(st.table.value))
  }

  lemma PairedAppend(a: seq<DocxElement>, b: seq<DocxElement>)
    requires Paired(a) && Paired(b)
    ensures Paired(a + b)
  {
    var s := a + b;
    forall k | 0 <= k < |s| && s[k].kind == Text
      ensures k + 1 < |s| && s[k + 1].kind == Newline
    {
      if k < |a| {
        assert a[k].kind == Text;
      } else {
        assert b[k - |a|].kind == Text;
      }
    }
    forall k | 0 <= k < |s| && s[k].kind == Newline
      ensures 0 < k && s[k - 1].kind == Text
    {
      if k < |a| {
        assert a[k].kind == Newline;
      } else {
        assert b[k - |a|].kind == Newline;
      }
    }
  }

  lemma AppendWellFormed(images: map<string, seq<byte>>, a: seq<DocxElement>, b: seq<DocxElement>)
    requires DocumentWellFormed(images, a) && DocumentWellFormed(images, b)
    ensures DocumentWellFormed(images, a + b)
  {
    PairedAppend(a, b);
  }

  /** The fields the well-formedness of a walker state depends on. */
  lemma WellFormedFrame(ctx: Context, a: WalkerState, b: WalkerState)
    requires a.elements == b.elements && a.cellElements == b.cellElements
    requires a.cell == b.cell && a.row == b.row && a.table == b.table
    ensures WalkerWellFormed(ctx, a) <==> WalkerWellFormed(ctx, b)
  {
  }

  /** A state that differs from a well-formed one only by elements appended to
      the output, themselves well formed, is well formed. */
  lemma OutputAppendWellFormed(ctx: Context, st: WalkerState, r: WalkerState, added: seq<DocxElement>)
    requires WalkerWellFormed(ctx, st) && DocumentWellFormed(ctx.images, added)
    requires r.elements == st.elements + added && r.cellElements == st.cellElements
    requires r.cell == st.cell && r.row == st.row && r.table == st.table
    ensures WalkerWellFormed(ctx, r)
  {
    AppendWellFormed(ctx.images, st.elements, added);
  }

  /** The same, for cell text added to the open cell. */
  lemma CellAppendWellFormed(ctx: Context, st: WalkerState, r: WalkerState, added: seq<DocxElement>)
    requires WalkerWellFormed(ctx, st) && forall e :: e in added ==> IsCellText(e)
    requires r.elements == st.elements && r.cellElements == st.cellElements + added
    requires r.cell == st.cell && r.row == st.row && r.table == st.table
    ensures WalkerWellFormed(ctx, r)
  {
  }

  lemma ParagraphEndWellFormed(ctx: Context, st: WalkerState)
    requires WalkerWellFormed(ctx, st)
    ensures WalkerWellFormed(ctx, ParagraphEnd(st))
  {
    if st.cell.Some? {
      CellParagraphEndWellFormed(ctx, st);
    } else if st.listLevel != -1 && st.numId != -1 {
      ListParagraphEndWellFormed(ctx, st);
    } else {
      PlainParagraphEndWellFormed(ctx, st);
    }
  }

  lemma CellParagraphEndWellFormed(ctx: Context, st: WalkerState)
    requires WalkerWellFormed(ctx, st) && st.cell.Some?
    ensures WalkerWellFormed(ctx, ParagraphEnd(st))
  {
    var r := ParagraphEnd(st);
    ParagraphEndClears(st);
    ParagraphEndInCell(st);
    if IsBlank(st.paragraph) {
      WellFormedFrame(ctx, st, r);
    } else {
      CellAppendWellFormed(ctx, st, r, [TextElement(Trim(st.paragraph), st.style)]);
    }
  }

  lemma ListParagraphEndWellFormed(ctx: Context, st: WalkerState)
    requires WalkerWellFormed(ctx, st) && st.cell.None? && st.listLevel != -1 && st.numId != -1
    ensures WalkerWellFormed(ctx, ParagraphEnd(st))
  {
    var r := ParagraphEnd(st);
    ParagraphEndClears(st);
    ParagraphEndListItem(st);
    ListItemWellFormed(ctx.images, Trim(st.paragraph), st.listLevel, st.numId, st.style);
    OutputAppendWellFormed(ctx, st, r, [ListItemElement(Trim(st.paragraph), st.listLevel, st.numId, st.style)]);
  }

  /** A list item with trimmed text and both list ids is a well-formed document. */
  lemma ListItemWellFormed(images: map<string, seq<byte>>, text: string, level: int, numId: int, style: TextStyle)
    requires IsTrimmed(text) && level != -1 && numId != -1
    ensures DocumentWellFormed(images, [ListItemElement(text, level, numId, style)])
  {
    assert [ListItemElement(text, level, numId, style)][0].kind == ListItem;
  }

  lemma PlainParagraphEndWellFormed(ctx: Context, st: WalkerState)
    requires WalkerWellFormed(ctx, st) && st.cell.None? && (st.listLevel == -1 || st.numId == -1)
    ensures WalkerWellFormed(ctx, ParagraphEnd(st))
  {
    var r := ParagraphEnd(st);
    ParagraphEndClears(st);
    ParagraphEndPlain(st);
    if st.paragraph == [] {
      assert st.elements + [] == st.elements;
      WellFormedFrame(ctx, st, r);
    } else {
      var added := [TextElement(Trim(st.paragraph), st.style), NewlineElement()];
      TextLineWellFormed(ctx.images, Trim(st.paragraph), st.style);
      OutputAppendWellFormed(ctx, st, r, added);
    }
  }

  /** A trimmed text followed by its newline is a well-formed document. */
  lemma TextLineWellFormed(images: map<string, seq<byte>>, text: string, style: TextStyle)
    requires IsTrimmed(text)
    ensures DocumentWellFormed(images, [TextElement(text, style), NewlineElement()])
  {
    var line := [TextElement(text, style), NewlineElement()];
    assert line[0].kind == Text && line[1].kind == Newline;
  }

  lemma RunEndWellFormed(ctx: Context, st: WalkerState)
    requires WalkerWellFormed(ctx, st)
    ensures WalkerWellFormed(ctx, RunEnd(ctx, st))
  {
    var legacy := if st.imageId != [] then LegacyImage(ctx.images, st.imageId) else [];
    var embedded := if st.imageRelId != [] then EmbeddedImage(ctx.images, ctx.rels, st.imageRelId) else [];
    AppendWellFormed(ctx.images, st.elements, legacy);
    AppendWellFormed(ctx.images, st.elements + legacy, embedded);
    var r := RunEnd(ctx, st);
    assert r == st.(elements := st.elements + legacy + embedded, imageId := "", imageRelId := "");
  }

  lemma EndTagWellFormed(ctx: Context, st: WalkerState, ns: string, name: string)
    requires WalkerWellFormed(ctx, st)
    ensures WalkerWellFormed(ctx, EndTag(ctx, st, ns, name))
  {
    if ns != WordNS {
      assert EndTag(ctx, st, ns, name) == st;
    } else if name == "tbl" {
      TableEndWellFormed(ctx, st);
    } else if name == "tr" {
      RowEndWellFormed(ctx, st);
    } else if name == "tc" {
      CellEndWellFormed(ctx, st);
    } else if name == "p" {
      ParagraphEndWellFormed(ctx, st);
    } else if name == "r" {
      RunEndWellFormed(ctx, st);
    } else {
      var r := EndTag(ctx, st, ns, name);
      assert r == st || r == st.(insideNumPr := false);
      WellFormedFrame(ctx, st, r);
    }
  }

  lemma TableEndWellFormed(ctx: Context, st: WalkerState)
    requires WalkerWellFormed(ctx, st)
    ensures WalkerWellFormed(ctx, EndTag(ctx, st, WordNS, "tbl"))
  {
    if st.table.Some? {
      var table := TableElement(st.table.value);
      assert [table][0] == table;
      AppendWellFormed(ctx.images, st.elements, [table]);
    }
  }

  lemma RowEndWellFormed(ctx: Context, st: WalkerState)
    requires WalkerWellFormed(ctx, st)
    ensures WalkerWellFormed(ctx, EndTag(ctx, st, WordNS, "tr"))
  {
  }

  lemma CellEndWellFormed(ctx: Context, st: WalkerState)
    requires WalkerWellFormed(ctx, st)
    ensures WalkerWellFormed(ctx, EndTag(ctx, st, WordNS, "tc"))
  {
  }

  lemma StartTagWellFormed(ctx: Context, st: WalkerState, ns: string, name: string, attrs: seq<Attribute>, text: string)
    requires WalkerWellFormed(ctx, st)
    requires StartTag(st, ns, name, attrs, text).Success?
    ensures WalkerWellFormed(ctx, StartTag(st, ns, name, attrs, text).value)
  {
    var r := StartTag(st, ns, name, attrs, text).value;
    if ns == WordNS && name == "tbl" {
      assert r == st.(table := Some(DocxTable([])));
    } else if ns == WordNS && name == "tr" {
      assert r == st.(row := Some(TableRowDocx([])));
    } else if ns == WordNS && name == "tc" {
      assert r == st.(cellElements := [], cell := Some(CellStart(attrs)));
    } else {
      StartTagFrame(st, ns, name, attrs, text);
      WellFormedFrame(ctx, st, r);
    }
  }

  /** Start tags other than `tbl`, `tr` and `tc` leave the output and the table
      state alone. */
  lemma StartTagFrame(st: WalkerState, ns: string, name: string, attrs: seq<Attribute>, text: string)
    requires StartTag(st, ns, name, attrs, text).Success?
    requires !(ns == WordNS && (name == "tbl" || name == "tr" || name == "tc"))
    ensures var r := StartTag(st, ns, name, attrs, text).value;
      && r.elements == st.elements && r.cellElements == st.cellElements && r.counters == st.counters
      && r.cell == st.cell && r.row == st.row && r.table == st.table && r.style == st.style
  {
  }

  lemma StepWellFormed(ctx: Context, st: WalkerState, e: Event)
    requires WalkerWellFormed(ctx, st)
    requires Step(ctx, st, e).Success?
    ensures WalkerWellFormed(ctx, Step(ctx, st, e).value)
  {
    match e
    case Start(ns, name, attrs, text) => StartTagWellFormed(ctx, st, ns, name, attrs, text);
    case End(ns, name) => EndTagWellFormed(ctx, st, ns, name);
  }

  lemma {:induction false} WalkWellFormed(ctx: Context, st: WalkerState, evs: seq<Event>)
    requires WalkerWellFormed(ctx, st)
    requires Walk(ctx, st, evs).Success?
    ensures WalkerWellFormed(ctx, Walk(ctx, st, evs).value)
    decreases |evs|
  {
    if evs != [] {
      if OpensRunProps(evs[0]) {
        var props := RunProps(ctx.metrics, DefaultTextStyle, evs[1..]);
        WalkWellFormed(ctx, st.(style := props.0), props.1);
      } else {
        StepWellFormed(ctx, st, evs[0]);
        WalkWellFormed(ctx, Step(ctx, st, evs[0]).value, evs[1..]);
      }
    }
  }

  /** A document read into a fresh parse result: every element is well formed,
      texts and newlines come in pairs, and the counter store is still empty. */
  lemma DocumentIsWellFormed(ctx: Context, xml: seq<byte>, tokenize: Tokenizer)
    requires DocumentOf(ctx, xml, tokenize, [], map[]).Success?
    ensures DocumentWellFormed(ctx.images, DocumentOf(ctx, xml, tokenize, [], map[]).value.elements)
    ensures DocumentOf(ctx, xml, tokenize, [], map[]).value.counters == map[]
  {
    var evs := tokenize(xml).value;
    var init := InitialWalker([], map[]);
    assert WalkerWellFormed(ctx, init);
    WalkWellFormed(ctx, init, evs);
    WalkKeepsEmptyCounters(ctx, init, evs);
  }

  // ---------------------------------------------------------------- paragraphs

  /** Every paragraph end clears the text buffer and the list ids, and keeps
      the style, the `numPr` flag, the pending images and the table state. */
  lemma ParagraphEndClears(st: WalkerState)
    ensures var r := ParagraphEnd(st);
      && r.paragraph == [] && r.listLevel == -1 && r.numId == -1
      && r.style == st.style && r.insideNumPr == st.insideNumPr
      && r.imageId == st.imageId && r.imageRelId == st.imageRelId
      && r.table == st.table && r.row == st.row && r.cell == st.cell
  {
    var text := Trim(st.paragraph);
    if st.cell.Some? {
      if text != [] {
        assert ParagraphEnd(st) == st.(cellElements := st.cellElements + [TextElement(text, st.style)],
                                       paragraph := "", listLevel := -1, numId := -1);
      }
    } else if st.listLevel != -1 && st.numId != -1 {
      var item := ListItemElement(text, st.listLevel, st.numId, st.style);
      if st.previousNumId != st.numId {
        assert ParagraphEnd(st) == st.(counters := ResetUpper(st.counters, st.previousNumId, st.listLevel),
                                       previousNumId := st.numId, elements := st.elements + [item],
                                       paragraph := "", listLevel := -1, numId := -1);
      }
    }
  }

  /** Inside a cell the trimmed text joins the cell unless the paragraph is
      blank; list ids are ignored and nothing reaches the top level. */
  lemma ParagraphEndInCell(st: WalkerState)
    requires st.cell.Some?
    ensures var r := ParagraphEnd(st);
      && r.elements == st.elements && r.counters == st.counters && r.previousNumId == st.previousNumId
      && (IsBlank(st.paragraph) ==> r.cellElements == st.cellElements)
      && (!IsBlank(st.paragraph) ==>
            r.cellElements == st.cellElements + [TextElement(Trim(st.paragraph), st.style)])
  {
  }

  /** Outside a cell, a paragraph with both list ids gives one list item; when
      its list differs from the previous list item's, the counters of the
      previous list from this level down are forgotten first. */
  lemma ParagraphEndListItem(st: WalkerState)
    requires st.cell.None? && st.listLevel != -1 && st.numId != -1
    ensures var r := ParagraphEnd(st);
      && r.cellElements == st.cellElements
      && r.elements == st.elements + [ListItemElement(Trim(st.paragraph), st.listLevel, st.numId, st.style)]
      && r.previousNumId == st.numId
      && r.counters == if st.previousNumId != st.numId then ResetUpper(st.counters, st.previousNumId, st.listLevel)
                       else st.counters
  {
  }

  /** Outside a cell and a list, a non-empty paragraph gives its trimmed text
      and a newline; an empty one gives nothing. */
  lemma ParagraphEndPlain(st: WalkerState)
    requires st.cell.None? && (st.listLevel == -1 || st.numId == -1)
    ensures var r := ParagraphEnd(st);
      && r.cellElements == st.cellElements && r.counters == st.counters && r.previousNumId == st.previousNumId
      && r.elements == st.elements +
           (if st.paragraph == [] then [] else [TextElement(Trim(st.paragraph), st.style), NewlineElement()])
  {
  }

  /** A paragraph of spaces outside a list still gives a Text, with empty text,
      and a newline: the emptiness test is made before trimming. */
  lemma BlankParagraphGivesEmptyText(st: WalkerState)
    requires st.cell.None? && st.listLevel == -1 && st.paragraph == "  "
    ensures ParagraphEnd(st).elements == st.elements + [TextElement("", st.style), NewlineElement()]
  {
    assert IsBlank(st.paragraph);
  }

  /** A list paragraph inside a table cell is plain cell text: cells take
      precedence over lists. */
  lemma ListParagraphInCellIsText(st: WalkerState)
    requires st.cell.Some? && st.listLevel == 0 && st.numId == 1 && st.paragraph == "Item"
    ensures ParagraphEnd(st).elements == st.elements
    ensures ParagraphEnd(st).cellElements == st.cellElements + [TextElement("Item", st.style)]
  {
    TrimKeepsTrimmed("Item");
    assert !IsWhitespace(st.paragraph[0]);
    ParagraphEndInCell(st);
  }

  /** No single event changes the style: only `Walk`'s hand-over to
      `RunProps` does. */
  lemma StepKeepsStyle(ctx: Context, st: WalkerState, e: Event)
    requires Step(ctx, st, e).Success?
    ensures Step(ctx, st, e).value.style == st.style
  {
    match e
    case Start(ns, name, attrs, text) =>
      if ns == WordNS && (name == "tbl" || name == "tr" || name == "tc") {
      } else {
        StartTagFrame(st, ns, name, attrs, text);
      }
    case End(ns, name) =>
      if ns == WordNS && name == "p" {
        ParagraphEndClears(st);
      }
  }

  /** The run style of one paragraph carries over to the next until an `rPr`
      is read. */
  lemma {:induction false} StyleOnlyChangesAtRunProps(ctx: Context, st: WalkerState, evs: seq<Event>)
    requires forall i :: 0 <= i < |evs| ==> !OpensRunProps(evs[i])
    requires Walk(ctx, st, evs).Success?
    ensures Walk(ctx, st, evs).value.style == st.style
    decreases |evs|
  {
    if evs != [] {
      assert !OpensRunProps(evs[0]);
      StepKeepsStyle(ctx, st, evs[0]);
      StyleOnlyChangesAtRunProps(ctx, Step(ctx, st, evs[0]).value, evs[1..]);
    }
  }

  // ---------------------------------------------------------------- runs and images

  /** Run end appends to the top-level elements only the images it finds (at
      most one per pending id, even inside a table, where they land before the
      Table element), clears both pending ids, and leaves the table state and
      the cell's content alone. */
  lemma RunEndOutcome(ctx: Context, st: WalkerState)
    ensures var r := RunEnd(ctx, st);
      && r.imageId == [] && r.imageRelId == []
      && r.table == st.table && r.row == st.row && r.cell == st.cell && r.cellElements == st.cellElements
      && st.elements <= r.elements && |r.elements| <= |st.elements| + 2
      && (forall k :: |st.elements| <= k < |r.elements| ==>
            r.elements[k].kind == Image && r.elements[k].imageData.Some? && r.elements[k].imageData.value in ctx.images.Values)
      && (st.imageId == [] && st.imageRelId == [] ==> r.elements == st.elements)
  {
  }

  /** A picture whose drawing id is 1 and whose relationship points at
      `media/image1.png` is found by both lookups and added twice. */
  lemma PictureFoundTwice(ctx: Context, st: WalkerState, data: seq<byte>)
    requires st.imageId == "1" && st.imageRelId == "rId4"
    requires ctx.rels == map["rId4" := "image1.png"] && ctx.images == map["image1.png" := data]
    ensures RunEnd(ctx, st).elements == st.elements + [ImageElement(data), ImageElement(data)]
  {
    assert "image" + st.imageId + ".png" == "image1.png";
  }

  // ---------------------------------------------------------------- tables

  /** A `tc` start: `vMerge="restart"` marks the first cell of a vertical merge;
      a `gridSpan` written as a number is that number; without one the cell
      spans one column. */
  lemma CellSpans(attrs: seq<Attribute>)
    ensures CellStart(attrs).rowspan == 1 <==> GetAttributeValue(attrs, Some(WordNS), "vMerge") == Some("restart")
    ensures GetAttributeValue(attrs, Some(WordNS), "gridSpan").None? ==> CellStart(attrs).colspan == 1
    ensures forall n :: InIntRange(n) && GetAttributeValue(attrs, Some(WordNS), "gridSpan") == Some(IntToString(n)) ==>
                       CellStart(attrs).colspan == n
  {
    forall n | InIntRange(n) && GetAttributeValue(attrs, Some(WordNS), "gridSpan") == Some(IntToString(n))
      ensures CellStart(attrs).colspan == n
    {
      IntToStringRoundTrip(n);
    }
  }

  function Open(name: string): Event {
    Start(WordNS, name, [], "")
  }

  function Close(name: string): Event {
    End(WordNS, name)
  }

  /** `<w:p><w:r><w:t>text</w:t></w:r></w:p>`. */
  function TextParagraph(text: string): seq<Event> {
    [Open("p"), Open("r"), Start(WordNS, "t", [], text), Close("t"), Close("r"), Close("p")]
  }

  /** A walker between paragraphs, outside any table, list or image. */
  predicate AtTopLevel(st: WalkerState) {
    && st.paragraph == [] && st.listLevel == -1 && st.numId == -1
    && st.imageId == [] && st.imageRelId == []
    && st.table.None? && st.row.None? && st.cell.None?
  }

  // One event each, for the examples below.

  lemma StepOpenParagraph(ctx: Context, st: WalkerState)
    ensures Step(ctx, st, Open("p")) == Success(st.(paragraph := ""))
  {
  }

  lemma StepOpenRun(ctx: Context, st: WalkerState)
    ensures Step(ctx, st, Open("r")) == Success(st)
  {
  }

  lemma StepText(ctx: Context, st: WalkerState, text: string)
    ensures Step(ctx, st, Start(WordNS, "t", [], text)) == Success(st.(paragraph := st.paragraph + text))
  {
  }

  lemma StepCloseText(ctx: Context, st: WalkerState)
    ensures Step(ctx, st, Close("t")) == Success(st)
  {
  }

  lemma StepCloseRun(ctx: Context, st: WalkerState)
    requires st.imageId == [] && st.imageRelId == []
    ensures Step(ctx, st, Close("r")) == Success(st)
  {
    assert RunEnd(ctx, st) == st;
  }

  lemma StepCloseParagraph(ctx: Context, st: WalkerState)
    ensures Step(ctx, st, Close("p")) == Success(ParagraphEnd(st))
  {
  }

  /** One step of a walk, on an event put in front of the rest. */
  lemma WalkCons(ctx: Context, st: WalkerState, e: Event, rest: seq<Event>, next: WalkerState)
    requires !OpensRunProps(e) && Step(ctx, st, e) == Success(next)
    ensures Walk(ctx, st, [e] + rest) == Walk(ctx, next, rest)
  {
    assert ([e] + rest)[0] == e && ([e] + rest)[1..] == rest;
  }

  /** The paragraph's events take a walker with an empty buffer and no pending
      image to the end of a paragraph holding `text`. */
  lemma WalkParagraph(ctx: Context, st: WalkerState, text: string, rest: seq<Event>)
    requires st.paragraph == [] && st.imageId == [] && st.imageRelId == []
    ensures Walk(ctx, st, TextParagraph(text) + rest) == Walk(ctx, ParagraphEnd(st.(paragraph := text)), rest)
  {
    var s2 := st.(paragraph := text);
    var r5 := [Close("p")] + rest;
    var r4 := [Close("r")] + r5;
    var r3 := [Close("t")] + r4;
    var r2 := [Start(WordNS, "t", [], text)] + r3;
    var r1 := [Open("r")] + r2;
    assert TextParagraph(text) + rest == [Open("p")] + r1;
    assert st.(paragraph := "") == st;
    assert st.paragraph + text == text;
    StepOpenParagraph(ctx, st);
    WalkCons(ctx, st, Open("p"), r1, st);
    StepOpenRun(ctx, st);
    WalkCons(ctx, st, Open("r"), r2, st);
    StepText(ctx, st, text);
    WalkCons(ctx, st, Start(WordNS, "t", [], text), r3, s2);
    StepCloseText(ctx, s2);
    WalkCons(ctx, s2, Close("t"), r4, s2);
    StepCloseRun(ctx, s2);
    WalkCons(ctx, s2, Close("r"), r5, s2);
    StepCloseParagraph(ctx, s2);
    WalkCons(ctx, s2, Close("p"), rest, ParagraphEnd(s2));
  }

  /** A plain paragraph gives its text followed by a newline, in the current
      run style, and the walker is back at the top level. */
  lemma PlainParagraphExample(ctx: Context, st: WalkerState, text: string)
    requires AtTopLevel(st)
    requires text != [] && IsTrimmed(text)
    ensures Walk(ctx, st, TextParagraph(text)).Success?
    ensures Walk(ctx, st, TextParagraph(text)).value.elements ==
            st.elements + [TextElement(text, st.style), NewlineElement()]
    ensures AtTopLevel(Walk(ctx, st, TextParagraph(text)).value)
  {
    var s2 := st.(paragraph := text);
    TrimKeepsTrimmed(text);
    ParagraphEndClears(s2);
    ParagraphEndPlain(s2);
    assert TextParagraph(text) + [] == TextParagraph(text);
    WalkParagraph(ctx, st, text, []);
  }

  /** `<w:tbl><w:tr><w:tc>` + the paragraph + `</w:tc></w:tr></w:tbl>`. */
  function OneCellTable(text: string): seq<Event> {
    [Open("tbl"), Open("tr"), Open("tc")] + TextParagraph(text) + [Close("tc"), Close("tr"), Close("tbl")]
  }

  /** The one cell a table of a single paragraph yields. */
  function OnlyCell(text: string, style: TextStyle): TableCell {
    TableCell([TextElement(text, style)], 1, 0)
  }

  lemma OpenOneCell(ctx: Context, st: WalkerState, text: string, rest: seq<Event>)
    requires AtTopLevel(st)
    ensures var open := st.(table := Some(DocxTable([])), row := Some(TableRowDocx([])),
                             cell := Some(TableCell([], 1, 0)), cellElements := []);
            Walk(ctx, st, [Open("tbl"), Open("tr"), Open("tc")] + rest) == Walk(ctx, open, rest)
  {
    var evs := [Open("tbl"), Open("tr"), Open("tc")] + rest;
    var s1 := st.(table := Some(DocxTable([])));
    var s2 := s1.(row := Some(TableRowDocx([])));
    assert CellStart([]) == TableCell([], 1, 0);
    WalkStep(ctx, st, evs, s1);
    WalkStep(ctx, s1, evs[1..], s2);
    WalkStep(ctx, s2, evs[2..], s2.(cellElements := [], cell := Some(TableCell([], 1, 0))));
    assert evs[3..] == rest;
  }

  lemma CellParagraph(ctx: Context, st: WalkerState, text: string, rest: seq<Event>)
    requires st.paragraph == [] && st.imageId == [] && st.imageRelId == [] && st.cell.Some?
    requires text != [] && IsTrimmed(text)
    ensures Walk(ctx, st, TextParagraph(text) + rest) ==
            Walk(ctx, st.(cellElements := st.cellElements + [TextElement(text, st.style)],
                          listLevel := -1, numId := -1), rest)
  {
    var s2 := st.(paragraph := text);
    TrimKeepsTrimmed(text);
    assert !IsBlank(text);
    ParagraphEndInCell(s2);
    ParagraphEndClears(s2);
    assert ParagraphEnd(s2) == st.(cellElements := st.cellElements + [TextElement(text, st.style)],
                                   listLevel := -1, numId := -1);
    WalkParagraph(ctx, st, text, rest);
  }

  lemma CloseOneCell(ctx: Context, st: WalkerState, cell: TableCell)
    requires st.table == Some(DocxTable([])) && st.row == Some(TableRowDocx([])) && st.cell.Some?
    requires cell == st.cell.value.(content := st.cellElements)
    ensures Walk(ctx, st, [Close("tc"), Close("tr"), Close("tbl")]) ==
            Success(st.(elements := st.elements + [TableElement(DocxTable([TableRowDocx([cell])]))],
                        table := None, row := None, cell := None, cellElements := []))
  {
    var evs := [Close("tc"), Close("tr"), Close("tbl")];
    var s1 := st.(row := Some(TableRowDocx([cell])), cell := None, cellElements := []);
    var s2 := s1.(table := Some(DocxTable([TableRowDocx([cell])])), row := None);
    assert [] + [cell] == [cell] && [] + [TableRowDocx([cell])] == [TableRowDocx([cell])];
    assert EndTag(ctx, st, WordNS, "tc") == s1;
    assert EndTag(ctx, s1, WordNS, "tr") == s2;
    WalkStep(ctx, st, evs, s1);
    WalkStep(ctx, s1, evs[1..], s2);
    WalkStep(ctx, s2, evs[2..], s2.(elements := st.elements + [TableElement(DocxTable([TableRowDocx([cell])]))], table := None));
    assert evs[3..] == [];
  }

  /** A one-cell table gives a single Table element whose only cell holds the
      cell's text, spans one column and does not start a vertical merge. */
  lemma OneCellTableExample(ctx: Context, st: WalkerState, text: string)
    requires AtTopLevel(st)
    requires text != [] && IsTrimmed(text)
    ensures Walk(ctx, st, OneCellTable(text)).Success?
    ensures Walk(ctx, st, OneCellTable(text)).value.elements ==
            st.elements + [TableElement(DocxTable([TableRowDocx([OnlyCell(text, st.style)])]))]
  {
    var closing := [Close("tc"), Close("tr"), Close("tbl")];
    var open := st.(table := Some(DocxTable([])), row := Some(TableRowDocx([])),
                    cell := Some(TableCell([], 1, 0)), cellElements := []);
    assert OneCellTable(text) == [Open("tbl"), Open("tr"), Open("tc")] + (TextParagraph(text) + closing);
    OpenOneCell(ctx, st, text, TextParagraph(text) + closing);
    CellParagraph(ctx, open, text, closing);
    var filled := open.(cellElements := [TextElement(text, st.style)], listLevel := -1, numId := -1);
    assert open.cellElements + [TextElement(text, st.style)] == [TextElement(text, st.style)];
    assert Walk(ctx, st, OneCellTable(text)) == Walk(ctx, filled, closing);
    assert filled.cell.value.(content := filled.cellElements) == OnlyCell(text, st.style);
    CloseOneCell(ctx, filled, OnlyCell(text, st.style));
  }

  // ---------------------------------------------------------------- run properties

  predicate HasTag(body: seq<Event>, name: string) {
    exists i :: 0 <= i < |body| && body[i].Start? && body[i].name == name
  }

  /** `parseRunProperties` reads up to the first closing `rPr` and resumes the
      walk right after it. */
  lemma {:induction false} RunPropsStopsAtClose(metrics: Metrics, style: TextStyle, body: seq<Event>,
                                                 ns: string, rest: seq<Event>)
    requires forall i :: 0 <= i < |body| ==> !ClosesRunProps(body[i])
    ensures RunProps(metrics, style, body + [End(ns, "rPr")] + rest) == (RunProps(metrics, style, body).0, rest)
    decreases |body|
  {
    var evs := body + [End(ns, "rPr")] + rest;
    if body == [] {
      assert evs[0] == End(ns, "rPr") && evs[1..] == rest;
    } else {
      assert evs[0] == body[0] && !ClosesRunProps(body[0]);
      assert evs[1..] == body[1..] + [End(ns, "rPr")] + rest;
      RunPropsStopsAtClose(metrics, RunPropStep(metrics, style, body[0]), body[1..], ns, rest);
    }
  }

  /** Each flag is set exactly when its tag occurs (whatever its `val`), and the
      size stays as it was unless an `sz` tag occurs. */
  lemma {:induction false} RunPropsFlags(metrics: Metrics, style: TextStyle, body: seq<Event>)
    requires forall i :: 0 <= i < |body| ==> !ClosesRunProps(body[i])
    ensures RunProps(metrics, style, body).0.isBold <==> style.isBold || HasTag(body, "b")
    ensures RunProps(metrics, style, body).0.isItalic <==> style.isItalic || HasTag(body, "i")
    ensures RunProps(metrics, style, body).0.isUnderscore <==> style.isUnderscore || HasTag(body, "u")
    ensures !HasTag(body, "sz") ==> RunProps(metrics, style, body).0.fontSize == style.fontSize
    decreases |body|
  {
    if body != [] {
      var next := RunPropStep(metrics, style, body[0]);
      assert !ClosesRunProps(body[0]);
      assert RunProps(metrics, style, body) == RunProps(metrics, next, body[1..]);
      assert forall i :: 0 <= i < |body[1..]| ==> body[1..][i] == body[i + 1];
      RunPropsFlags(metrics, next, body[1..]);
      HasTagCons(body, "b");
      HasTagCons(body, "i");
      HasTagCons(body, "u");
      HasTagCons(body, "sz");
    }
  }

  /** One tag inside `rPr` never clears an emphasis flag, and only `sz` changes
      the size. */
  lemma RunPropStepKeepsFlags(metrics: Metrics, style: TextStyle, e: Event)
    ensures style.isBold ==> RunPropStep(metrics, style, e).isBold
    ensures style.isItalic ==> RunPropStep(metrics, style, e).isItalic
    ensures style.isUnderscore ==> RunPropStep(metrics, style, e).isUnderscore
    ensures !(e.Start? && e.name == "sz") ==> RunPropStep(metrics, style, e).fontSize == style.fontSize
  {
  }

  lemma HasTagCons(body: seq<Event>, name: string)
    requires body != []
    ensures HasTag(body, name) <==> (body[0].Start? && body[0].name == name) || HasTag(body[1..], name)
  {
    if HasTag(body, name) {
      var i :| 0 <= i < |body| && body[i].Start? && body[i].name == name;
      if i > 0 {
        assert body[1..][i - 1] == body[i];
      }
    }
    if HasTag(body[1..], name) {
      var i :| 0 <= i < |body[1..]| && body[1..][i].Start? && body[1..][i].name == name;
      assert body[i + 1] == body[1..][i];
    }
  }

  /** Each `rPr` replaces the whole run style: it starts again from the default
      (14, no emphasis), so a bold run followed by a run whose `rPr` has no `b`
      is not bold, and a run without `sz` is back at size 14. */
  lemma RunPropsRestartFromDefault(metrics: Metrics, body: seq<Event>, ns: string, rest: seq<Event>)
    requires forall i :: 0 <= i < |body| ==> !ClosesRunProps(body[i])
    ensures var style := RunProps(metrics, DefaultTextStyle, body + [End(ns, "rPr")] + rest).0;
            && (style.isBold <==> HasTag(body, "b"))
            && (style.isItalic <==> HasTag(body, "i"))
            && (style.isUnderscore <==> HasTag(body, "u"))
            && (!HasTag(body, "sz") ==> style.fontSize == 14.0)
  {
    RunPropsStopsAtClose(metrics, DefaultTextStyle, body, ns, rest);
    RunPropsFlags(metrics, DefaultTextStyle, body);
  }
}
