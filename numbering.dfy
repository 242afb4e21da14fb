/** `parseNumberingXml`: the list definitions of `word/numbering.xml`. Abstract
    definitions (`abstractNum`) describe the levels of a list; a concrete list
    (`num`) takes a copy of the abstract definition its `abstractNumId` names,
    as that definition stands when the link is read. */
module Numbering {
  import opened Common
  import opened Strings
  import opened Xml
  import opened Glyphs
  import opened LvlText
  import opened Docx

  /** The reader's variables between two events. */
  datatype NumberingState = NumberingState(
    numId: int,
    abstractNumId: int,
    level: int,
    format: string,
    lvlText: string,
    abstractNums: ListDefinitions,
    numbering: ListDefinitions)

  const InitialState: NumberingState := NumberingState(-1, -1, -1, "bullet", DefaultBullet, map[], map[])

  /** `getOrPut(outer) { mutableMapOf() }[inner] = style`. */
  function Put(defs: ListDefinitions, outer: int, inner: int, style: ListStyle): (r: ListDefinitions)
    ensures r.Keys == defs.Keys + {outer}
    ensures r[outer].Keys == (if outer in defs then defs[outer].Keys else {}) + {inner}
    ensures r[outer][inner] == style
    ensures forall l :: l in r[outer] && l != inner ==> outer in defs && r[outer][l] == defs[outer][l]
    ensures forall o :: o in defs && o != outer ==> r[o] == defs[o]
  {
    var levels := if outer in defs then defs[outer] else map[];
    defs[outer := levels[inner := style]]
  }

  /** One event of the reader. Tags are matched by local name only. */
  function Step(st: NumberingState, e: Event): Result<NumberingState> {
    match e
    case Start(_, name, attrs, _) =>
      if name == "num" then
        var n :- IntAttr(attrs, "numId", -1);
        Success(st.(numId := n))
      else if name == "abstractNum" then
        var a :- IntAttr(attrs, "abstractNumId", -1);
        Success(st.(abstractNumId := a))
      else if name == "lvl" then
        var l :- IntAttr(attrs, "ilvl", -1);
        Success(st.(level := l))
      else if name == "numFmt" then
        var format := match GetAttributeValue(attrs, None, "val")
                      case Some(f) => f
                      case None => st.format;
        Success(st.(format := format))
      else if name == "lvlText" then
        Success(st.(lvlText := CleanLvlText(GetAttributeValue(attrs, None, "val"))))
      else if name == "abstractNumId" then
        var a :- IntAttr(attrs, "val", -1);
        if a in st.abstractNums then Success(st.(numbering := st.numbering[st.numId := st.abstractNums[a]]))
        else Success(st)
      else Success(st)
    case End(_, name) =>
      if name == "lvl" then
        if st.abstractNumId != -1 && st.level != -1 then
          Success(st.(abstractNums := Put(st.abstractNums, st.abstractNumId, st.level, ListStyle(st.format, st.lvlText)),
                      level := -1))
        else Success(st)
      else if name == "abstractNum" then Success(st.(abstractNumId := -1))
      else if name == "num" then Success(st.(numId := -1))
      else Success(st)
  }

  /** The reader from state `st` over the events `evs`; the first failing event
      ends it. */
  function Run(st: NumberingState, evs: seq<Event>): Result<NumberingState>
    decreases |evs|
  {
    if evs == [] then Success(st)
    else
      var next :- Step(st, evs[0]);
      Run(next, evs[1..])
  }

  /** What `parseNumberingXml` returns for the bytes of the part (empty when the
      package has none). */
  function NumberingOf(xml: seq<byte>, tokenize: Tokenizer): (r: Result<ListDefinitions>)
    ensures xml == [] ==> r == Success(map[])
  {
    if xml == [] then Success(map[])
    else
      var evs :- tokenize(xml);
      var st :- Run(InitialState, evs);
      Success(st.numbering)
  }

  /** `parseNumberingXml`: one pass over the events with the source's variables. */
  method ParseNumberingXml(xml: seq<byte>, tokenize: Tokenizer) returns (r: Result<ListDefinitions>)
    ensures r == NumberingOf(xml, tokenize)
  {
    var numbering: ListDefinitions := map[];
    if xml == [] {
      return Success(numbering);
    }
    var evs :- tokenize(xml);
    var currentNumId := -1;
    var currentAbstractNumId := -1;
    var currentLevel := -1;
    var currentFormat := "bullet";
    var currentLvlText := DefaultBullet;
    var abstractNumMap: ListDefinitions := map[];
    for i := 0 to |evs|
      invariant Run(NumberingState(currentNumId, currentAbstractNumId, currentLevel, currentFormat,
                                   currentLvlText, abstractNumMap, numbering), evs[i..])
                == Run(InitialState, evs)
    {
      ghost var before := NumberingState(currentNumId, currentAbstractNumId, currentLevel, currentFormat,
                                         currentLvlText, abstractNumMap, numbering);
      assert evs[i..][0] == evs[i] && evs[i..][1..] == evs[i + 1..];
      match evs[i]
      case Start(_, name, attrs, _) =>
        if name == "num" {
          currentNumId :- IntAttr(attrs, "numId", -1);
        } else if name == "abstractNum" {
          currentAbstractNumId :- IntAttr(attrs, "abstractNumId", -1);
        } else if name == "lvl" {
          currentLevel :- IntAttr(attrs, "ilvl", -1);
        } else if name == "numFmt" {
          var format := GetAttributeValue(attrs, None, "val");
          if format.Some? {
            currentFormat := format.value;
          }
        } else if name == "lvlText" {
          currentLvlText := CleanLvlText(GetAttributeValue(attrs, None, "val"));
        } else if name == "abstractNumId" {
          var abstractId :- IntAttr(attrs, "val", -1);
          if abstractId in abstractNumMap {
            numbering := numbering[currentNumId := abstractNumMap[abstractId]];
          }
        }
      case End(_, name) =>
        if name == "lvl" {
          if currentAbstractNumId != -1 && currentLevel != -1 {
            abstractNumMap := Put(abstractNumMap, currentAbstractNumId, currentLevel,
                                  ListStyle(currentFormat, currentLvlText));
            currentLevel := -1;
          }
        } else if name == "abstractNum" {
          currentAbstractNumId := -1;
        } else if name == "num" {
          currentNumId := -1;
        }
      assert Step(before, evs[i]) == Success(NumberingState(currentNumId, currentAbstractNumId, currentLevel,
                                     currentFormat, currentLvlText, abstractNumMap, numbering));
    }
    r := Success(numbering);
  }

  /** Every level of `levels` has a real level number and a visible marker text. */
  predicate LevelsWellFormed(levels: map<int, ListStyle>) {
    forall l :: l in levels ==> l != -1 && !IsBlank(levels[l].lvlText)
  }

  predicate StateWellFormed(st: NumberingState) {
    && !IsBlank(st.lvlText)
    && (forall a :: a in st.abstractNums ==> a != -1 && LevelsWellFormed(st.abstractNums[a]))
    && (forall n :: n in st.numbering ==> LevelsWellFormed(st.numbering[n]))
  }

  lemma StepKeepsWellFormed(st: NumberingState, e: Event)
    requires StateWellFormed(st)
    requires Step(st, e).Success?
    ensures StateWellFormed(Step(st, e).value)
  {
    if e.End? && e.name == "lvl" && st.abstractNumId != -1 && st.level != -1 {
      PutKeepsWellFormed(st.abstractNums, st.abstractNumId, st.level, ListStyle(st.format, st.lvlText));
    }
  }

  lemma PutKeepsWellFormed(defs: ListDefinitions, outer: int, inner: int, style: ListStyle)
    requires forall a :: a in defs ==> a != -1 && LevelsWellFormed(defs[a])
    requires outer != -1 && inner != -1 && !IsBlank(style.lvlText)
    ensures forall a :: a in Put(defs, outer, inner, style) ==> a != -1 && LevelsWellFormed(Put(defs, outer, inner, style)[a])
  {
    var r := Put(defs, outer, inner, style);
    assert LevelsWellFormed(r[outer]) by {
      forall l | l in r[outer] ensures l != -1 && !IsBlank(r[outer][l].lvlText) {
        if l != inner {
          assert r[outer][l] == defs[outer][l];
        }
      }
    }
  }

  lemma {:induction false} RunKeepsWellFormed(st: NumberingState, evs: seq<Event>)
    requires StateWellFormed(st)
    requires Run(st, evs).Success?
    ensures StateWellFormed(Run(st, evs).value)
    decreases |evs|
  {
    if evs != [] {
      StepKeepsWellFormed(st, evs[0]);
      RunKeepsWellFormed(Step(st, evs[0]).value, evs[1..]);
    }
  }

  /** Every list the reader returns has only real level numbers (never the -1 of
      a `lvl` without `ilvl`) and a visible marker text at every level. */
  lemma NumberingWellFormed(xml: seq<byte>, tokenize: Tokenizer)
    ensures NumberingOf(xml, tokenize).Success? ==>
              forall n :: n in NumberingOf(xml, tokenize).value ==> LevelsWellFormed(NumberingOf(xml, tokenize).value[n])
  {
    var r := NumberingOf(xml, tokenize);
    if xml != [] && r.Success? {
      var evs := tokenize(xml).value;
      WingdingsShape();
      RunKeepsWellFormed(InitialState, evs);
      assert r.value == Run(InitialState, evs).value.numbering;
    }
  }

  /** A level is stored only when the end of its `lvl` is read inside an abstract
      definition with both ids known; it is stored with the format and marker
      text last read, and those stay in force for the following levels. */
  lemma LevelEndStoresCurrentStyle(st: NumberingState, ns: string)
    ensures Step(st, End(ns, "lvl")).Success?
    ensures var next := Step(st, End(ns, "lvl")).value;
            && next.format == st.format && next.lvlText == st.lvlText
            && next.numbering == st.numbering
            && (st.abstractNumId == -1 || st.level == -1 ==> next == st)
            && (st.abstractNumId != -1 && st.level != -1 ==>
                  next.level == -1 && next.abstractNums[st.abstractNumId][st.level] == ListStyle(st.format, st.lvlText))
  {
  }

  /** Only an `abstractNumId` start tag writes to the result; every other event
      leaves the lists read so far as they are. */
  lemma NumberingChangesOnlyAtLink(st: NumberingState, e: Event)
    requires !(e.Start? && e.name == "abstractNumId")
    requires Step(st, e).Success?
    ensures Step(st, e).value.numbering == st.numbering
  {
  }

  /** The copy a link takes is a snapshot: events without a link never change the
      lists already in the result, whatever levels they add to the abstract
      definitions. */
  lemma {:induction false} SnapshotIsStable(st: NumberingState, evs: seq<Event>)
    requires forall i :: 0 <= i < |evs| ==> !(evs[i].Start? && evs[i].name == "abstractNumId")
    requires Run(st, evs).Success?
    ensures Run(st, evs).value.numbering == st.numbering
    decreases |evs|
  {
    if evs != [] {
      NumberingChangesOnlyAtLink(st, evs[0]);
      SnapshotIsStable(Step(st, evs[0]).value, evs[1..]);
    }
  }

  /** A link to an abstract definition that has not been read yet adds nothing:
      the reader depends on abstract definitions coming first. */
  lemma LinkBeforeDefinitionIsLost(st: NumberingState, ns: string, attrs: seq<Attribute>, text: string, a: int)
    requires IntAttr(attrs, "val", -1) == Success(a)
    requires a !in st.abstractNums
    ensures Step(st, Start(ns, "abstractNumId", attrs, text)) == Success(st)
  {
  }

  /** A numeric attribute that is not an `Int` stops the reader with a failure. */
  lemma BadNumberFails(st: NumberingState, ns: string, text: string, value: string, rest: seq<Event>)
    requires ToIntOrNull(value).None?
    ensures Run(st, [Start(ns, "num", [Attribute(ns, "numId", value)], text)] + rest).Failure?
  {
    var evs := [Start(ns, "num", [Attribute(ns, "numId", value)], text)] + rest;
    assert evs[0] == Start(ns, "num", [Attribute(ns, "numId", value)], text);
  }

  /** Running over two pieces is running over the first, then over the second. */
  lemma {:induction false} RunAppend(st: NumberingState, a: seq<Event>, b: seq<Event>)
    ensures Run(st, a + b) == (match Run(st, a)
                               case Success(mid) => Run(mid, b)
                               case Failure(err) => Failure(err))
    decreases |a|
  {
    if a == [] {
      assert a + b == b;
    } else {
      assert (a + b)[0] == a[0] && (a + b)[1..] == a[1..] + b;
      if Step(st, a[0]).Success? {
        RunAppend(Step(st, a[0]).value, a[1..], b);
      }
    }
  }

  function Open(name: string, attrs: seq<Attribute>): Event {
    Start(WordNS, name, attrs, "")
  }

  function Close(name: string): Event {
    End(WordNS, name)
  }

  function Attr(name: string, value: string): Attribute {
    Attribute(WordNS, name, value)
  }

  /** An abstract definition 0 with one decimal level 0 whose template is "%1.". */
  const AbstractPart: seq<Event> := [
    Open("abstractNum", [Attr("abstractNumId", "0")]),
    Open("lvl", [Attr("ilvl", "0")]),
    Open("numFmt", [Attr("val", "decimal")]), Close("numFmt"),
    Open("lvlText", [Attr("val", "%1.")]), Close("lvlText"),
    Close("lvl"),
    Close("abstractNum")]

  /** A list 1 linked to abstract definition 0. */
  const NumPart: seq<Event> := [
    Open("num", [Attr("numId", "1")]),
    Open("abstractNumId", [Attr("val", "0")]), Close("abstractNumId"),
    Close("num")]

  lemma OneAttr(name: string, value: string)
    ensures GetAttributeValue([Attr(name, value)], None, name) == Some(value)
  {
  }

  lemma ZeroAndOne()
    ensures ToIntOrNull("0") == Some(0) && ToIntOrNull("1") == Some(1)
  {
    assert "0"[0..] == "0" && "1"[0..] == "1";
    assert DigitsValue("0") == 0 by { assert "0"[..0] == ""; }
    assert DigitsValue("1") == 1 by { assert "1"[..0] == ""; }
  }

  /** Reading the abstract part from the initial state. */
  lemma AbstractPartRun(st: NumberingState)
    requires st.abstractNumId == -1 && st.level == -1 && st.abstractNums == map[]
    ensures Run(st, AbstractPart).Success?
    ensures Run(st, AbstractPart).value.abstractNums == map[0 := map[0 := ListStyle("decimal", ".")]]
    ensures Run(st, AbstractPart).value.numbering == st.numbering
    ensures Run(st, AbstractPart).value.numId == st.numId
  {
    var s1 := st.(abstractNumId := 0);
    var s2 := s1.(level := 0);
    var s3 := s2.(format := "decimal");
    var s5 := s3.(lvlText := ".");
    var s7 := s5.(abstractNums := map[0 := map[0 := ListStyle("decimal", ".")]], level := -1);
    var s8 := s7.(abstractNumId := -1);
    AbstractOpenSteps(st);
    AbstractTextSteps(s3);
    AbstractCloseSteps(s3);
    RunStep(st, AbstractPart[0..], s1);
    RunStep(s1, AbstractPart[1..], s2);
    RunStep(s2, AbstractPart[2..], s3);
    RunStep(s3, AbstractPart[3..], s3);
    RunStep(s3, AbstractPart[4..], s5);
    RunStep(s5, AbstractPart[5..], s5);
    RunStep(s5, AbstractPart[6..], s7);
    RunStep(s7, AbstractPart[7..], s8);
    assert AbstractPart[8..] == [];
    assert AbstractPart[0..] == AbstractPart;
  }

  /** The first three tags of the abstract part: ids and format are read. */
  lemma AbstractOpenSteps(st: NumberingState)
    ensures Step(st, AbstractPart[0]) == Success(st.(abstractNumId := 0))
    ensures Step(st.(abstractNumId := 0), AbstractPart[1]) == Success(st.(abstractNumId := 0, level := 0))
    ensures Step(st.(abstractNumId := 0, level := 0), AbstractPart[2]) ==
            Success(st.(abstractNumId := 0, level := 0, format := "decimal"))
  {
    ZeroAndOne();
    OneAttr("abstractNumId", "0");
    OneAttr("ilvl", "0");
    OneAttr("val", "decimal");
  }

  /** The template of the abstract part is read and cleaned. */
  lemma AbstractTextSteps(s3: NumberingState)
    requires s3.abstractNumId == 0 && s3.level == 0 && s3.format == "decimal" && s3.abstractNums == map[]
    ensures Step(s3, AbstractPart[3]) == Success(s3)
    ensures Step(s3, AbstractPart[4]) == Success(s3.(lvlText := "."))
  {
    CleanTemplateExample();
    OneAttr("val", "%1.");
  }

  /** The rest of the abstract part: the level is stored and the ids forgotten. */
  lemma AbstractCloseSteps(s3: NumberingState)
    requires s3.abstractNumId == 0 && s3.level == 0 && s3.format == "decimal" && s3.abstractNums == map[]
    ensures Step(s3.(lvlText := "."), AbstractPart[5]) == Success(s3.(lvlText := "."))
    ensures Step(s3.(lvlText := "."), AbstractPart[6]) ==
            Success(s3.(lvlText := ".", abstractNums := map[0 := map[0 := ListStyle("decimal", ".")]], level := -1))
    ensures Step(s3.(lvlText := ".", abstractNums := map[0 := map[0 := ListStyle("decimal", ".")]], level := -1), AbstractPart[7]) ==
            Success(s3.(lvlText := ".", abstractNums := map[0 := map[0 := ListStyle("decimal", ".")]], level := -1, abstractNumId := -1))
  {
  }

  /** One step of a run. */
  lemma RunStep(st: NumberingState, evs: seq<Event>, next: NumberingState)
    requires evs != [] && Step(st, evs[0]) == Success(next)
    ensures Run(st, evs) == Run(next, evs[1..])
  {
  }

  /** Reading the list part: the link copies whatever abstract definition 0 is at
      that point. */
  lemma NumPartRun(st: NumberingState)
    requires st.numId == -1
    ensures Run(st, NumPart).Success?
    ensures Run(st, NumPart).value.numbering ==
            if 0 in st.abstractNums then st.numbering[1 := st.abstractNums[0]] else st.numbering
  {
    ZeroAndOne();
    var s1 := st.(numId := 1);
    var s2 := if 0 in st.abstractNums then s1.(numbering := st.numbering[1 := st.abstractNums[0]]) else s1;
    var s4 := s2.(numId := -1);
    assert Step(st, NumPart[0]) == Success(s1);
    assert Step(s1, NumPart[1]) == Success(s2);
    assert Step(s2, NumPart[2]) == Success(s2);
    assert Step(s2, NumPart[3]) == Success(s4);
    assert Run(s4, NumPart[4..]) == Success(s4);
    assert Run(s2, NumPart[3..]) == Success(s4);
    assert Run(s2, NumPart[2..]) == Success(s4);
    assert Run(s1, NumPart[1..]) == Success(s4);
  }

  /** With the abstract definition first, list 1 gets a decimal level 0 whose
      marker text is "." (the placeholder removed); with the list first, the link
      finds nothing and the result is empty. */
  lemma DefinitionOrderMatters()
    ensures Run(InitialState, AbstractPart + NumPart).Success?
    ensures Run(InitialState, AbstractPart + NumPart).value.numbering == map[1 := map[0 := ListStyle("decimal", ".")]]
    ensures Run(InitialState, NumPart + AbstractPart).Success?
    ensures Run(InitialState, NumPart + AbstractPart).value.numbering == map[]
  {
    RunAppend(InitialState, AbstractPart, NumPart);
    AbstractPartRun(InitialState);
    NumPartRun(Run(InitialState, AbstractPart).value);
    RunAppend(InitialState, NumPart, AbstractPart);
    NumPartRun(InitialState);
    var mid := Run(InitialState, NumPart).value;
    assert mid.abstractNumId == -1 && mid.level == -1 && mid.abstractNums == map[] by {
      NumPartFrame(InitialState);
    }
    AbstractPartRun(mid);
  }

  /** The list part touches neither the abstract definitions nor the level state. */
  lemma NumPartFrame(st: NumberingState)
    requires st.numId == -1
    ensures Run(st, NumPart).Success?
    ensures Run(st, NumPart).value.abstractNums == st.abstractNums
    ensures Run(st, NumPart).value.abstractNumId == st.abstractNumId
    ensures Run(st, NumPart).value.level == st.level
  {
    NumPartRun(st);
    ZeroAndOne();
    var s1 := st.(numId := 1);
    var s2 := if 0 in st.abstractNums then s1.(numbering := st.numbering[1 := st.abstractNums[0]]) else s1;
    var s4 := s2.(numId := -1);
    assert Step(st, NumPart[0]) == Success(s1);
    assert Step(s1, NumPart[1]) == Success(s2);
    assert Step(s2, NumPart[2]) == Success(s2);
    assert Step(s2, NumPart[3]) == Success(s4);
    assert Run(s2, NumPart[2..]) == Success(s4);
    assert Run(s1, NumPart[1..]) == Success(s4);
  }
}
