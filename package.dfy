/** `parseDocx`: the zip entries of a `.docx` file routed to the document, the
    numbering part, the relationships part and the media files, then the three
    parts read in order into a new parse result. */
module Package {
  import opened Common
  import opened Strings
  import opened Xml
  import opened Docx
  import opened Counters
  import opened Numbering
  import opened Relationships
  import opened Walker
  import opened WalkerFacts
  import opened Markers
  import opened Glyphs

  /** One entry of the archive: its path and its bytes. */
  datatype Entry = Entry(name: string, data: seq<byte>)

  const DocumentPart := "word/document.xml"
  const NumberingPart := "word/numbering.xml"
  const RelsPart := "word/_rels/document.xml.rels"
  const MediaFolder := "word/media/"

  /** The parts the reader keeps; a missing part is empty. */
  datatype Package = Package(document: seq<byte>, numbering: seq<byte>, rels: seq<byte>,
                             media: map<string, seq<byte>>)

  const EmptyPackage := Package([], [], [], map[])

  predicate IsPartName(name: string) {
    name == DocumentPart || name == NumberingPart || name == RelsPart
  }

  /** The bytes a package holds for one of the three named parts. */
  function PartOf(p: Package, name: string): seq<byte>
    requires IsPartName(name)
  {
    if name == DocumentPart then p.document
    else if name == NumberingPart then p.numbering
    else p.rels
  }

  predicate IsMedia(name: string) {
    StartsWith(name, MediaFolder)
  }

  /** The key a media entry is stored under: its path after the last '/'. */
  function MediaName(name: string): string {
    SubstringAfterLast(name, '/')
  }

  /** One entry: the three parts by their exact path (in that order), then any
      path under `word/media/`; any other entry is skipped. */
  function Route(p: Package, e: Entry): Package {
    if e.name == DocumentPart then p.(document := e.data)
    else if e.name == NumberingPart then p.(numbering := e.data)
    else if e.name == RelsPart then p.(rels := e.data)
    else if IsMedia(e.name) then p.(media := p.media[MediaName(e.name) := e.data])
    else p
  }

  /** The package after the entries `entries`, in archive order. */
  function Collect(entries: seq<Entry>): Package
    decreases |entries|
  {
    if entries == [] then EmptyPackage
    else Route(Collect(entries[..|entries| - 1]), entries[|entries| - 1])
  }

  /** The `while (true)` loop over `zip.nextEntry` of `parseDocx`. */
  method ExtractPackage(entries: seq<Entry>) returns (p: Package)
    ensures p == Collect(entries)
  {
    var xmlContent: seq<byte> := [];
    var numberingXml: seq<byte> := [];
    var relsXml: seq<byte> := [];
    var images: map<string, seq<byte>> := map[];
    for i := 0 to |entries|
      invariant Package(xmlContent, numberingXml, relsXml, images) == Collect(entries[..i])
    {
      assert entries[..i + 1][..i] == entries[..i];
      var entry := entries[i];
      if entry.name == DocumentPart {
        xmlContent := entry.data;
      } else if entry.name == NumberingPart {
        numberingXml := entry.data;
      } else if entry.name == RelsPart {
        relsXml := entry.data;
      } else if StartsWith(entry.name, MediaFolder) {
        var name := SubstringAfterLast(entry.name, '/');
        images := images[name := entry.data];
      }
    }
    assert entries[..|entries|] == entries;
    p := Package(xmlContent, numberingXml, relsXml, images);
  }

  /** What `parseDocx` returns, as values. */
  datatype Parsed = Parsed(elements: seq<DocxElement>, listDefinitions: ListDefinitions, counters: Store)

  /** The relationships part, then the numbering part, then the document; the
      first part whose reading fails makes the whole parse fail. */
  function ParsedOf(entries: seq<Entry>, tokenize: Tokenizer, metrics: Metrics): Result<Parsed> {
    var p := Collect(entries);
    var rels :- RelsOf(p.rels, tokenize);
    var defs :- NumberingOf(p.numbering, tokenize);
    var w :- DocumentOf(Context(p.media, rels, metrics), p.document, tokenize, [], map[]);
    Success(Parsed(w.elements, defs, w.counters))
  }

  /** `parseDocx`. */
  method ParseDocx(entries: seq<Entry>, tokenize: Tokenizer, metrics: Metrics) returns (r: Result<ParseResult>)
    ensures r.Success? <==> ParsedOf(entries, tokenize, metrics).Success?
    ensures r.Success? ==> fresh(r.value) && fresh(r.value.listCounters)
    ensures r.Success? ==>
              var parsed := ParsedOf(entries, tokenize, metrics).value;
              && r.value.elements == parsed.elements
              && r.value.listDefinitions == parsed.listDefinitions
              && r.value.listCounters.counters == parsed.counters
              && r.value.listCounters.Valid()
  {
    var p := ExtractPackage(entries);
    var imageRelationships :- ParseDocumentRels(p.rels, tokenize);
    var listDefinitions :- ParseNumberingXml(p.numbering, tokenize);
    var parseResult := new ParseResult([], listDefinitions);
    var done := ParseDocumentXml(p.document, parseResult, p.media, imageRelationships, tokenize, metrics);
    if done.Failure? {
      return Failure(done.error);
    }
    r := Success(parseResult);
  }

  // ---------------------------------------------------------------- routing

  /** One entry changes only the part its path names. */
  lemma RouteFrame(p: Package, e: Entry, name: string)
    requires IsPartName(name)
    ensures e.name == name ==> PartOf(Route(p, e), name) == e.data
    ensures e.name != name ==> PartOf(Route(p, e), name) == PartOf(p, name)
  {
  }

  /** When a part occurs more than once, its last copy is the one read. */
  lemma {:induction false} LastCopyWins(entries: seq<Entry>, name: string, i: int)
    requires IsPartName(name)
    requires 0 <= i < |entries| && entries[i].name == name
    requires forall j :: i < j < |entries| ==> entries[j].name != name
    ensures PartOf(Collect(entries), name) == entries[i].data
    decreases |entries|
  {
    var n := |entries| - 1;
    var prefix := entries[..n];
    RouteFrame(Collect(prefix), entries[n], name);
    if i < n {
      assert prefix[i] == entries[i];
      assert forall j :: i < j < n ==> prefix[j] == entries[j];
      LastCopyWins(prefix, name, i);
    }
  }

  /** A part that does not occur is read as empty: a document without a
      numbering part has no list definitions and one without a relationships
      part no embedded images. */
  lemma {:induction false} MissingPartIsEmpty(entries: seq<Entry>, name: string)
    requires IsPartName(name)
    requires forall j :: 0 <= j < |entries| ==> entries[j].name != name
    ensures PartOf(Collect(entries), name) == []
    decreases |entries|
  {
    if entries != [] {
      var n := |entries| - 1;
      var prefix := entries[..n];
      RouteFrame(Collect(prefix), entries[n], name);
      assert forall j :: 0 <= j < n ==> prefix[j] == entries[j];
      MissingPartIsEmpty(prefix, name);
    }
  }

  /** An entry under `word/media/` stored under `key`. */
  predicate NamesKey(e: Entry, key: string) {
    IsMedia(e.name) && MediaName(e.name) == key
  }

  /** One entry sets the media key it names and keeps the others. */
  lemma RouteMediaFrame(p: Package, e: Entry, key: string)
    ensures NamesKey(e, key) ==>
              key in Route(p, e).media && Route(p, e).media[key] == e.data
    ensures !NamesKey(e, key) ==>
              (key in Route(p, e).media <==> key in p.media)
    ensures !NamesKey(e, key) && key in p.media ==>
              Route(p, e).media[key] == p.media[key]
  {
    if IsMedia(e.name) {
      assert !IsPartName(e.name) by {
        assert e.name[..|MediaFolder|] == MediaFolder;
        assert DocumentPart[..|MediaFolder|][5] != MediaFolder[5];
        assert NumberingPart[..|MediaFolder|][5] != MediaFolder[5];
        assert RelsPart[..|MediaFolder|][5] != MediaFolder[5];
      }
    }
  }

  /** Every media key comes from an entry under `word/media/`. */
  lemma {:induction false} MediaKeyHasEntry(entries: seq<Entry>, key: string)
    requires key in Collect(entries).media
    ensures exists i :: 0 <= i < |entries| && NamesKey(entries[i], key)
    decreases |entries|
  {
    var n := |entries| - 1;
    var prefix := entries[..n];
    RouteMediaFrame(Collect(prefix), entries[n], key);
    if !NamesKey(entries[n], key) {
      MediaKeyHasEntry(prefix, key);
      var i :| 0 <= i < n && NamesKey(prefix[i], key);
      assert entries[i] == prefix[i];
    }
  }

  /** Every entry under `word/media/` leaves its key in the media map. */
  lemma {:induction false} MediaEntryHasKey(entries: seq<Entry>, key: string, i: int)
    requires 0 <= i < |entries| && NamesKey(entries[i], key)
    ensures key in Collect(entries).media
    decreases |entries|
  {
    var n := |entries| - 1;
    var prefix := entries[..n];
    RouteMediaFrame(Collect(prefix), entries[n], key);
    if i < n {
      assert prefix[i] == entries[i];
      MediaEntryHasKey(prefix, key, i);
    }
  }

  /** The media keys are exactly the last path segments of the entries under
      `word/media/`. */
  lemma MediaKeys(entries: seq<Entry>, key: string)
    ensures key in Collect(entries).media <==> exists i :: 0 <= i < |entries| && NamesKey(entries[i], key)
  {
    if key in Collect(entries).media {
      MediaKeyHasEntry(entries, key);
    }
    if exists i :: 0 <= i < |entries| && NamesKey(entries[i], key) {
      var i :| 0 <= i < |entries| && NamesKey(entries[i], key);
      MediaEntryHasKey(entries, key, i);
    }
  }

  /** Media files with the same last segment overwrite each other: the last one
      in the archive is kept, whatever folder under `word/media/` it is in. */
  lemma {:induction false} LastMediaWins(entries: seq<Entry>, key: string, i: int)
    requires 0 <= i < |entries| && NamesKey(entries[i], key)
    requires forall j :: i < j < |entries| ==> !NamesKey(entries[j], key)
    ensures key in Collect(entries).media && Collect(entries).media[key] == entries[i].data
    decreases |entries|
  {
    var n := |entries| - 1;
    var prefix := entries[..n];
    RouteMediaFrame(Collect(prefix), entries[n], key);
    if i < n {
      assert prefix[i] == entries[i];
      assert forall j :: i < j < n ==> prefix[j] == entries[j];
      LastMediaWins(prefix, key, i);
    }
  }

  /** No media key holds a '/', so every key is a bare file name. */
  lemma MediaKeysAreFileNames(entries: seq<Entry>, key: string)
    requires key in Collect(entries).media
    ensures '/' !in key
  {
    MediaKeys(entries, key);
    var i :| 0 <= i < |entries| && NamesKey(entries[i], key);
  }

  /** The folder entry `word/media/` itself is stored, under the empty name. */
  lemma MediaFolderEntry(data: seq<byte>)
    ensures Collect([Entry(MediaFolder, data)]).media == map["" := data]
  {
    var e := Entry(MediaFolder, data);
    assert [e][..0] == [];
    assert IsMedia(MediaFolder);
    assert MediaName(MediaFolder) == "";
  }

  /** Entries outside the three parts and the media folder change nothing. */
  lemma UnrelatedEntryIgnored(entries: seq<Entry>, e: Entry)
    requires !IsPartName(e.name) && !IsMedia(e.name)
    ensures Collect(entries + [e]) == Collect(entries)
  {
    assert (entries + [e])[..|entries|] == entries;
  }

  // ---------------------------------------------------------------- the whole parse

  /** A parse that succeeds yields well-formed elements, with texts and
      newlines paired and images taken from the archive's media, and leaves the
      counter store empty for the display to fill. */
  lemma ParsedIsWellFormed(entries: seq<Entry>, tokenize: Tokenizer, metrics: Metrics)
    requires ParsedOf(entries, tokenize, metrics).Success?
    ensures DocumentWellFormed(Collect(entries).media, ParsedOf(entries, tokenize, metrics).value.elements)
    ensures ParsedOf(entries, tokenize, metrics).value.counters == map[]
  {
    var p := Collect(entries);
    var rels := RelsOf(p.rels, tokenize).value;
    DocumentIsWellFormed(Context(p.media, rels, metrics), p.document, tokenize);
  }

  /** A relationships part the XML reader rejects makes the whole parse fail,
      whatever the rest of the archive holds. */
  lemma BadRelsFails(entries: seq<Entry>, tokenize: Tokenizer, metrics: Metrics)
    requires Collect(entries).rels != [] && tokenize(Collect(entries).rels).Failure?
    ensures ParsedOf(entries, tokenize, metrics).Failure?
  {
  }

  /** Without a numbering part every list item is drawn with the default
      bullet, and marking it leaves the counters alone. */
  lemma NoNumberingAllBullets(entries: seq<Entry>, tokenize: Tokenizer, metrics: Metrics, e: DocxElement, m: Store)
    requires forall j :: 0 <= j < |entries| ==> entries[j].name != NumberingPart
    requires ParsedOf(entries, tokenize, metrics).Success?
    ensures ParsedOf(entries, tokenize, metrics).value.listDefinitions == map[]
    ensures MarkerOf(e, ParsedOf(entries, tokenize, metrics).value.listDefinitions, m) == Marking(DefaultBullet, m)
  {
    MissingPartIsEmpty(entries, NumberingPart);
  }
}
