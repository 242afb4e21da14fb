/** `parseDocumentRels`: the relationship ids of `word/_rels/document.xml.rels`
    mapped to the file names their targets give under `media/`. */
module Relationships {
  import opened Common
  import opened Strings
  import opened Xml

  /** Relationship id -> image file name. */
  type Relationships = map<string, string>

  /** A `Relationship` tag (any namespace) that has both an `Id` and a `Target`
      attribute, the id being `id`. */
  predicate DeclaresId(e: Event, id: string) {
    && e.Start? && e.name == "Relationship"
    && GetAttributeValue(e.attrs, None, "Id") == Some(id)
    && GetAttributeValue(e.attrs, None, "Target").Some?
  }

  /** The file name a declaring tag maps its id to: the target after its first
      "media/", or the whole target when it has none. */
  function TargetName(e: Event): string
    requires e.Start? && GetAttributeValue(e.attrs, None, "Target").Some?
  {
    SubstringAfter(GetAttributeValue(e.attrs, None, "Target").value, "media/")
  }

  /** One event of the reader. */
  function RelsStep(m: Relationships, e: Event): Relationships {
    match e
    case Start(_, name, attrs, _) =>
      if name == "Relationship" then
        match GetAttributeValue(attrs, None, "Id")
        case Some(id) =>
          (match GetAttributeValue(attrs, None, "Target")
           case Some(target) => m[id := SubstringAfter(target, "media/")]
           case None => m)
        case None => m
      else m
    case End(_, _) => m
  }

  /** The map after the events `evs`, starting empty. */
  function RelsFold(evs: seq<Event>): Relationships
    decreases |evs|
  {
    if evs == [] then map[] else RelsStep(RelsFold(evs[..|evs| - 1]), evs[|evs| - 1])
  }

  /** What `parseDocumentRels` returns for the bytes of the part. */
  function RelsOf(xml: seq<byte>, tokenize: Tokenizer): (r: Result<Relationships>)
    ensures xml == [] ==> r == Success(map[])
  {
    if xml == [] then Success(map[])
    else
      var evs :- tokenize(xml);
      Success(RelsFold(evs))
  }

  /** `parseDocumentRels`. */
  method ParseDocumentRels(xml: seq<byte>, tokenize: Tokenizer) returns (r: Result<Relationships>)
    ensures r == RelsOf(xml, tokenize)
  {
    var relationships: Relationships := map[];
    if xml == [] {
      return Success(relationships);
    }
    var evs :- tokenize(xml);
    for i := 0 to |evs|
      invariant relationships == RelsFold(evs[..i])
    {
      assert evs[..i + 1][..i] == evs[..i];
      match evs[i]
      case Start(_, name, attrs, _) =>
        if name == "Relationship" {
          var id := GetAttributeValue(attrs, None, "Id");
          var target := GetAttributeValue(attrs, None, "Target");
          if id.Some? && target.Some? {
            relationships := relationships[id.value := SubstringAfter(target.value, "media/")];
          }
        }
      case End(_, _) =>
    }
    assert evs[..|evs|] == evs;
    r := Success(relationships);
  }

  /** One tag sets the id it declares and leaves every other id as it was. */
  lemma RelsStepFrame(m: Relationships, e: Event, id: string)
    ensures DeclaresId(e, id) ==> id in RelsStep(m, e) && RelsStep(m, e)[id] == TargetName(e)
    ensures !DeclaresId(e, id) ==> (id in RelsStep(m, e) <==> id in m)
    ensures !DeclaresId(e, id) && id in m ==> RelsStep(m, e)[id] == m[id]
  {
  }

  /** The ids of the map are exactly those of the declaring tags. */
  lemma RelsDomain(evs: seq<Event>, id: string)
    ensures id in RelsFold(evs) <==> exists i :: 0 <= i < |evs| && DeclaresId(evs[i], id)
  {
    if id in RelsFold(evs) {
      MappedIdDeclared(evs, id);
    }
    if exists i :: 0 <= i < |evs| && DeclaresId(evs[i], id) {
      var i :| 0 <= i < |evs| && DeclaresId(evs[i], id);
      DeclaredIdMapped(evs, id, i);
    }
  }

  /** Every declared id is mapped. */
  lemma {:induction false} DeclaredIdMapped(evs: seq<Event>, id: string, i: int)
    requires 0 <= i < |evs| && DeclaresId(evs[i], id)
    ensures id in RelsFold(evs)
    decreases |evs|
  {
    var n := |evs| - 1;
    var prefix := evs[..n];
    RelsStepFrame(RelsFold(prefix), evs[n], id);
    if i < n {
      assert prefix[i] == evs[i];
      DeclaredIdMapped(prefix, id, i);
    }
  }

  /** Every mapped id was declared by some tag. */
  lemma {:induction false} MappedIdDeclared(evs: seq<Event>, id: string)
    requires id in RelsFold(evs)
    ensures exists i :: 0 <= i < |evs| && DeclaresId(evs[i], id)
    decreases |evs|
  {
    var n := |evs| - 1;
    var prefix := evs[..n];
    RelsStepFrame(RelsFold(prefix), evs[n], id);
    if !DeclaresId(evs[n], id) {
      MappedIdDeclared(prefix, id);
      var i :| 0 <= i < |prefix| && DeclaresId(prefix[i], id);
      assert evs[i] == prefix[i];
    }
  }

  /** An id declared more than once maps to the file name of its last declaration. */
  lemma {:induction false} RelsLastWins(evs: seq<Event>, id: string, i: int)
    requires 0 <= i < |evs| && DeclaresId(evs[i], id)
    requires forall j :: i < j < |evs| ==> !DeclaresId(evs[j], id)
    ensures id in RelsFold(evs) && RelsFold(evs)[id] == TargetName(evs[i])
    decreases |evs|
  {
    var n := |evs| - 1;
    var prefix := evs[..n];
    RelsStepFrame(RelsFold(prefix), evs[n], id);
    if i < n {
      assert prefix[i] == evs[i];
      assert forall j :: i < j < n ==> prefix[j] == evs[j];
      RelsLastWins(prefix, id, i);
    }
  }

  /** The media file name of an ordinary image relationship, and a target
      outside `media/` kept whole. */
  lemma TargetNameExamples()
    ensures SubstringAfter("media/image1.png", "media/") == "image1.png"
    ensures SubstringAfter("https://docs.org/a.png", "media/") == "https://docs.org/a.png"
  {
    assert OccursAt("media/image1.png", "media/", 0);
    assert "media/image1.png"[6..] == "image1.png";
    NoMediaIn("https://docs.org/a.png");
  }

  lemma NoMediaIn(s: string)
    requires 'm' !in s
    ensures SubstringAfter(s, "media/") == s
  {
    forall i | 0 <= i
      ensures !OccursAt(s, "media/", i)
    {
      if i + 6 <= |s| {
        assert s[i..i + 6][0] == s[i] && s[i] in s;
      }
    }
  }
}
