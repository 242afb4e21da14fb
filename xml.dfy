/** The XML pull-parser events the decoder reads, with namespaces already
    resolved. Tokenising the text (and UTF-8 decoding before it) is done by
    the platform's parser and enters the model as a `Tokenizer`. */
module Xml {
  import opened Common
  import opened Strings

  /** The namespace URIs the decoder compares against. */
  const WordNS: string := "http://schemas.openxmlformats.org/wordprocessingml/2006/main"
  const DrawingMainNS: string := "http://schemas.openxmlformats.org/drawingml/2006/main"
  const WordDrawingNS: string := "http://schemas.openxmlformats.org/drawingml/2006/wordprocessingDrawing"
  const RelationshipsNS: string := "http://schemas.openxmlformats.org/officeDocument/2006/relationships"

  /** An attribute with its resolved namespace URI ("" when it has none). */
  datatype Attribute = Attribute(ns: string, name: string, value: string)

  /** A start tag or an end tag. `text` is what `nextText()` returns when it is
      called on this start tag (the element's text content); the decoder calls it
      only on the `t` element. */
  datatype Event =
    | Start(ns: string, name: string, attrs: seq<Attribute>, text: string)
    | End(ns: string, name: string)

  /** UTF-8 decoding followed by the pull parser: a part's bytes to its start and
      end tags in document order, or the parser's failure on text that is not
      well-formed XML (which the decoder does not catch). */
  type Tokenizer = seq<byte> -> Result<seq<Event>>

  /** The attribute has the name asked for, in the namespace asked for (any
      namespace when none is given). */
  predicate Matches(a: Attribute, ns: Option<string>, name: string) {
    a.name == name && (ns.None? || a.ns == ns.value)
  }

  /** Attribute `i` matches and no attribute after it does. */
  predicate LastMatch(attrs: seq<Attribute>, ns: Option<string>, name: string, i: int) {
    0 <= i < |attrs| && Matches(attrs[i], ns, name)
    && forall j :: i < j < |attrs| ==> !Matches(attrs[j], ns, name)
  }

  /** `getAttributeValue(namespace, name)`: a null namespace matches an attribute
      in any namespace. The search runs from the last attribute backwards, as the
      platform's parser does, so the last match wins (`LastMatchWins`). */
  function GetAttributeValue(attrs: seq<Attribute>, ns: Option<string>, name: string): (r: Option<string>)
    ensures r.Some? <==> exists i :: 0 <= i < |attrs| && Matches(attrs[i], ns, name)
  {
    if attrs == [] then None
    else
      var a := attrs[|attrs| - 1];
      if Matches(a, ns, name) then Some(a.value)
      else GetAttributeValue(attrs[..|attrs| - 1], ns, name)
  }

  /** The value found is that of the last matching attribute. */
  lemma {:induction false} LastMatchWins(attrs: seq<Attribute>, ns: Option<string>, name: string)
    ensures GetAttributeValue(attrs, ns, name).Some? ==>
            exists i :: LastMatch(attrs, ns, name, i) && GetAttributeValue(attrs, ns, name).value == attrs[i].value
    decreases |attrs|
  {
    if attrs != [] {
      var n := |attrs| - 1;
      if Matches(attrs[n], ns, name) {
        assert LastMatch(attrs, ns, name, n);
      } else {
        var prefix := attrs[..n];
        LastMatchWins(prefix, ns, name);
        var r := GetAttributeValue(prefix, ns, name);
        if r.Some? {
          var i :| LastMatch(prefix, ns, name, i) && r.value == prefix[i].value;
          assert LastMatch(attrs, ns, name, i);
        }
      }
    }
  }

  /** `getAttributeValue(null, name)?.toInt() ?: default`: a missing attribute
      gives the default; one that is not an `Int` fails, as `toInt()` throws. */
  function IntAttr(attrs: seq<Attribute>, name: string, default: int): (r: Result<int>)
    ensures GetAttributeValue(attrs, None, name).None? ==> r == Success(default)
    ensures GetAttributeValue(attrs, None, name).Some? ==>
              (r.Success? <==> ToIntOrNull(GetAttributeValue(attrs, None, name).value).Some?)
    ensures r.Success? ==> InIntRange(r.value) || r.value == default
    ensures GetAttributeValue(attrs, None, name).Some? && ToIntOrNull(GetAttributeValue(attrs, None, name).value).Some? ==>
              r == Success(ToIntOrNull(GetAttributeValue(attrs, None, name).value).value)
  {
    match GetAttributeValue(attrs, None, name)
    case None => Success(default)
    case Some(v) =>
      match ToIntOrNull(v)
      case None => Failure("NumberFormatException: For input string: \"" + v + "\"")
      case Some(n) => Success(n)
  }
}
