/** The decoded document: elements, list styles, tables and the parse result. */
module Docx {
  import opened Common
  import Counters

  /** Run formatting. `fontSize` is already in display units. */
  datatype TextStyle = TextStyle(fontSize: real, isBold: bool, isItalic: bool, isUnderscore: bool)

  /** The style every walk starts from: 14 units, no emphasis. */
  const DefaultTextStyle: TextStyle := TextStyle(14.0, false, false, false)

  /** One level of a list definition: its number format name ("bullet",
      "decimal", "lowerLetter", ...) and its cleaned marker text. */
  datatype ListStyle = ListStyle(format: string, lvlText: string)

  /** numId -> level -> style. */
  type ListDefinitions = map<int, map<int, ListStyle>>

  datatype ElementType = Text | Image | ListItem | Newline | Table

  /** One element of the decoded document. As in the source every element has
      every field; those that do not belong to its kind hold their defaults
      (no text, no image, level and numId -1, the default style, no table). */
  datatype DocxElement = DocxElement(
    kind: ElementType,
    text: Option<string>,
    imageData: Option<seq<byte>>,
    listLevel: int,
    numId: int,
    textStyle: TextStyle,
    table: Option<DocxTable>)

  /** A table cell: its content, its column span and a vertical-merge flag that
      is 1 for a cell that starts a merge and 0 otherwise. */
  datatype TableCell = TableCell(content: seq<DocxElement>, colspan: int, rowspan: int)

  datatype TableRowDocx = TableRowDocx(cells: seq<TableCell>)

  datatype DocxTable = DocxTable(rows: seq<TableRowDocx>)

  function TextElement(text: string, style: TextStyle): DocxElement {
    DocxElement(Text, Some(text), None, -1, -1, style, None)
  }

  function ListItemElement(text: string, level: int, numId: int, style: TextStyle): DocxElement {
    DocxElement(ListItem, Some(text), None, level, numId, style, None)
  }

  function NewlineElement(): DocxElement {
    DocxElement(Newline, None, None, -1, -1, DefaultTextStyle, None)
  }

  function ImageElement(data: seq<byte>): DocxElement {
    DocxElement(Image, None, Some(data), -1, -1, DefaultTextStyle, None)
  }

  function TableElement(table: DocxTable): DocxElement {
    DocxElement(Table, None, None, -1, -1, DefaultTextStyle, Some(table))
  }

  /** What a parse hands to its consumer: the elements in document order, the
      list definitions, and the counter store the consumer drives while it
      renders list markers. */
  class ParseResult {
    var elements: seq<DocxElement>
    const listDefinitions: ListDefinitions
    const listCounters: Counters.ListCounters

    constructor (elements: seq<DocxElement>, listDefinitions: ListDefinitions)
      ensures this.elements == elements && this.listDefinitions == listDefinitions
      ensures fresh(listCounters) && listCounters.Valid() && listCounters.counters == map[]
    {
      this.elements := elements;
      this.listDefinitions := listDefinitions;
      this.listCounters := new Counters.ListCounters();
    }
  }
}
