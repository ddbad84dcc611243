/** Plain records standing in for the editor-protocol types the two
    operations exchange: zero-based positions, ranges, text edits and
    symbol information. */
module Protocol {

  datatype Option<T> = None | Some(value: T)

  /** A zero-based (line, character) pair. */
  datatype Position = Position(line: nat, character: nat)

  /** A range from `start` (inclusive) to `end` (exclusive). */
  datatype Range = Range(start: Position, end: Position)

  datatype TextEdit = TextEdit(range: Range, newText: string)

  /** The one symbol kind the directive extractor reports. */
  datatype SymbolKind = Property

  datatype Location = Location(uri: string, range: Range)

  datatype SymbolInformation = SymbolInformation(
    name: string,
    kind: SymbolKind,
    containerName: Option<string>,
    location: Location)

  /** A non-empty range on a single line. */
  predicate IsLineSpan(r: Range)
  {
    r.start.line == r.end.line && r.start.character < r.end.character
  }

  /** Half-open containment: the start is inside, the end is not. */
  predicate Contains(r: Range, p: Position)
  {
    r.start.line <= p.line <= r.end.line
    && (p.line == r.start.line ==> r.start.character <= p.character)
    && (p.line == r.end.line ==> p.character < r.end.character)
  }

  /** `a` ends no later than `b` starts. */
  predicate Precedes(a: Range, b: Range)
  {
    a.end.line < b.start.line || (a.end.line == b.start.line && a.end.character <= b.start.character)
  }
}
