/** The parts of the HCL library's position model that the completion core
    relies on. The library itself is not part of this model: `Empty` and
    `ContainsPos` are stated here as the assumed library behaviour. */
module HclLib {

  /** A position in a document: 1-based line and column, 0-based byte
      offset. The byte offset is what range containment looks at. */
  datatype Pos = Pos(line: int, column: int, byte: int)

  /** A source range, from `start` up to (not including) `end`. */
  datatype Range = Range(filename: string, start: Pos, end: Pos)

  /** `hcl.InitialPos`: the start of every document. */
  const InitialPos: Pos := Pos(1, 1, 0)

  /** The zero value `hcl.Range{}`. */
  const ZeroRange: Range := Range("", Pos(0, 0, 0), Pos(0, 0, 0))

  /** `Range.Empty`: the range spans no bytes. */
  predicate Empty(r: Range) {
    r.start.byte == r.end.byte
  }

  /** `Range.ContainsPos`: half-open containment by byte offset. */
  predicate ContainsPos(r: Range, p: Pos) {
    r.start.byte <= p.byte < r.end.byte
  }

  /** `hcl.RangeBetween`: from the start of `a` to the end of `b`, in `a`'s file. */
  function RangeBetween(a: Range, b: Range): (r: Range)
    ensures r.filename == a.filename && r.start == a.start && r.end == b.end
  {
    Range(a.filename, a.start, b.end)
  }

  /** A block as the parser produces it: its type keyword, its label
      values and its source range. */
  datatype RawBlock = RawBlock(blockType: string, labels: seq<string>, range: Range)
}
