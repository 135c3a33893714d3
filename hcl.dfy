/** Cursor handling over a parsed configuration document: the identifier
    fragment that ends at the cursor, and the top-level block enclosing the
    cursor (internal/hcl/hcl.go). */
module Hcl {
  import opened Wrappers
  import opened HclLib

  /** The two position errors. `NoBlockFound` is the "complete at top level"
      signal; `InvalidHclPos` is a genuine input error and carries the range
      the position was checked against. */
  datatype HclError =
    | InvalidHclPos(pos: Pos, inRange: Range)
    | NoBlockFound(pos: Pos)

  /** One line of the document: its byte range and its raw content. */
  datatype Line = Line(range: Range, content: string)

  // ---------------------------------------------------------------------
  // The token before the cursor
  // ---------------------------------------------------------------------

  /** The ASCII word characters matched by `\w`: `[A-Za-z0-9_]`. */
  predicate IsWordChar(c: char) {
    ('a' <= c <= 'z') || ('A' <= c <= 'Z') || ('0' <= c <= '9') || c == '_'
  }

  predicate AllWordChars(s: string) {
    forall i :: 0 <= i < |s| ==> IsWordChar(s[i])
  }

  /** The longest run of word characters at the end of `s`. */
  function TrailingWord(s: string): (w: string)
    ensures |w| <= |s| && w == s[|s| - |w|..]
    ensures AllWordChars(w)
    ensures |w| < |s| ==> !IsWordChar(s[|s| - |w| - 1])
  {
    if |s| > 0 && IsWordChar(s[|s| - 1]) then
      TrailingWord(s[..|s| - 1]) + [s[|s| - 1]]
    else
      []
  }

  /** `\b` at index `i` of `s`: a word character on exactly one side. */
  predicate AtWordBoundary(s: string, i: int)
    requires 0 <= i <= |s|
  {
    (0 < i && IsWordChar(s[i - 1])) != (i < |s| && IsWordChar(s[i]))
  }

  /** The pattern `\b(\w+)$` matches `s` with its group starting at `i`. */
  predicate RegexMatchesAt(s: string, i: int) {
    0 <= i < |s| && AtWordBoundary(s, i) && AllWordChars(s[i..])
  }

  /** The regular expression of the source has at most one match, and its
      group is exactly the trailing word; no match means the trailing word
      is empty. So `TrailingWord` is what the regex step returns. */
  lemma RegexGroupIsTrailingWord(s: string, i: int)
    ensures RegexMatchesAt(s, i) <==> (TrailingWord(s) != [] && i == |s| - |TrailingWord(s)|)
  {
  }

  /** Every line's content is long enough for the byte slice the token
      extraction takes from it. */
  predicate LinesWellFormed(lines: seq<Line>) {
    forall i :: 0 <= i < |lines| ==>
      lines[i].range.end.byte - lines[i].range.start.byte <= |lines[i].content|
  }

  /** The text of the addressed line up to the cursor. */
  function TextBeforeCursor(line: Line, pos: Pos): (t: string)
    requires line.range.end.byte - line.range.start.byte <= |line.content|
    requires line.range.start.byte <= pos.byte <= line.range.end.byte
    ensures t <= line.content && |t| == pos.byte - line.range.start.byte
  {
    line.content[..pos.byte - line.range.start.byte]
  }

  /** What `tokenAtPos` returns for every input. */
  function TokenAt(lines: seq<Line>, pos: Pos): (r: Result<string, HclError>)
    requires LinesWellFormed(lines)
    // Empty document: only line 1, column 1 is accepted, whatever the byte.
    ensures |lines| == 0 ==> (r.Ok? <==> pos.line == 1 && pos.column == 1)
    ensures |lines| == 0 && r.Ok? ==> r.value == ""
    ensures |lines| == 0 && r.Err? ==> r.error == InvalidHclPos(pos, ZeroRange)
    // A line number with no line: the error spans the whole document.
    ensures |lines| > 0 && !(0 <= pos.line - 1 < |lines|) ==>
      r == Err(InvalidHclPos(pos, RangeBetween(lines[0].range, lines[|lines| - 1].range)))
    // On the addressed line the byte must lie within the line, both ends included.
    ensures 0 <= pos.line - 1 < |lines| ==>
      (r.Ok? <==> lines[pos.line - 1].range.start.byte <= pos.byte <= lines[pos.line - 1].range.end.byte)
    ensures 0 <= pos.line - 1 < |lines| && r.Err? ==>
      r.error == InvalidHclPos(pos, lines[pos.line - 1].range)
    // The token is the trailing word of that line's text before the cursor.
    ensures 0 <= pos.line - 1 < |lines| && r.Ok? ==>
      r.value == TrailingWord(TextBeforeCursor(lines[pos.line - 1], pos))
  {
    if |lines| == 0 then
      if pos.column != 1 || pos.line != 1 then Err(InvalidHclPos(pos, ZeroRange)) else Ok("")
    else if 0 <= pos.line - 1 < |lines| then
      var line := lines[pos.line - 1];
      if line.range.end.byte < pos.byte || line.range.start.byte > pos.byte then
        Err(InvalidHclPos(pos, line.range))
      else
        Ok(TrailingWord(TextBeforeCursor(line, pos)))
    else
      Err(InvalidHclPos(pos, RangeBetween(lines[0].range, lines[|lines| - 1].range)))
  }

  /** `tokenAtPos`: scans the lines for the one the position names. */
  method TokenAtPos(lines: seq<Line>, pos: Pos) returns (r: Result<string, HclError>)
    requires LinesWellFormed(lines)
    ensures r == TokenAt(lines, pos)
  {
    if |lines| == 0 {
      if pos.column != 1 || pos.line != 1 {
        return Err(InvalidHclPos(pos, ZeroRange));
      }
      return Ok("");
    }
    for i := 0 to |lines|
      invariant !(0 <= pos.line - 1 < i)
    {
      if i == pos.line - 1 {
        var srcLine := lines[i];
        if srcLine.range.end.byte < pos.byte || srcLine.range.start.byte > pos.byte {
          return Err(InvalidHclPos(pos, srcLine.range));
        }
        var content := srcLine.content[..pos.byte - srcLine.range.start.byte];
        return Ok(TrailingWord(content));
      }
    }
    return Err(InvalidHclPos(pos, RangeBetween(lines[0].range, lines[|lines| - 1].range)));
  }

  /** A successful token is a suffix of the addressed line's text before the
      cursor, made of word characters only, and cannot be extended to the
      left; it never reaches into another line. */
  lemma TokenIsMaximalWordSuffix(lines: seq<Line>, pos: Pos)
    requires LinesWellFormed(lines) && |lines| > 0
    requires TokenAt(lines, pos).Ok?
    ensures 0 <= pos.line - 1 < |lines|
    ensures var before := TextBeforeCursor(lines[pos.line - 1], pos);
            var token := TokenAt(lines, pos).value;
            && |token| <= |before|
            && before[|before| - |token|..] == token
            && AllWordChars(token)
            && (|token| < |before| ==> !IsWordChar(before[|before| - |token| - 1]))
  {
  }

  /** The cursor at the start of a line, or right after a non-word
      character, yields the empty token. */
  lemma TokenEmptyAfterNonWord(lines: seq<Line>, pos: Pos)
    requires LinesWellFormed(lines)
    requires 0 <= pos.line - 1 < |lines|
    requires var l := lines[pos.line - 1];
             l.range.start.byte <= pos.byte <= l.range.end.byte
    requires var l := lines[pos.line - 1];
             pos.byte == l.range.start.byte
             || !IsWordChar(l.content[pos.byte - l.range.start.byte - 1])
    ensures TokenAt(lines, pos) == Ok("")
  {
    var l := lines[pos.line - 1];
    var before := TextBeforeCursor(l, pos);
    if |before| > 0 {
      assert before[|before| - 1] == l.content[pos.byte - l.range.start.byte - 1];
    }
  }

  // ---------------------------------------------------------------------
  // The block at the cursor
  // ---------------------------------------------------------------------

  /** A parse diagnostic (its contents do not matter to the core). */
  datatype Diagnostic = Diagnostic(summary: string)

  /** A parsed document: the body's source range when the body is a native
      syntax body, and its top-level blocks in document order. */
  datatype AstFile = AstFile(syntaxBody: Option<Range>, blocks: seq<RawBlock>)

  /** What the parser returns: always a tree, possibly with diagnostics. */
  datatype ParseResult = ParseResult(file: AstFile, diagnostics: seq<Diagnostic>)

  /** The library's `OutermostBlockAtPos`, taken to be the first top-level
      block whose range contains the position. */
  function OutermostBlockAtPos(blocks: seq<RawBlock>, pos: Pos): (r: Option<RawBlock>)
    ensures r.Some? ==> r.value in blocks && ContainsPos(r.value.range, pos)
    ensures r.None? <==> forall b :: b in blocks ==> !ContainsPos(b.range, pos)
  {
    if |blocks| == 0 then None
    else if ContainsPos(blocks[0].range, pos) then Some(blocks[0])
    else OutermostBlockAtPos(blocks[1..], pos)
  }

  /** `posIsEqual`: field-by-field comparison. */
  function PosIsEqual(a: Pos, b: Pos): (eq: bool)
    ensures eq <==> a == b
  {
    a.byte == b.byte && a.column == b.column && a.line == b.line
  }

  /** The position gets past the body checks of `blockAtPosition`: there
      is no native body, or the body is empty and the position is the
      initial one, or the body is non-empty, contains the position and
      does not end there. */
  predicate PassesBodyChecks(ast: AstFile, pos: Pos) {
    || ast.syntaxBody.None?
    || (Empty(ast.syntaxBody.value) && pos == InitialPos)
    || (!Empty(ast.syntaxBody.value) && pos != ast.syntaxBody.value.end && ContainsPos(ast.syntaxBody.value, pos))
  }

  /** The outcome of `blockAtPosition` on a parsed document. */
  function BlockAt(ast: AstFile, pos: Pos): (r: Result<RawBlock, HclError>)
    // Both error kinds carry the position asked about.
    ensures r.Err? ==> r.error.pos == pos
    // Step 1: an empty body accepts only the initial position.
    ensures ast.syntaxBody.Some? && Empty(ast.syntaxBody.value) && pos != InitialPos ==>
      r == Err(InvalidHclPos(pos, ast.syntaxBody.value))
    // Step 2: the exact end of a non-empty body is the top level, checked before containment.
    ensures ast.syntaxBody.Some? && !Empty(ast.syntaxBody.value) && pos == ast.syntaxBody.value.end ==>
      r == Err(NoBlockFound(pos))
    // Step 3: any other position outside a non-empty body is invalid.
    ensures ast.syntaxBody.Some? && !Empty(ast.syntaxBody.value) && pos != ast.syntaxBody.value.end
            && !ContainsPos(ast.syntaxBody.value, pos) ==>
      r == Err(InvalidHclPos(pos, ast.syntaxBody.value))
    // An invalid-position error only ever comes from the body checks.
    ensures r.Err? && r.error.InvalidHclPos? ==>
      ast.syntaxBody.Some? && r.error.inRange == ast.syntaxBody.value && !PassesBodyChecks(ast, pos)
    // Past the body checks, a block is found iff some top-level block contains the position.
    ensures PassesBodyChecks(ast, pos) ==>
      (r.Ok? <==> exists b :: b in ast.blocks && ContainsPos(b.range, pos))
    // Step 4: a found block is a top-level block that contains the position.
    ensures r.Ok? ==> r.value in ast.blocks && ContainsPos(r.value.range, pos)
    ensures r.Ok? && ast.syntaxBody.Some? && !Empty(ast.syntaxBody.value) ==>
      ContainsPos(ast.syntaxBody.value, pos)
    // Past the body checks, no enclosing block means the top level.
    ensures (ast.syntaxBody.None? || (!Empty(ast.syntaxBody.value) && ContainsPos(ast.syntaxBody.value, pos)))
            && (forall b :: b in ast.blocks ==> !ContainsPos(b.range, pos)) ==>
      r == Err(NoBlockFound(pos))
  {
    if ast.syntaxBody.Some? && Empty(ast.syntaxBody.value) && pos != InitialPos then
      Err(InvalidHclPos(pos, ast.syntaxBody.value))
    else if ast.syntaxBody.Some? && !Empty(ast.syntaxBody.value) && PosIsEqual(ast.syntaxBody.value.end, pos) then
      Err(NoBlockFound(pos))
    else if ast.syntaxBody.Some? && !Empty(ast.syntaxBody.value) && !ContainsPos(ast.syntaxBody.value, pos) then
      Err(InvalidHclPos(pos, ast.syntaxBody.value))
    else
      match OutermostBlockAtPos(ast.blocks, pos)
      case None => Err(NoBlockFound(pos))
      case Some(b) => Ok(b)
  }

  /** Every top-level block lies inside the body's range, as a parser
      produces them. */
  predicate BlocksInsideBody(ast: AstFile) {
    ast.syntaxBody.Some? ==>
      forall b :: b in ast.blocks ==>
        ast.syntaxBody.value.start.byte <= b.range.start.byte
        && b.range.end.byte <= ast.syntaxBody.value.end.byte
  }

  /** In an empty document no position finds a block; the initial position
      is the top level and every other position is invalid. */
  lemma EmptyDocumentResolution(ast: AstFile, pos: Pos)
    requires ast.syntaxBody.Some? && Empty(ast.syntaxBody.value)
    requires BlocksInsideBody(ast)
    ensures BlockAt(ast, pos) ==
      if pos == InitialPos then Err(NoBlockFound(pos))
      else Err(InvalidHclPos(pos, ast.syntaxBody.value))
  {
    if pos == InitialPos {
      forall b | b in ast.blocks
        ensures !ContainsPos(b.range, pos)
      {
      }
    }
  }

  /** A document file whose syntax tree is parsed on first use and then
      kept (`file.ast`). The parser is a parameter: `parse(content,
      filename)` stands for parsing from the initial position. */
  class File {
    const filename: string
    const content: string
    const parse: (string, string) -> ParseResult
    var f: Option<AstFile>
    /** How many times this file has run the parser. */
    ghost var parses: nat

    /** A cached tree is the tree of this content, parsed exactly once. */
    ghost predicate Valid()
      reads this
    {
      && (f.Some? ==> f.value == parse(content, filename).file)
      && parses == (if f.Some? then 1 else 0)
    }

    /** `NewFile`: nothing parsed yet. */
    constructor (filename: string, content: string, parse: (string, string) -> ParseResult)
      ensures Valid()
      ensures this.filename == filename && this.content == content && this.parse == parse
      ensures f.None? && parses == 0
    {
      this.filename := filename;
      this.content := content;
      this.parse := parse;
      f := None;
      parses := 0;
    }

    /** `ast`: parses on the first call only; later calls return the cached
        tree and report no diagnostics. */
    method Ast() returns (ast: AstFile, diagnostics: seq<Diagnostic>)
      requires Valid()
      modifies this`f, this`parses
      ensures Valid()
      ensures ast == parse(content, filename).file && f == Some(ast)
      ensures old(f).Some? ==> diagnostics == [] && parses == old(parses)
      ensures old(f).None? ==> diagnostics == parse(content, filename).diagnostics && parses == old(parses) + 1
    {
      if f.Some? {
        return f.value, [];
      }
      var result := parse(content, filename);
      parses := parses + 1;
      f := Some(result.file);
      return result.file, result.diagnostics;
    }

    /** `blockAtPosition`: resolves on the (possibly malformed) tree; the
        parse diagnostics are dropped. */
    method BlockAtPositionResult(pos: Pos) returns (r: Result<RawBlock, HclError>)
      requires Valid()
      modifies this`f, this`parses
      ensures Valid() && f.Some? && parses == 1
      ensures r == BlockAt(parse(content, filename).file, pos)
    {
      var ast, _ := Ast();
      r := BlockAt(ast, pos);
    }

    /** `BlockAtPosition`: the block or the error, and the position unchanged. */
    method BlockAtPosition(pos: Pos) returns (block: Option<RawBlock>, p: Pos, err: Option<HclError>)
      requires Valid()
      modifies this`f, this`parses
      ensures Valid() && f.Some? && parses == 1
      ensures p == pos
      ensures var r := BlockAt(parse(content, filename).file, pos);
              && (r.Ok? ==> block == Some(r.value) && err.None?)
              && (r.Err? ==> block.None? && err == Some(r.error))
    {
      var r := BlockAtPositionResult(pos);
      if r.Err? {
        return None, pos, Some(r.error);
      }
      return Some(r.value), pos, None;
    }
  }
}
