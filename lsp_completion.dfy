/** Rendering completion candidates as the editor protocol's completion
    list (internal/lsp/completion.go). */
module Lsp {
  import opened Wrappers
  import HclLib
  import opened Lang

  /** A protocol position: 0-based line and character. */
  datatype Position = Position(line: int, character: int)

  datatype WireRange = WireRange(start: Position, end: Position)

  datatype TextEdit = TextEdit(range: WireRange, newText: string)

  /** Every rendered item has the kind "field". */
  datatype CompletionItemKind = FieldKind

  datatype InsertTextFormat = PlainTextFormat | SnippetFormat

  /** The fields of a protocol completion item that the adapter sets. */
  datatype WireCompletionItem = WireCompletionItem(
    labelText: string,
    kind: CompletionItemKind,
    insertTextFormat: InsertTextFormat,
    detail: string,
    documentation: string,
    textEdit: TextEdit)

  datatype WireCompletionList = WireCompletionList(isIncomplete: bool, items: seq<WireCompletionItem>)

  /** `strings.HasPrefix`. */
  predicate HasPrefix(s: string, prefix: string) {
    |prefix| <= |s| && s[..|prefix|] == prefix
  }

  /** The zero-width protocol range at an HCL position (1-based line and
      column become 0-based line and character). */
  function CursorRange(p: HclLib.Pos): (r: WireRange)
    ensures r.start == r.end == Position(p.line - 1, p.column - 1)
  {
    var at := Position(p.line - 1, p.column - 1);
    WireRange(at, at)
  }

  /** The documentation string of a candidate: the markup's plain text, or
      "" when there is none. */
  function DocumentationOf(c: CompletionCandidate, clean: string -> string): (doc: string)
    ensures c.documentation.None? ==> doc == ""
    ensures c.documentation.Some? ==> doc == c.documentation.value.Value(clean)
  {
    match c.documentation
    case None => ""
    case Some(m) => m.Value(clean)
  }

  /** What a candidate offers: with snippet support, its snippet for the
      cursor; without, its label anchored at the cursor. */
  function Offered(c: CompletionCandidate, pos: HclLib.Pos, snippetSupport: bool): Snippet {
    if snippetSupport then c.snippet(pos) else Snippet(pos, c.labelText)
  }

  /** `CompletionItem`: the item for one candidate, or none when the text it
      offers does not start with the typed prefix. Only the untyped rest is
      inserted, at a zero-width range. */
  function CompletionItem(c: CompletionCandidate, pos: HclLib.Pos, snippetSupport: bool, prefix: string, clean: string -> string)
    : (r: Option<WireCompletionItem>)
    ensures r.Some? <==> HasPrefix(Offered(c, pos, snippetSupport).text, prefix)
    ensures r.Some? ==> prefix + r.value.textEdit.newText == Offered(c, pos, snippetSupport).text
    ensures r.Some? ==> r.value.textEdit.range == CursorRange(Offered(c, pos, snippetSupport).anchor)
    ensures r.Some? ==>
      && r.value.labelText == c.labelText
      && r.value.detail == c.detail
      && r.value.documentation == DocumentationOf(c, clean)
      && r.value.kind == FieldKind
      && r.value.insertTextFormat == (if snippetSupport then SnippetFormat else PlainTextFormat)
  {
    var doc := DocumentationOf(c, clean);
    if snippetSupport then
      var snippet := c.snippet(pos);
      if !HasPrefix(snippet.text, prefix) then None
      else
        Some(WireCompletionItem(c.labelText, FieldKind, SnippetFormat, c.detail, doc,
          TextEdit(CursorRange(snippet.anchor), snippet.text[|prefix|..])))
    else if !HasPrefix(c.labelText, prefix) then None
    else
      Some(WireCompletionItem(c.labelText, FieldKind, PlainTextFormat, c.detail, doc,
        TextEdit(CursorRange(pos), c.labelText[|prefix|..])))
  }

  /** The items rendered from a candidate list, in candidate order. */
  function Rendered(cs: seq<CompletionCandidate>, pos: HclLib.Pos, snippetSupport: bool, prefix: string, clean: string -> string)
    : seq<WireCompletionItem>
  {
    if |cs| == 0 then []
    else
      var last := CompletionItem(cs[|cs| - 1], pos, snippetSupport, prefix, clean);
      Rendered(cs[..|cs| - 1], pos, snippetSupport, prefix, clean) + (if last.Some? then [last.value] else [])
  }

  /** The indices of the candidates that produce an item, in order. */
  function KeptIndices(cs: seq<CompletionCandidate>, pos: HclLib.Pos, snippetSupport: bool, prefix: string, clean: string -> string)
    : seq<nat>
  {
    if |cs| == 0 then []
    else
      var last := CompletionItem(cs[|cs| - 1], pos, snippetSupport, prefix, clean);
      KeptIndices(cs[..|cs| - 1], pos, snippetSupport, prefix, clean) + (if last.Some? then [|cs| - 1] else [])
  }

  /** The rendered items are an order-preserving selection of the
      candidates: item k is the item of candidate `KeptIndices[k]`, the
      indices strictly increase, and exactly the candidates that produce an
      item are kept. */
  lemma {:induction false} RenderedIsOrderedSelection(
    cs: seq<CompletionCandidate>, pos: HclLib.Pos, snippetSupport: bool, prefix: string, clean: string -> string)
    ensures var items := Rendered(cs, pos, snippetSupport, prefix, clean);
            var idx := KeptIndices(cs, pos, snippetSupport, prefix, clean);
            && |items| == |idx| <= |cs|
            && (forall k :: 0 <= k < |idx| ==>
                  idx[k] < |cs| && CompletionItem(cs[idx[k]], pos, snippetSupport, prefix, clean) == Some(items[k]))
            && (forall k, l :: 0 <= k < l < |idx| ==> idx[k] < idx[l])
            && (forall i :: 0 <= i < |cs| ==>
                  (i in idx <==> CompletionItem(cs[i], pos, snippetSupport, prefix, clean).Some?))
  {
    if |cs| > 0 {
      var init := cs[..|cs| - 1];
      RenderedIsOrderedSelection(init, pos, snippetSupport, prefix, clean);
      var idx0 := KeptIndices(init, pos, snippetSupport, prefix, clean);
      var idx := KeptIndices(cs, pos, snippetSupport, prefix, clean);
      forall i | 0 <= i < |cs|
        ensures i in idx <==> CompletionItem(cs[i], pos, snippetSupport, prefix, clean).Some?
      {
        if i < |cs| - 1 {
          assert cs[i] == init[i];
          assert (|cs| - 1) !in idx0;
        }
      }
    }
  }

  /** With an empty prefix nothing is filtered out. */
  lemma {:induction false} EmptyPrefixKeepsAll(
    cs: seq<CompletionCandidate>, pos: HclLib.Pos, snippetSupport: bool, clean: string -> string)
    ensures |Rendered(cs, pos, snippetSupport, "", clean)| == |cs|
  {
    if |cs| > 0 {
      EmptyPrefixKeepsAll(cs[..|cs| - 1], pos, snippetSupport, clean);
      assert HasPrefix(Offered(cs[|cs| - 1], pos, snippetSupport).text, "");
    }
  }

  /** An item's edit is zero-width; without snippet support it sits at the
      cursor and inserts what the label has beyond the typed prefix. */
  predicate InsertsRemainder(item: WireCompletionItem, pos: HclLib.Pos, snippetSupport: bool, prefix: string) {
    && item.textEdit.range.start == item.textEdit.range.end
    && (!snippetSupport ==>
          prefix + item.textEdit.newText == item.labelText
          && item.textEdit.range == CursorRange(pos))
  }

  /** Every rendered item has a zero-width edit; without snippet support the
      typed prefix followed by the inserted text is the item's label. */
  lemma {:induction false} RenderedItemsInsertRemainder(
    cs: seq<CompletionCandidate>, pos: HclLib.Pos, snippetSupport: bool, prefix: string, clean: string -> string)
    ensures forall item :: item in Rendered(cs, pos, snippetSupport, prefix, clean) ==>
              InsertsRemainder(item, pos, snippetSupport, prefix)
  {
    if |cs| > 0 {
      var init := cs[..|cs| - 1];
      RenderedItemsInsertRemainder(init, pos, snippetSupport, prefix, clean);
      var items0 := Rendered(init, pos, snippetSupport, prefix, clean);
      var c := cs[|cs| - 1];
      var last := CompletionItem(c, pos, snippetSupport, prefix, clean);
      if last.Some? {
        assert !snippetSupport ==> Offered(c, pos, snippetSupport) == Snippet(pos, c.labelText);
        assert InsertsRemainder(last.value, pos, snippetSupport, prefix);
        var items := Rendered(cs, pos, snippetSupport, prefix, clean);
        assert items == items0 + [last.value];
      }
    }
  }

  /** `CompletionList`: no candidate list gives an empty, complete list;
      otherwise the items rendered in order, and "incomplete" is the
      negation of the candidates' completeness. */
  method CompletionList(candidates: Option<CompletionCandidates>, pos: HclLib.Pos, snippetSupport: bool,
                        prefix: string, clean: string -> string)
    returns (list: WireCompletionList)
    ensures candidates.None? ==> list == WireCompletionList(false, [])
    ensures candidates.Some? ==>
      && list.isIncomplete == !candidates.value.isComplete
      && list.items == Rendered(candidates.value.list, pos, snippetSupport, prefix, clean)
  {
    list := WireCompletionList(false, []);
    if candidates.None? {
      return;
    }
    var cList := candidates.value.list;
    list := list.(isIncomplete := !candidates.value.isComplete, items := []);
    for i := 0 to |cList|
      invariant list.isIncomplete == !candidates.value.isComplete
      invariant list.items == Rendered(cList[..i], pos, snippetSupport, prefix, clean)
    {
      var item := CompletionItem(cList[i], pos, snippetSupport, prefix, clean);
      if item.Some? {
        list := list.(items := list.items + [item.value]);
      }
      assert cList[..i + 1][..i] == cList[..i];
    }
    assert cList[..|cList|] == cList;
  }
}
