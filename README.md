# Completion core of the Terraform language server, in Dafny

This project models the completion pipeline of the Terraform language
server. It covers four pieces and leaves out the parser and the protocol
transport:

- **Cursor handling** (`Hcl`, from `internal/hcl/hcl.go`). `TokenAtPos`
  finds the identifier fragment that ends at the cursor, using the
  document's line table. `BlockAt` applies the ordered range checks that
  resolve a position to a top-level block. There are three outcomes: a
  block, `NoBlockFound` (the cursor is at the top level) or `InvalidHclPos`.
  The `File` class memoises the parsed tree: the parser runs at most once
  per file.
- **Shared values** (`Lang`, from `internal/terraform/lang/types.go`). This
  module holds label schemas, parsed labels, completion candidates, candidate
  lists with a completeness flag, and the two-variant documentation markup
  with its `Value` accessor.
- **The protocol adapter** (`Lsp`, from `internal/lsp/completion.go`). It
  turns candidates into protocol completion items. It filters by a
  case-sensitive prefix, inserts only the untyped remainder at a zero-width
  range, chooses snippet or label text, and negates the completeness flag.
- **The `provider` block handler** (`Provider`, from
  `internal/terraform/lang/provider_block.go`). This covers the factory and
  its fixed label schema, the lazily cached labels, the `"<unknown>"`
  default name, and the ordered completion dispatch. The dispatch order is:
  no schema reader, then the schema lookup (only for a named block), then
  label completion from the provider list or body completion.

`HclLib` holds the few library types the core uses: positions, ranges and
raw blocks. `Wrappers` holds `Option` and `Result`.

Go strings are byte strings. The model writes them as Dafny `string`, and
each character stands for one byte. Prefix tests and slices work byte by
byte, and byte offsets index the content directly. The one place that
decodes text is the regular expression at internal/hcl/hcl.go:87,96, which
reads its input as UTF-8. `\w` and `\b` in that engine are ASCII-only, so a
non-ASCII byte is never a word character. The byte-wise `TrailingWord`
therefore yields the same group.

Calls into code that is not part of this model are passed in as
function-valued parameters:

- the parser (`File.parse`)
- the Markdown cleaner (`clean`)
- the label-region test, the label and body completion strategies, and
  the snippet of a label candidate (`Provider.BlockServices`)
- the schema reader's answers (`Provider.SchemaReader`)

## Model

| member | source | states |
|---|---|---|
| `HclLib.RangeBetween` | internal/hcl/hcl.go:103 | The range runs from the start of the first line's range to the end of the last line's range, in the first range's file. |
| `Hcl.TrailingWord` | internal/hcl/hcl.go:87-100 | The result is a suffix of the text, made only of `[A-Za-z0-9_]`. It cannot be extended to the left: either it is the whole text or the character before it is not a word character. |
| `Hcl.RegexGroupIsTrailingWord` | internal/hcl/hcl.go:87-100 | `\b(\w+)$` matches at index i exactly when the trailing word is non-empty and starts at i. So the match is unique, its group is the trailing word, and "no match" means the trailing word is empty. |
| `Hcl.TokenAt` | internal/hcl/hcl.go:80-104 | With no lines, only line 1, column 1 is accepted (any byte) and gives `""`. Any other position gives `InvalidHclPos` with the zero range. A line number with no line gives an error whose range spans the first to the last line. On the addressed line the position is accepted iff start byte <= byte <= end byte, and otherwise the error carries that line's range. The token is the trailing word of the line's text before the cursor. |
| `Hcl.TextBeforeCursor` | internal/hcl/hcl.go:93-94 | The text is a prefix of the line's content whose length is the cursor's byte offset from the line's start. |
| `Hcl.TokenAtPos` | internal/hcl/hcl.go:76-104 | The loop over the lines, with its early returns, computes exactly `TokenAt` for every input. |
| `Hcl.TokenIsMaximalWordSuffix` | internal/hcl/hcl.go:93-100 | A successful token is a suffix of the addressed line's text before the cursor, so it never crosses into another line. It is made of word characters only and cannot be extended to the left. |
| `Hcl.TokenEmptyAfterNonWord` | internal/hcl/hcl.go:96-98 | At the start of a line, or right after a non-word character (quote, brace, space, dot), the token is `""`. |
| `Hcl.OutermostBlockAtPos` | internal/hcl/hcl.go:68 | A returned block is a top-level block whose range contains the position. No block is returned iff no top-level block contains it. |
| `Hcl.PosIsEqual` | internal/hcl/hcl.go:106-110 | The result is true iff the two positions are equal in all three fields. |
| `Hcl.BlockAt` | internal/hcl/hcl.go:51-74 | Every error carries the requested position. The checks run in order. (1) An empty body with a position other than the initial one gives `InvalidHclPos` with the body range. (2) For a non-empty body, the body's exact end gives `NoBlockFound`, and this check comes before containment. (3) Any other position outside a non-empty body gives `InvalidHclPos` with the body range. `InvalidHclPos` arises from nowhere else: it implies the position failed these checks. For a position that passes them, a block is found iff some top-level block contains the position; a found block is such a block (inside the body when the body is non-empty), and otherwise the result is `NoBlockFound`. |
| `Hcl.EmptyDocumentResolution` | internal/hcl/hcl.go:55-71 | In an empty document, the initial position resolves to `NoBlockFound` and every other position to `InvalidHclPos` with the empty body range. |
| `Hcl.File.constructor` | internal/hcl/hcl.go:22-27 | A new file keeps its name and content and has no parsed tree yet. |
| `Hcl.File.Ast` | internal/hcl/hcl.go:29-38 | The first call parses, caches the tree and returns the parse diagnostics. Later calls return the cached tree without parsing and report no diagnostics. The ghost counter shows the file is parsed at most once. |
| `Hcl.File.BlockAtPositionResult` | internal/hcl/hcl.go:51-74 | The result is `BlockAt` on the file's parsed tree. Parse diagnostics are dropped, so a malformed document still resolves. |
| `Hcl.File.BlockAtPosition` | internal/hcl/hcl.go:40-49 | The position is returned unchanged on success and on error. On error there is no block; on success there is no error. |
| `Lang.MarkupContent.Value` | internal/terraform/lang/types.go:90-105 | Plain text is returned unchanged. Markdown is returned through the cleaner. |
| `Lang.ParseLabels` | internal/terraform/lang/provider_block.go:73 | There is one parsed label per schema slot, in slot order. Each label has its slot's name and the block's label at that index, or `""` when the block has fewer labels. |
| `Lsp.CursorRange` | internal/lsp/completion.go:53-56 | The range is zero-width, at line-1 and column-1. |
| `Lsp.DocumentationOf` | internal/lsp/completion.go:35-39 | Without markup the documentation is `""`. Otherwise it is the markup's `Value`. |
| `Lsp.CompletionItem` | internal/lsp/completion.go:32-80 | An item exists iff the offered text (the snippet's text with snippet support, the label without) starts with the prefix. Then prefix + inserted text == offered text. The edit range is zero-width at the snippet's anchor (with snippets) or at the cursor (without). Label and detail are copied, documentation is `DocumentationOf`, kind is field, and the insert format follows the snippet flag. |
| `Lsp.RenderedIsOrderedSelection` | internal/lsp/completion.go:21-27 | The rendered items are an order-preserving subsequence of the candidates. Item k is the item of candidate `KeptIndices[k]`, and the indices strictly increase. A candidate is kept iff it produces an item, so each candidate gives at most one item. |
| `Lsp.EmptyPrefixKeepsAll` | internal/lsp/completion.go:41-65 | An empty prefix filters out nothing: there are as many items as candidates. |
| `Lsp.RenderedItemsInsertRemainder` | internal/lsp/completion.go:63-79 | Every rendered item has a zero-width edit. Without snippet support the edit is at the cursor, and prefix + inserted text == the item's label. |
| `Lsp.CompletionList` | internal/lsp/completion.go:10-30 | No candidate list gives an empty list that is not incomplete. Otherwise "incomplete" is the negation of the candidates' completeness, and the items are the rendered candidates in order. |
| `Provider.DisplayName` | internal/terraform/lang/provider_block.go:57-63 | The name is never empty. It is the raw name when there is one and `"<unknown>"` otherwise. |
| `Provider.ProviderCandidateList` | internal/terraform/lang/provider_block.go:120-129 | There is one candidate per name, at the same index. |
| `Provider.ProviderCandidates` | internal/terraform/lang/provider_block.go:120-129 | The loop yields exactly one candidate per input name, in input order. Each has the name as label, `"provider"` as detail and no documentation. Empty input gives an empty list. |
| `Provider.SchemaLookup` | internal/terraform/lang/provider_block.go:86-93 | An unnamed block gets no schema and no lookup. A named block gets the reader's schema block, or the reader's error unchanged. |
| `Provider.CompletionDispatch` | internal/terraform/lang/provider_block.go:81-118 | No reader gives `NoSchemaReader("provider")` with no reader calls. At most two calls are made. The only lookup call is for the first label's name: it is made exactly when a reader exists and the block is named, and it is then the first call. A provider-list fetch happens at most once, as the last call. A lookup error is returned as it is, and the provider list is not fetched. In the labels, a provider-list error is returned as it is; otherwise label completion gets `"name"` mapped to the provider candidates. Outside the labels, body completion answers and the provider list is never fetched. |
| `Provider.ProviderBlockFactory.constructor` | internal/terraform/lang/provider_block.go:12-16 | The factory keeps the given logger and schema reader. |
| `Provider.ProviderBlockFactory.LabelSchema` | internal/terraform/lang/provider_block.go:32-36 | There is exactly one slot. It is named `"name"` and is completable. |
| `Provider.ProviderBlockFactory.BlockType` | internal/terraform/lang/provider_block.go:38-40 | The block type is `"provider"`. |
| `Provider.ProviderBlockFactory.Documentation` | internal/terraform/lang/provider_block.go:42-46 | The block documentation is plain text. |
| `Provider.ProviderBlockFactory.New` | internal/terraform/lang/provider_block.go:18-30 | `New` never returns an error. A missing logger on the factory is first replaced by a discarding one, which changes the factory itself. The new block gets the factory's logger, label schema and schema reader, and the raw block, with no labels cached. |
| `Provider.ProviderBlock.constructor` | internal/terraform/lang/provider_block.go:23-29 | A new block keeps the given fields and has no cached labels. |
| `Provider.ProviderBlock.ResolvedLabels` | internal/terraform/lang/provider_block.go:69-75 | There is one label per schema slot. |
| `Provider.ProviderBlock.BlockType` | internal/terraform/lang/provider_block.go:77-79 | The block type is `"provider"`. |
| `Provider.ProviderBlock.Labels` | internal/terraform/lang/provider_block.go:69-75 | Labels are computed at most once: once cached, later calls return the cached value unchanged. The result is always the parsed labels of the raw block. |
| `Provider.ProviderBlock.RawName` | internal/terraform/lang/provider_block.go:65-67 | The raw name is the first parsed label's value, and the labels end up cached. |
| `Provider.ProviderBlock.Name` | internal/terraform/lang/provider_block.go:57-63 | The name is `DisplayName` of the raw name. |
| `Provider.ProviderBlock.CompletionCandidatesAtPos` | internal/terraform/lang/provider_block.go:81-118 | The result and the ordered reader calls are those of `CompletionDispatch` on the block's labels. |

## Left out

- HCL parsing (`hclsyntax.ParseConfig`) is a function-valued field of `File`. `OutermostBlockAtPos` is library code and is assumed to return the first top-level block whose range contains the position. `Range.Empty` is assumed to be "start byte == end byte" and `Range.ContainsPos` to be half-open byte containment. The type assertion on the body is modelled as an optional body range. `Hcl.EmptyDocumentResolution` also assumes the parser places every top-level block inside the body's range (`BlocksInsideBody`).
- The regular-expression engine is replaced by `TrailingWord`. `RegexGroupIsTrailingWord` shows the two agree.
- `Hcl.TokenAt` and `Hcl.TokenAtPos` require every line's content to be at least as long as its byte range (`LinesWellFormed`). This is stricter than the source needs. The slice at internal/hcl/hcl.go:94 only needs the named line's content to reach the cursor, and a short line that is not named does no harm. Line tables built from the document text always meet the stronger condition.
- The first call of `file.ast` returns the diagnostics typed as an `error`. The model returns the list of diagnostics and does not model Go's typed-nil interface value. The only caller discards it either way.
- The code of `parseLabels` is not part of this model. `Lang.ParseLabels` follows its documented contract: one label per schema slot, with `""` for a missing label.
- `ParseBlock`, the block's `PosInLabels`, `completableLabels`, `completableBlock` and the `labelCandidate` type are not part of this model. They enter as the `BlockServices` parameters. A label candidate is assumed to carry no documentation, since the struct literal at provider_block.go:123-126 sets none.
- The schema reader is a value holding the provider list and a function from a provider name to its schema, each a value or an error. A reader that returns neither a schema nor an error is not modelled. The network and process calls behind it are left out.
- `mdplain.Clean` is an uninterpreted `clean` parameter.
- Loggers are recorded only as which logger a block uses. Log output is not modelled.
- `Lsp.CompletionList` returns an empty item sequence when there are no candidates. The source leaves `Items` as a nil slice there (internal/lsp/completion.go:12-16), which is sent as `"items": null`. Elsewhere it makes an empty non-nil slice (line 21), which is sent as `[]`. The model does not tell the two apart.
- The client capabilities are reduced to the one flag read, snippet support. Protocol structs keep only the fields the adapter sets.
- langserver/handlers/complete.go is request plumbing: context lookups, the file system, parser selection and error wrapping. It is not modelled, and neither is its rule that `NoBlockFound` means offering top-level block types.
- The `Block` and `Parser` interfaces in types.go, `CompletionCandidates.Len` and the block factory registry have no implementation in the modelled files.
- Go's `int` is 64-bit. Positions and lengths here never come near overflow, so the model uses unbounded integers.
