/** The values shared by block handlers and the protocol adapter
    (internal/terraform/lang/types.go): label schemas, parsed labels,
    documentation markup and completion candidates. */
module Lang {
  import opened Wrappers
  import opened HclLib

  /** One label slot of a block type. */
  datatype Label = Label(name: string, isCompletable: bool)

  /** The ordered label slots of a block type. */
  type LabelSchema = seq<Label>

  /** A label of a concrete block, bound to the slot of the same name. */
  datatype ParsedLabel = ParsedLabel(name: string, value: string)

  /** Documentation text: plain or Markdown. Callers only ever read it
      through `Value`, which renders both kinds as plain text. */
  datatype MarkupContent = PlainText(text: string) | Markdown(text: string)
  {
    /** The plain-text rendering. `clean` is the Markdown-to-plain-text
        cleaner, an external function this model does not interpret. */
    function Value(clean: string -> string): (v: string)
      ensures this.PlainText? ==> v == text
      ensures this.Markdown? ==> v == clean(text)
    {
      match this
      case PlainText(s) => s
      case Markdown(s) => clean(s)
    }
  }

  /** What a candidate's snippet asks for: the position the edit is anchored
      at and the full text to offer. */
  datatype Snippet = Snippet(anchor: Pos, text: string)

  /** A completion candidate: what the list shows, a short detail, optional
      documentation and the snippet it produces for a cursor position. */
  datatype CompletionCandidate = CompletionCandidate(
    labelText: string,
    detail: string,
    documentation: Option<MarkupContent>,
    snippet: Pos -> Snippet)

  /** An ordered candidate list and whether it enumerates everything. */
  datatype CompletionCandidates = CompletionCandidates(list: seq<CompletionCandidate>, isComplete: bool)

  /** Errors of the block handlers. `External` stands for an error that a
      collaborator (the schema reader, a completion strategy) returned; it
      is passed on as it is. */
  datatype LangError =
    | NoSchemaReader(blockType: string)
    | External(message: string)

  /** The labels of a raw block bound to a label schema: one per slot, in
      slot order, with "" for a slot the block does not fill. This is the
      stated behaviour of `parseLabels`, whose code is not part of this
      model. */
  function ParseLabels(blockType: string, schema: LabelSchema, raw: seq<string>): (labels: seq<ParsedLabel>)
    ensures |labels| == |schema|
    ensures forall i :: 0 <= i < |schema| ==>
      labels[i].name == schema[i].name && labels[i].value == (if i < |raw| then raw[i] else "")
  {
    seq(|schema|, i requires 0 <= i < |schema| => ParsedLabel(schema[i].name, if i < |raw| then raw[i] else ""))
  }
}
