/** The handler for `provider` blocks
    (internal/terraform/lang/provider_block.go): its factory, its lazily
    parsed labels, and the ordered decisions that pick which completion
    strategy answers a position. */
module Provider {
  import opened Wrappers
  import opened HclLib
  import opened Lang

  /** The type keyword of the blocks this handler serves. */
  const ProviderBlockType: string := "provider"

  /** The display name of a provider block without a name label. */
  const UnknownName: string := "<unknown>"

  /** Where the handler logs to; logging itself is not modelled. */
  datatype Logger = DiscardLogger | HostLogger(name: string)

  /** A provider's configuration schema block, reduced to the names it
      declares (its use is inside the body completion strategy). */
  datatype SchemaBlock = SchemaBlock(attributes: seq<string>, nestedBlockTypes: seq<string>)

  /** A provider schema as the schema reader returns it. */
  datatype ProviderSchema = ProviderSchema(block: Option<SchemaBlock>)

  /** The schema reader: the known provider names, and the configuration
      schema of a named provider, each a value or an error. */
  datatype SchemaReader = SchemaReader(
    providers: Result<seq<string>, LangError>,
    providerConfigSchema: string -> Result<ProviderSchema, LangError>)

  /** The schema-aware block that the completion strategies work on: the
      raw block, its parsed labels and the schema found for it, if any. */
  datatype ParsedBlock = ParsedBlock(hclBlock: RawBlock, labels: seq<ParsedLabel>, schema: Option<SchemaBlock>)

  /** The collaborators of the completion dispatch whose code is not part
      of this model: the label-region test on a parsed block, the label and
      body completion strategies, and the snippet of a label candidate. */
  datatype BlockServices = BlockServices(
    posInLabels: (ParsedBlock, Pos) -> bool,
    completeLabels: (ParsedBlock, map<string, seq<CompletionCandidate>>, Pos) -> Result<CompletionCandidates, LangError>,
    completeBody: (ParsedBlock, Pos) -> Result<CompletionCandidates, LangError>,
    labelSnippet: string -> (Pos -> Snippet))

  /** A call the dispatch makes on the schema reader. */
  datatype ReaderCall = ProviderConfigSchemaCall(name: string) | ProvidersCall

  /** The outcome of a completion request and the reader calls it made,
      in order. */
  datatype Dispatch = Dispatch(result: Result<CompletionCandidates, LangError>, calls: seq<ReaderCall>)

  // ---------------------------------------------------------------------
  // Names and candidates
  // ---------------------------------------------------------------------

  /** `Name`: the raw name, or "<unknown>" when the block has none. */
  function DisplayName(rawName: string): (name: string)
    ensures name != ""
    ensures rawName != "" ==> name == rawName
    ensures rawName == "" ==> name == UnknownName
  {
    if rawName == "" then UnknownName else rawName
  }

  /** The candidate offered for one provider name. */
  function LabelCandidate(name: string, snippetFor: string -> (Pos -> Snippet)): CompletionCandidate {
    CompletionCandidate(name, ProviderBlockType, None, snippetFor(name))
  }

  /** The candidates offered for a list of provider names. */
  function ProviderCandidateList(names: seq<string>, snippetFor: string -> (Pos -> Snippet)): (cs: seq<CompletionCandidate>)
    ensures |cs| == |names|
    ensures forall i :: 0 <= i < |names| ==> cs[i] == LabelCandidate(names[i], snippetFor)
  {
    seq(|names|, i requires 0 <= i < |names| => LabelCandidate(names[i], snippetFor))
  }

  /** `providerCandidates`: one candidate per name, in the order given, with
      the name as label and "provider" as detail. */
  method ProviderCandidates(names: seq<string>, snippetFor: string -> (Pos -> Snippet)) returns (cs: seq<CompletionCandidate>)
    ensures |cs| == |names|
    ensures forall i :: 0 <= i < |names| ==>
      && cs[i].labelText == names[i]
      && cs[i].detail == ProviderBlockType
      && cs[i].documentation.None?
    ensures cs == ProviderCandidateList(names, snippetFor)
  {
    cs := [];
    for i := 0 to |names|
      invariant |cs| == i
      invariant forall j :: 0 <= j < i ==> cs[j] == LabelCandidate(names[j], snippetFor)
    {
      cs := cs + [LabelCandidate(names[i], snippetFor)];
    }
  }

  // ---------------------------------------------------------------------
  // The completion dispatch
  // ---------------------------------------------------------------------

  /** The schema lookup: skipped for an unnamed block, otherwise the
      reader's answer for that name, with its error passed on unchanged. */
  function SchemaLookup(reader: SchemaReader, rawName: string): (r: Result<Option<SchemaBlock>, LangError>)
    ensures rawName == "" ==> r == Ok(None)
    ensures rawName != "" ==>
      match reader.providerConfigSchema(rawName)
      case Ok(schema) => r == Ok(schema.block)
      case Err(e) => r == Err(e)
  {
    if rawName == "" then Ok(None)
    else
      match reader.providerConfigSchema(rawName)
      case Ok(schema) => Ok(schema.block)
      case Err(e) => Err(e)
  }

  /** What `CompletionCandidatesAtPos` does for a block with these labels. */
  function CompletionDispatch(sr: Option<SchemaReader>, hclBlock: RawBlock, labels: seq<ParsedLabel>,
                              pos: Pos, svc: BlockServices): (d: Dispatch)
    requires |labels| >= 1
    // No schema reader: an error naming the block type, before any lookup.
    ensures sr.None? ==> d.result == Err(NoSchemaReader(ProviderBlockType)) && d.calls == []
    // The schema is looked up first, and only for a named block.
    ensures labels[0].value == "" ==> forall c :: c in d.calls ==> !c.ProviderConfigSchemaCall?
    ensures sr.Some? && labels[0].value != "" ==> |d.calls| >= 1 && d.calls[0] == ProviderConfigSchemaCall(labels[0].value)
    // At most one lookup, keyed on the first label and made first, and at
    // most one provider-list fetch, made last.
    ensures |d.calls| <= 2
    ensures forall i :: 0 <= i < |d.calls| && d.calls[i].ProviderConfigSchemaCall? ==>
      i == 0 && d.calls[i] == ProviderConfigSchemaCall(labels[0].value)
    ensures forall i :: 0 <= i < |d.calls| && d.calls[i] == ProvidersCall ==> i == |d.calls| - 1
    // A failed lookup ends the request with the reader's error.
    ensures sr.Some? && SchemaLookup(sr.value, labels[0].value).Err? ==>
      d.result == Err(SchemaLookup(sr.value, labels[0].value).error) && ProvidersCall !in d.calls
    // After the lookup the position decides the strategy.
    ensures sr.Some? && SchemaLookup(sr.value, labels[0].value).Ok? ==>
      var block := ParsedBlock(hclBlock, labels, SchemaLookup(sr.value, labels[0].value).value);
      && (svc.posInLabels(block, pos) ==>
            && ProvidersCall in d.calls
            && match sr.value.providers
               case Err(e) => d.result == Err(e)
               case Ok(names) =>
                 d.result == svc.completeLabels(block, map["name" := ProviderCandidateList(names, svc.labelSnippet)], pos))
      && (!svc.posInLabels(block, pos) ==>
            d.result == svc.completeBody(block, pos) && ProvidersCall !in d.calls)
  {
    if sr.None? then
      Dispatch(Err(NoSchemaReader(ProviderBlockType)), [])
    else
      var reader := sr.value;
      var rawName := labels[0].value;
      var lookupCalls := if rawName == "" then [] else [ProviderConfigSchemaCall(rawName)];
      match SchemaLookup(reader, rawName)
      case Err(e) => Dispatch(Err(e), lookupCalls)
      case Ok(schemaBlock) =>
        var block := ParsedBlock(hclBlock, labels, schemaBlock);
        if svc.posInLabels(block, pos) then
          var calls := lookupCalls + [ProvidersCall];
          match reader.providers
          case Err(e) => Dispatch(Err(e), calls)
          case Ok(names) =>
            Dispatch(svc.completeLabels(block, map["name" := ProviderCandidateList(names, svc.labelSnippet)], pos), calls)
        else
          Dispatch(svc.completeBody(block, pos), lookupCalls)
  }

  // ---------------------------------------------------------------------
  // The factory and the block
  // ---------------------------------------------------------------------

  /** `providerBlockFactory`. */
  class ProviderBlockFactory {
    var logger: Option<Logger>
    const schemaReader: Option<SchemaReader>

    constructor (logger: Option<Logger>, schemaReader: Option<SchemaReader>)
      ensures this.logger == logger && this.schemaReader == schemaReader
    {
      this.logger := logger;
      this.schemaReader := schemaReader;
    }

    /** The one label slot of a provider block: its completable name. */
    function LabelSchema(): (schema: Lang.LabelSchema)
      ensures |schema| == 1 && schema[0].name == "name" && schema[0].isCompletable
    {
      [Label("name", true)]
    }

    function BlockType(): (t: string)
      ensures t == ProviderBlockType
    {
      ProviderBlockType
    }

    /** The block-level help text. */
    function Documentation(): (doc: MarkupContent)
      ensures doc.PlainText?
    {
      PlainText("A provider block is used to specify a provider configuration. The body of the block (between "
        + "{ and }) contains configuration arguments for the provider itself. Most arguments in this section are "
        + "specified by the provider itself.")
    }

    /** `New`: never fails; installs a discarding logger on the factory
        first when it has none, and hands the block the factory's label
        schema and schema reader. */
    method New(block: RawBlock) returns (pb: ProviderBlock, err: Option<LangError>)
      modifies this`logger
      ensures logger == if old(logger).None? then Some(DiscardLogger) else old(logger)
      ensures err.None?
      ensures fresh(pb) && pb.Valid()
      ensures pb.logger == logger.value && pb.labelSchema == LabelSchema()
      ensures pb.hclBlock == block && pb.sr == schemaReader && pb.labels.None?
    {
      if logger.None? {
        logger := Some(DiscardLogger);
      }
      pb := new ProviderBlock(logger.value, LabelSchema(), block, schemaReader);
      err := None;
    }
  }

  /** `providerBlock`: a provider block whose labels are parsed on first
      use and then kept. */
  class ProviderBlock {
    const logger: Logger
    const labelSchema: LabelSchema
    var labels: Option<seq<ParsedLabel>>
    const hclBlock: RawBlock
    const sr: Option<SchemaReader>

    /** Labels, once cached, are the labels of the raw block. */
    ghost predicate Valid()
      reads this
    {
      && |labelSchema| >= 1
      && (labels.Some? ==> labels.value == ResolvedLabels())
    }

    /** The labels `Labels` returns, cached or not. */
    function ResolvedLabels(): (ls: seq<ParsedLabel>)
      ensures |ls| == |labelSchema|
    {
      ParseLabels(ProviderBlockType, labelSchema, hclBlock.labels)
    }

    constructor (logger: Logger, labelSchema: LabelSchema, hclBlock: RawBlock, sr: Option<SchemaReader>)
      requires |labelSchema| >= 1
      ensures Valid()
      ensures this.logger == logger && this.labelSchema == labelSchema
      ensures this.hclBlock == hclBlock && this.sr == sr && labels.None?
    {
      this.logger := logger;
      this.labelSchema := labelSchema;
      this.hclBlock := hclBlock;
      this.sr := sr;
      labels := None;
    }

    function BlockType(): (t: string)
      ensures t == ProviderBlockType
    {
      ProviderBlockType
    }

    /** `Labels`: parsed on the first call, returned from the cache after. */
    method Labels() returns (ls: seq<ParsedLabel>)
      requires Valid()
      modifies this`labels
      ensures Valid()
      ensures ls == ResolvedLabels() && labels == Some(ls)
      ensures old(labels).Some? ==> ls == old(labels).value
    {
      if labels.Some? {
        return labels.value;
      }
      labels := Some(ParseLabels(BlockType(), labelSchema, hclBlock.labels));
      return labels.value;
    }

    /** `RawName`: the value of the first label. */
    method RawName() returns (raw: string)
      requires Valid()
      modifies this`labels
      ensures Valid() && labels == Some(ResolvedLabels())
      ensures raw == ResolvedLabels()[0].value
    {
      var ls := Labels();
      raw := ls[0].value;
    }

    /** `Name`: the raw name, or "<unknown>". */
    method Name() returns (name: string)
      requires Valid()
      modifies this`labels
      ensures Valid() && labels == Some(ResolvedLabels())
      ensures name == DisplayName(ResolvedLabels()[0].value)
    {
      var firstLabel := RawName();
      if firstLabel == "" {
        return UnknownName;
      }
      return firstLabel;
    }

    /** `CompletionCandidatesAtPos`, with the reader calls it makes recorded
        in `calls`. */
    method CompletionCandidatesAtPos(pos: Pos, svc: BlockServices)
      returns (r: Result<CompletionCandidates, LangError>, ghost calls: seq<ReaderCall>)
      requires Valid()
      modifies this`labels
      ensures Valid() && (sr.Some? ==> labels == Some(ResolvedLabels()))
      ensures sr.None? ==> labels == old(labels)
      ensures var d := CompletionDispatch(sr, hclBlock, ResolvedLabels(), pos, svc);
              r == d.result && calls == d.calls
    {
      if sr.None? {
        return Err(NoSchemaReader(BlockType())), [];
      }
      var reader := sr.value;
      calls := [];
      var schemaBlock: Option<SchemaBlock> := None;
      var rawName := RawName();
      if rawName != "" {
        calls := calls + [ProviderConfigSchemaCall(rawName)];
        var pSchema := reader.providerConfigSchema(rawName);
        if pSchema.Err? {
          return Err(pSchema.error), calls;
        }
        schemaBlock := pSchema.value.block;
      }
      var ls := Labels();
      var block := ParsedBlock(hclBlock, ls, schemaBlock);

      if svc.posInLabels(block, pos) {
        calls := calls + [ProvidersCall];
        var providers := reader.providers;
        if providers.Err? {
          return Err(providers.error), calls;
        }
        var candidates := ProviderCandidates(providers.value, svc.labelSnippet);
        r := svc.completeLabels(block, map["name" := candidates], pos);
        return;
      }

      r := svc.completeBody(block, pos);
    }
  }
}
