/** The tool registry's two searches: one returns the compatible tools, the other also
    explains why tools are hidden. */
module ToolSearch {
  import opened Common
  import opened StableSort
  import opened Text

  datatype SchemaMode = StrictJsonSchema | ReducedJsonSchema | Unsupported

  datatype Support = Supported | NotSupported | Unknown | Degraded

  datatype Profile = Profile(schemaMode: SchemaMode, images: Support, audio: Support)

  datatype VisibilityReason =
    | Available
    | ToolSchemasUnsupported
    | StrictSchemaRequired
    | ImageModalityUnsupported
    | AudioModalityUnsupported
    | InvalidSchema(message: string)

  datatype Visibility = Visibility(toolName: string, available: bool, reason: VisibilityReason)

  datatype SearchEntry = SearchEntry(tool: CachedTool, score: Option<real>, visibility: Visibility)

  datatype RegistryError = EmptyStore

  /** What the searches depend on besides the store: the outcome of normalising a schema, and
      the score of a tool for the query at hand (similarity plus schema bonus). */
  datatype Setting = Setting(
    normalize: string -> Result<string, string>,
    score: CachedTool -> real,
    profile: Option<Profile>)

  // ----- visibility -----

  function IsCompatible(st: Setting, tool: CachedTool): bool {
    match st.profile
    case None => true
    case Some(profile) =>
      && !profile.schemaMode.Unsupported?
      && (tool.requiresStrictSchema ==> profile.schemaMode.StrictJsonSchema?)
      && (ImageModality in tool.modalities ==> profile.images.Supported?)
      && (AudioModality in tool.modalities ==> profile.audio.Supported?)
      && st.normalize(tool.schema).Success?
  }

  function Explain(st: Setting, tool: CachedTool): Visibility {
    if st.profile.Some? && st.profile.value.schemaMode.Unsupported? then
      Visibility(tool.name, false, ToolSchemasUnsupported)
    else if st.profile.Some? && tool.requiresStrictSchema && !st.profile.value.schemaMode.StrictJsonSchema? then
      Visibility(tool.name, false, StrictSchemaRequired)
    else if st.profile.Some? && ImageModality in tool.modalities && !st.profile.value.images.Supported? then
      Visibility(tool.name, false, ImageModalityUnsupported)
    else if st.profile.Some? && AudioModality in tool.modalities && !st.profile.value.audio.Supported? then
      Visibility(tool.name, false, AudioModalityUnsupported)
    else
      match st.normalize(tool.schema)
      case Success(_) => Visibility(tool.name, true, Available)
      case Failure(message) => Visibility(tool.name, false, InvalidSchema(message))
  }

  // ----- the two searches -----

  type Scored = (CachedTool, real)

  const HIGHER_SCORE: (Scored, Scored) -> bool := (a: Scored, b: Scored) => a.1 > b.1

  predicate EntryBefore(a: SearchEntry, b: SearchEntry) {
    match (a.score, b.score)
    case (Some(x), Some(y)) => x > y
    case (Some(_), None) => true
    case (None, Some(_)) => false
    case (None, None) => StringLess(a.tool.name, b.tool.name)
  }

  const ENTRY_BEFORE: (SearchEntry, SearchEntry) -> bool := (a: SearchEntry, b: SearchEntry) => EntryBefore(a, b)

  function WithScore(st: Setting): CachedTool -> Scored {
    tool => (tool, st.score(tool))
  }

  function Compatible(st: Setting): CachedTool -> bool {
    tool => IsCompatible(st, tool)
  }

  function AsEntry(st: Setting): CachedTool -> SearchEntry {
    tool =>
      var visibility := Explain(st, tool);
      SearchEntry(tool, if visibility.available then Some(st.score(tool)) else None, visibility)
  }

  const IS_AVAILABLE: SearchEntry -> bool := (e: SearchEntry) => e.visibility.available

  function Search(st: Setting, tools: seq<CachedTool>, topK: nat): Result<seq<Scored>, RegistryError> {
    if tools == [] then Failure(EmptyStore)
    else if topK == 0 then Success([])
    else Success(Take(Sort(HIGHER_SCORE, Map(WithScore(st), Filter(Compatible(st), tools))), topK))
  }

  function SearchWithExplanations(st: Setting, tools: seq<CachedTool>, topK: nat)
    : Result<seq<SearchEntry>, RegistryError>
  {
    if tools == [] then Failure(EmptyStore)
    else if topK == 0 then Success([])
    else Success(Take(Sort(ENTRY_BEFORE, Map(AsEntry(st), tools)), topK))
  }

  /** A hit of the plain search as the explaining search shows it. */
  function Shown(hit: Scored): SearchEntry {
    SearchEntry(hit.0, Some(hit.1), Visibility(hit.0.name, true, Available))
  }

  const SHOWN: Scored -> SearchEntry := (hit: Scored) => Shown(hit)

  /** The available entries of the explaining search are the hits of the plain one, in order. */
  ghost predicate Agree(st: Setting, tools: seq<CachedTool>, topK: nat) {
    match (Search(st, tools, topK), SearchWithExplanations(st, tools, topK))
    case (Failure(e), Failure(f)) => e == f
    case (Success(hits), Success(entries)) => Filter(IS_AVAILABLE, entries) == Map(SHOWN, hits)
    case _ => false
  }
}
