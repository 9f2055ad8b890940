/** Vocabulary shared by the components of the agent runtime. */
module Common {

  datatype Option<+T> = None | Some(value: T)

  datatype Result<+R, +E> = Success(value: R) | Failure(error: E)

  /** The error type that the tool loop and the backend pool share. */
  datatype OrchestratorError =
    | LLMError(message: string)
    | ToolError(message: string)
    | MaxRoundsExceeded(limit: nat)
    | BackendOverloaded(message: string)
    | ResourceBusy(message: string)
    | SecurityViolation(message: string)
    | UserAborted

  datatype Modality = TextModality | ImageModality | AudioModality

  /** A tool as the runtime keeps it at hand. */
  datatype CachedTool = CachedTool(
    name: string,
    description: string,
    schema: string,
    embedding: seq<real>,
    requiresStrictSchema: bool,
    streamingSafe: bool,
    parallelSafe: bool,
    modalities: seq<Modality>)

  ghost predicate Distinct<T(!new)>(s: seq<T>) {
    forall i, j :: 0 <= i < j < |s| ==> s[i] != s[j]
  }

  function Take<T>(s: seq<T>, n: nat): seq<T> {
    if |s| <= n then s else s[..n]
  }

  function Min(a: int, b: int): int {
    if a <= b then a else b
  }

  function Max(a: int, b: int): int {
    if a <= b then b else a
  }
}
