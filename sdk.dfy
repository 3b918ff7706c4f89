/**
 * The shapes of the Gemini SDK objects the backend reads, and the Python
 * exception classes the backend raises and catches. Every SDK call is left to
 * the caller: its outcome is passed in as one of these values.
 */
module Sdk {
  import opened Wrappers
  import opened Text

  /** Python exceptions, by the class the backend distinguishes, with their `str(e)`. */
  datatype PyException =
    | ValueError(message: string)
    | RuntimeError(message: string)
    | OtherException(message: string)

  /** Which services a constructed `genai.Client` offers: `files` and `file_search_stores`. */
  datatype Features = Features(hasFiles: bool, hasFileSearchStores: bool)

  /** A File Search store: its resource name and its display name. */
  datatype Store = Store(name: string, displayName: string)

  /**
   * What the `file_search_stores` service answers during one lookup: the
   * outcome of listing the stores and the outcome of creating one (an error
   * carries the exception's text).
   */
  datatype StoresService = StoresService(listing: Result<seq<Store>, string>, creation: Result<Store, string>)

  /**
   * The position of the first store whose display name is `displayName`, as
   * `next(store for store in stores if store.display_name == display_name)`.
   */
  function FirstMatch(stores: seq<Store>, displayName: string): (r: Option<nat>)
    ensures r.Some? ==> r.value < |stores| && stores[r.value].displayName == displayName
    ensures r.Some? ==> forall j :: 0 <= j < r.value ==> stores[j].displayName != displayName
    ensures r.None? ==> forall j :: 0 <= j < |stores| ==> stores[j].displayName != displayName
  {
    if stores == [] then None
    else if stores[0].displayName == displayName then Some(0)
    else match FirstMatch(stores[1..], displayName)
      case None => None
      case Some(i) => Some(i + 1)
  }

  /** The value of a chunk's `id` or `chunk_id` attribute: text or a number. */
  datatype ChunkKey = KeyText(text: string) | KeyNumber(number: int)

  /** A chunk's `file` object: optional `display_name`, and `name` when the attribute exists. */
  datatype SourceFile = SourceFile(displayName: Option<string>, name: Option<string>)

  /** One grounding chunk; `None` is an attribute that is missing or `None`. */
  datatype GroundingChunk = GroundingChunk(
    sourceFileName: Option<string>,
    file: Option<SourceFile>,
    id: Option<ChunkKey>,
    chunkId: Option<ChunkKey>,
    page: Option<int>)

  /** A candidate's grounding metadata. */
  datatype GroundingMetadata = GroundingMetadata(groundingChunks: Option<seq<GroundingChunk>>)

  datatype Candidate = Candidate(groundingMetadata: Option<GroundingMetadata>)

  /** The reply of `generate_content`: its candidates and its text. */
  datatype Generation = Generation(candidates: seq<Candidate>, text: string)

  /** An uploaded file, with its `file_search_stores` attribute when present and not `None`. */
  datatype RemoteFile = RemoteFile(fileSearchStores: Option<seq<string>>)

  /**
   * The settled outcome of an upload operation: the exception its call
   * raised, or the operation's `error` attribute (`None` when absent).
   */
  type UploadOperation = Result<Option<string>, string>

  /** The upload went through: nothing was raised and `op.error` is not truthy. */
  function OperationSucceeded(op: UploadOperation): (b: bool)
    ensures b <==> op.Success? && !TruthyText(op.value)
  {
    op.Success? && (op.value.None? || op.value.value == "")
  }
}
