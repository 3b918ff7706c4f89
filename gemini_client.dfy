/**
 * The backend's wrapper around the Gemini SDK (backend/app/gemini_client.py):
 * the client's construction checks, the store-name cache that
 * `get_or_create_store` and `get_store_name` fill, the prompt that `query`
 * sends, the checks `upload_file` makes before uploading, and the file count
 * of `get_store_info`. Every SDK call is an input: the outcome of listing
 * and creating stores, a `generate` oracle from store name and prompt to
 * reply, an `upload` oracle from store name and path to operation outcome.
 */
module GeminiClient {
  import opened Wrappers
  import opened Text
  import opened Sequences
  import opened Sdk

  const DefaultStoreName := "case-study-store"
  const MissingKeyMessage := "GEMINI_API_KEY must be set"
  const InitFailurePrefix := "Failed to initialize Gemini client: "
  const NoFilesApiMessage :=
    "Gemini client does not support files API. "
    + "Please check your API key and ensure you have access to File Search features."
  const StoresPrefix := "stores/"
  const CreateStoreFailurePrefix := "Failed to create store: "
  const QueryFailurePrefix := "Gemini query failed: "
  const NoCandidatesMessage := "No response candidates from Gemini"
  const BytesPerMegabyte: nat := 1024 * 1024
  const MaxUploadBytes: nat := 100 * BytesPerMegabyte
  const SupportedExtensions: set<string> := {".pdf", ".docx", ".txt", ".md"}
  const FileNotFoundPrefix := "File not found: "
  const UploadFailurePrefix := "Upload failed: "
  const UploadSuccessPrefix := "File uploaded successfully: "
  /** The text of the `AttributeError` raised by `client.file_search_stores` on an SDK client without it. */
  const NoStoresAttributeMessage := "'Client' object has no attribute 'file_search_stores'"

  // ---------------------------------------------------------------------
  // Construction
  // ---------------------------------------------------------------------

  /**
   * Why `GeminiClient(api_key)` raises, if it does: no truthy key (the
   * argument, else the environment's), or a `genai.Client` that could not be
   * built or lacks the `files` service; the last two are re-raised with the
   * initialisation prefix.
   */
  function InitError(apiKey: Option<string>, environmentKey: Option<string>,
                     connection: Result<Features, string>): (r: Option<PyException>)
    ensures r.None? <==> (TruthyText(apiKey) || TruthyText(environmentKey))
                         && connection.Success? && connection.value.hasFiles
    ensures r.Some? ==> r.value.ValueError?
    ensures !TruthyText(apiKey) && !TruthyText(environmentKey) ==> r == Some(ValueError(MissingKeyMessage))
    ensures r.Some? && r.value != ValueError(MissingKeyMessage) ==> StartsWith(r.value.message, InitFailurePrefix)
    ensures (TruthyText(apiKey) || TruthyText(environmentKey)) && connection.Failure? ==>
              r == Some(ValueError(InitFailurePrefix + connection.error))
    ensures (TruthyText(apiKey) || TruthyText(environmentKey)) && connection.Success? && !connection.value.hasFiles ==>
              r == Some(ValueError(InitFailurePrefix + NoFilesApiMessage))
  {
    var key := if TruthyText(apiKey) then apiKey else environmentKey;
    if !TruthyText(key) then Some(ValueError(MissingKeyMessage))
    else match connection
      case Failure(e) => Some(ValueError(InitFailurePrefix + e))
      case Success(features) =>
        if !features.hasFiles then Some(ValueError(InitFailurePrefix + NoFilesApiMessage)) else None
  }

  // ---------------------------------------------------------------------
  // Store lookup
  // ---------------------------------------------------------------------

  /**
   * What `get_or_create_store` returns given the cache it starts from: the
   * cache when set; without the stores service, or when listing raises, the
   * name 'stores/' + display name; the first store with that display name;
   * otherwise a newly created store, whose failure raises `RuntimeError`.
   */
  function StoreLookup(cache: string, hasStores: bool, displayName: string, service: StoresService)
    : (r: Result<string, PyException>)
    ensures cache != "" ==> r == Success(cache)
    ensures cache == "" && (!hasStores || service.listing.Failure?) ==> r == Success(StoresPrefix + displayName)
    ensures r.Failure? <==> cache == "" && hasStores && service.listing.Success?
                            && FirstMatch(service.listing.value, displayName).None? && service.creation.Failure?
    ensures r.Failure? ==> r.error == RuntimeError(CreateStoreFailurePrefix + service.creation.error)
  {
    if cache != "" then Success(cache)
    else if !hasStores then Success(StoresPrefix + displayName)
    else match service.listing
      case Failure(_) => Success(StoresPrefix + displayName)
      case Success(stores) =>
        match FirstMatch(stores, displayName)
        case Some(i) => Success(stores[i].name)
        case None =>
          match service.creation
          case Success(store) => Success(store.name)
          case Failure(e) => Failure(RuntimeError(CreateStoreFailurePrefix + e))
  }

  /** With the stores service listing, an existing store of that display name wins: the first one. */
  lemma LookupFindsFirstMatchingStore(hasStores: bool, displayName: string, service: StoresService, k: nat)
    requires hasStores && service.listing.Success?
    requires k < |service.listing.value| && service.listing.value[k].displayName == displayName
    ensures exists i :: 0 <= i <= k && StoreLookup("", hasStores, displayName, service) == Success(service.listing.value[i].name)
                        && service.listing.value[i].displayName == displayName
                        && forall j :: 0 <= j < i ==> service.listing.value[j].displayName != displayName
  {
    var m := FirstMatch(service.listing.value, displayName);
    assert m.Some?;
    assert m.value <= k;
  }

  /** When no store matches, the created store's name is the answer. */
  lemma LookupCreatesWhenNoneMatches(displayName: string, service: StoresService)
    requires service.listing.Success?
    requires forall j :: 0 <= j < |service.listing.value| ==> service.listing.value[j].displayName != displayName
    requires service.creation.Success?
    ensures StoreLookup("", true, displayName, service) == Success(service.creation.value.name)
  {
  }

  /** Once the cache holds a name, the lookup ignores the display name and the service. */
  lemma LookupIsIdempotent(hasStores: bool, name1: string, name2: string,
                           service1: StoresService, service2: StoresService)
    requires StoreLookup("", hasStores, name1, service1).Success?
    requires StoreLookup("", hasStores, name1, service1).value != ""
    ensures var first := StoreLookup("", hasStores, name1, service1).value;
            StoreLookup(first, hasStores, name2, service2) == Success(first)
  {
  }

  // ---------------------------------------------------------------------
  // Query
  // ---------------------------------------------------------------------

  /** The prompt `query` sends: the system prompt, a blank line, then 'Q: ' and the question. */
  function FullPrompt(systemPrompt: string, question: string): (p: string)
    ensures |p| == |systemPrompt| + 5 + |question|
    ensures StartsWith(p, systemPrompt)
    ensures p[|systemPrompt|..|systemPrompt| + 5] == "\n\nQ: "
    ensures p[|systemPrompt| + 5..] == question
  {
    systemPrompt + "\n\nQ: " + question
  }

  /** Under one system prompt, different questions give different prompts. */
  lemma FullPromptInjective(systemPrompt: string, q1: string, q2: string)
    requires FullPrompt(systemPrompt, q1) == FullPrompt(systemPrompt, q2)
    ensures q1 == q2
  {
    assert q1 == FullPrompt(systemPrompt, q1)[|systemPrompt| + 5..];
  }

  /** The two results of `query`: the reply's text and the first candidate's grounding metadata. */
  datatype Answer = Answer(text: string, groundingMetadata: Option<GroundingMetadata>)

  /**
   * What `query` makes of the reply of `generate_content`: the answer, or a
   * `RuntimeError` with the query prefix when the call raised or the reply
   * has no candidates (that error is raised inside the `try` and wrapped too).
   */
  function AnswerOf(reply: Result<Generation, string>): (r: Result<Answer, PyException>)
    ensures r.Success? <==> reply.Success? && reply.value.candidates != []
    ensures r.Success? ==> r.value == Answer(reply.value.text, reply.value.candidates[0].groundingMetadata)
    ensures r.Failure? ==> r.error.RuntimeError? && StartsWith(r.error.message, QueryFailurePrefix)
    ensures reply.Success? && reply.value.candidates == [] ==>
              r == Failure(RuntimeError(QueryFailurePrefix + NoCandidatesMessage))
  {
    match reply
    case Failure(e) => Failure(RuntimeError(QueryFailurePrefix + e))
    case Success(generation) =>
      if generation.candidates == [] then Failure(RuntimeError(QueryFailurePrefix + NoCandidatesMessage))
      else Success(Answer(generation.text, generation.candidates[0].groundingMetadata))
  }

  // ---------------------------------------------------------------------
  // Upload
  // ---------------------------------------------------------------------

  /** Why `upload_file` refuses a file before contacting the service. */
  datatype UploadRefusal =
    | FileNotFound(path: string)
    | FileTooLarge(size: nat)
    | UnsupportedFileType(extension: string)

  /** The lower-cased `Path(path).suffix`, which `upload_file` compares with the supported set. */
  function FileExtension(path: string): (ext: string)
    ensures ext == "" || (|ext| >= 2 && ext[0] == '.' && '.' !in ext[1..])
    ensures ext != "" ==> ext[1..] == Lower(LastSegment(PathName(path), '.'))
    ensures LastSegment(PathName(path), '.') == PathName(path) ==> ext == ""
    ensures ext == "" <==> PathSuffix(PathName(path)) == ""
  {
    var suffix := PathSuffix(PathName(path));
    if suffix == "" then Lower(suffix)
    else
      LowerDropFirst(suffix);
      LowerDropFirst(suffix[1..]);
      Lower(suffix)
  }

  /** A file named `stem.ext` (non-empty stem, dot-free extension) has the extension `.ext`, lower-cased. */
  lemma DottedFileExtension(path: string, stem: string, ext: string)
    requires PathName(path) == stem + "." + ext
    requires stem != "" && ext != "" && '.' !in ext
    ensures FileExtension(path) == "." + Lower(ext)
  {
    var name := PathName(path);
    PathSuffixAfterStem(stem, ext);
    assert PathSuffix(name) != "";
    assert LastSegment(name, '.') == ext;
    var e := FileExtension(path);
    assert e != "" && e[0] == '.';
    assert e[1..] == Lower(ext);
    DotThen(e, Lower(ext));
  }

  /** A text that is a dot followed by `t` equals `"." + t`. */
  lemma DotThen(e: string, t: string)
    requires e != "" && e[0] == '.' && e[1..] == t
    ensures e == "." + t
  {
    assert e == [e[0]] + e[1..];
  }

  /**
   * The checks of `upload_file`, in order: the file exists, it is at most
   * 100 MB (`size / MB > 100`, which for whole byte counts is
   * `size > 100 * MB`), and its lower-cased suffix is supported.
   */
  function UploadPrecheck(path: string, fileExists: bool, size: nat): (r: Option<UploadRefusal>)
    ensures r.None? <==> fileExists && size <= MaxUploadBytes && FileExtension(path) in SupportedExtensions
    ensures !fileExists ==> r == Some(FileNotFound(path))
    ensures fileExists && size > MaxUploadBytes ==> r == Some(FileTooLarge(size))
    ensures fileExists && size <= MaxUploadBytes && FileExtension(path) !in SupportedExtensions ==>
              r == Some(UnsupportedFileType(FileExtension(path)))
  {
    if !fileExists then Some(FileNotFound(path))
    else if size > MaxUploadBytes then Some(FileTooLarge(size))
    else if FileExtension(path) !in SupportedExtensions then Some(UnsupportedFileType(FileExtension(path)))
    else None
  }

  /** An existing file of at most 100 MB named `stem.ext`, with `.ext` supported in any letter case, passes every check. */
  lemma SupportedFilePassesPrecheck(path: string, stem: string, ext: string, size: nat)
    requires PathName(path) == stem + "." + ext
    requires stem != "" && ext != "" && '.' !in ext
    requires "." + Lower(ext) in SupportedExtensions && size <= MaxUploadBytes
    ensures UploadPrecheck(path, true, size) == None
  {
    DottedFileExtension(path, stem, ext);
  }

  /** An existing file of at most 100 MB whose name has no suffix (no dot, or only a leading or trailing one) is refused as unsupported. */
  lemma SuffixlessFileRefused(path: string, size: nat)
    requires PathSuffix(PathName(path)) == "" && size <= MaxUploadBytes
    ensures UploadPrecheck(path, true, size) == Some(UnsupportedFileType(""))
  {
    assert FileExtension(path) == "";
  }

  /** How `upload_file` ends: refused by a check, failed with a text, or uploaded under a name. */
  datatype UploadResult =
    | Refused(refusal: UploadRefusal)
    | UploadFailed(detail: string)
    | Uploaded(fileName: string)

  /** The `bool` that `upload_file` returns. */
  function UploadSucceeded(r: UploadResult): (b: bool)
    ensures b <==> StartsWith(UploadMessage(r), UploadSuccessPrefix)
  {
    var m := UploadMessage(r);
    match r
    case Uploaded(_) => assert m[..|UploadSuccessPrefix|] == UploadSuccessPrefix; true
    case Refused(FileNotFound(_)) => assert m[5] != UploadSuccessPrefix[5]; false
    case Refused(FileTooLarge(_)) => assert |m| < |UploadSuccessPrefix|; false
    case Refused(UnsupportedFileType(_)) => assert m[0] != UploadSuccessPrefix[0]; false
    case UploadFailed(_) => assert m[0] != UploadSuccessPrefix[0]; false
  }

  /**
   * The `message` that `upload_file` returns. The size refusal's formatted
   * size and the unsupported-type refusal's list of supported extensions
   * (printed in set order) are not modelled: those messages end early.
   */
  function UploadMessage(r: UploadResult): (m: string)
    ensures r.Refused? && r.refusal.FileNotFound? ==> m == FileNotFoundPrefix + r.refusal.path
    ensures r.UploadFailed? ==> m == UploadFailurePrefix + r.detail
    ensures r.Uploaded? ==> m == UploadSuccessPrefix + r.fileName
  {
    match r
    case Refused(FileNotFound(path)) => FileNotFoundPrefix + path
    case Refused(FileTooLarge(_)) => "File exceeds 100MB limit"
    case Refused(UnsupportedFileType(ext)) => "Unsupported file type: " + ext
    case UploadFailed(detail) => UploadFailurePrefix + detail
    case Uploaded(name) => UploadSuccessPrefix + name
  }

  /** What the settled upload operation means for `upload_file`. */
  function UploadResultOf(op: UploadOperation, path: string): (r: UploadResult)
    ensures UploadSucceeded(r) <==> OperationSucceeded(op)
    ensures r.Uploaded? ==> r.fileName == PathName(path)
    ensures op.Failure? ==> r == UploadFailed(op.error)
    ensures op.Success? && TruthyText(op.value) ==> r == UploadFailed(op.value.value)
  {
    match op
    case Failure(e) => UploadFailed(e)
    case Success(error) => if TruthyText(error) then UploadFailed(error.value) else Uploaded(PathName(path))
  }

  // ---------------------------------------------------------------------
  // Store information
  // ---------------------------------------------------------------------

  /** `store_name in (f.file_search_stores or [])`. */
  function InStore(f: RemoteFile, storeName: string): (b: bool)
    ensures f.fileSearchStores.None? ==> !b
    ensures f.fileSearchStores.Some? && |f.fileSearchStores.value| > 0 && f.fileSearchStores.value[0] == storeName ==> b
    ensures f.fileSearchStores.Some? ==>
              (b <==> exists i :: 0 <= i < |f.fileSearchStores.value| && f.fileSearchStores.value[i] == storeName)
  {
    f.fileSearchStores.Some? && storeName in f.fileSearchStores.value
  }

  /** The files of the store, in listing order. */
  function StoreFiles(files: seq<RemoteFile>, storeName: string): (r: seq<RemoteFile>)
    ensures |r| <= |files|
    ensures forall f :: f in r <==> f in files && InStore(f, storeName)
  {
    Filter(files, f => InStore(f, storeName))
  }

  /** The dictionary that `get_store_info` returns. */
  datatype StoreInfo = StoreInfo(storeName: string, fileCount: Option<nat>)

  /**
   * `get_store_info` once the store name is known: the number of listed
   * files that belong to the store, or no count when the `files` service is
   * missing or listing raises.
   */
  function StoreInfoOf(storeName: string, hasFiles: bool, listing: Result<seq<RemoteFile>, string>)
    : (r: StoreInfo)
    ensures r.storeName == storeName
    ensures r.fileCount.None? <==> !hasFiles || listing.Failure?
    ensures r.fileCount.Some? ==>
              r.fileCount.value == |StoreFiles(listing.value, storeName)| && r.fileCount.value <= |listing.value|
  {
    if !hasFiles then StoreInfo(storeName, None)
    else match listing
      case Failure(_) => StoreInfo(storeName, None)
      case Success(files) => StoreInfo(storeName, Some(|StoreFiles(files, storeName)|))
  }

  /** Counting distributes over pages of the listing. */
  lemma StoreCountAdds(a: seq<RemoteFile>, b: seq<RemoteFile>, storeName: string)
    ensures |StoreFiles(a + b, storeName)| == |StoreFiles(a, storeName)| + |StoreFiles(b, storeName)|
  {
    FilterConcat(a, b, f => InStore(f, storeName));
  }

  /** Files attached to no store, or only to others, are not counted. */
  lemma ForeignFilesNotCounted(files: seq<RemoteFile>, storeName: string)
    requires forall i :: 0 <= i < |files| ==> !InStore(files[i], storeName)
    ensures StoreInfoOf(storeName, true, Success(files)).fileCount == Some(0)
  {
    var r := StoreFiles(files, storeName);
    if r != [] {
      assert r[0] in files;
    }
  }

  // ---------------------------------------------------------------------
  // The client
  // ---------------------------------------------------------------------

  class Client {
    /** Whether the SDK client offers `file_search_stores` and `files`. */
    const hasStores: bool
    const hasFiles: bool
    /** `_store_name_cache`; '' stands for `None`, both being false for the cache test. */
    var storeNameCache: string

    /** The client of a successful construction, with an empty cache. */
    constructor (features: Features)
      ensures hasStores == features.hasFileSearchStores && hasFiles == features.hasFiles
      ensures storeNameCache == ""
    {
      hasStores := features.hasFileSearchStores;
      hasFiles := features.hasFiles;
      storeNameCache := "";
    }

    /**
     * `get_or_create_store`: returns `StoreLookup` of the cache it starts
     * with, and every name it returns is cached; a raised error leaves the
     * cache alone.
     */
    method GetOrCreateStore(displayName: string, service: StoresService) returns (r: Result<string, PyException>)
      modifies this
      ensures r == StoreLookup(old(storeNameCache), hasStores, displayName, service)
      ensures r.Success? ==> storeNameCache == r.value
      ensures r.Failure? ==> storeNameCache == old(storeNameCache)
    {
      if storeNameCache != "" {
        return Success(storeNameCache);
      }
      if hasStores {
        match service.listing {
          case Failure(_) =>
            storeNameCache := StoresPrefix + displayName;
            return Success(storeNameCache);
          case Success(stores) =>
            var matching := FirstMatch(stores, displayName);
            if matching.Some? {
              storeNameCache := stores[matching.value].name;
              return Success(storeNameCache);
            }
        }
      } else {
        storeNameCache := StoresPrefix + displayName;
        return Success(storeNameCache);
      }
      match service.creation {
        case Success(store) =>
          storeNameCache := store.name;
          return Success(store.name);
        case Failure(e) =>
          return Failure(RuntimeError(CreateStoreFailurePrefix + e));
      }
    }

    /** `get_store_name`: the cache when set, otherwise the lookup's answer, cached. */
    method GetStoreName(displayName: string, service: StoresService) returns (r: Result<string, PyException>)
      modifies this
      ensures r == StoreLookup(old(storeNameCache), hasStores, displayName, service)
      ensures r.Success? ==> storeNameCache == r.value
      ensures r.Failure? ==> storeNameCache == old(storeNameCache)
    {
      if storeNameCache == "" {
        var found := GetOrCreateStore(displayName, service);
        if found.Failure? {
          return found;
        }
        storeNameCache := found.value;
      }
      return Success(storeNameCache);
    }

    /**
     * `query`: the store name is looked up outside the `try`, so its error
     * propagates unchanged; the full prompt is sent to that store and the
     * reply is read by `AnswerOf`.
     */
    method Query(question: string, systemPrompt: string, displayName: string, service: StoresService,
                 generate: (string, string) -> Result<Generation, string>)
      returns (r: Result<Answer, PyException>)
      modifies this
      ensures var name := StoreLookup(old(storeNameCache), hasStores, displayName, service);
              (name.Failure? ==> r == Failure(name.error))
              && (name.Success? ==> r == AnswerOf(generate(name.value, FullPrompt(systemPrompt, question))))
      ensures var name := StoreLookup(old(storeNameCache), hasStores, displayName, service);
              storeNameCache == (if name.Success? then name.value else old(storeNameCache))
    {
      var storeName := GetStoreName(displayName, service);
      if storeName.Failure? {
        return Failure(storeName.error);
      }
      var fullPrompt := systemPrompt + "\n\nQ: " + question;
      var response := generate(storeName.value, fullPrompt);
      match response {
        case Failure(e) =>
          return Failure(RuntimeError(QueryFailurePrefix + e));
        case Success(generation) =>
          if generation.candidates == [] {
            return Failure(RuntimeError(QueryFailurePrefix + NoCandidatesMessage));
          }
          var candidate := generation.candidates[0];
          return Success(Answer(generation.text, candidate.groundingMetadata));
      }
    }

    /**
     * `upload_file`: a refused file is reported without touching the
     * store; otherwise the store name is looked up inside the `try`, so its
     * error is reported as an upload failure. A client without
     * `file_search_stores` fails on the attribute access, inside the same
     * `try`; otherwise the operation's outcome decides the rest.
     */
    method UploadFile(path: string, fileExists: bool, size: nat, displayName: string, service: StoresService,
                      upload: (string, string) -> UploadOperation)
      returns (r: UploadResult)
      modifies this
      ensures UploadPrecheck(path, fileExists, size).Some? ==>
                r == Refused(UploadPrecheck(path, fileExists, size).value) && storeNameCache == old(storeNameCache)
      ensures UploadPrecheck(path, fileExists, size).None? ==>
                var name := StoreLookup(old(storeNameCache), hasStores, displayName, service);
                (name.Failure? ==> r == UploadFailed(name.error.message) && storeNameCache == old(storeNameCache))
                && (name.Success? && !hasStores ==> r == UploadFailed(NoStoresAttributeMessage) && storeNameCache == name.value)
                && (name.Success? && hasStores ==> r == UploadResultOf(upload(name.value, path), path) && storeNameCache == name.value)
    {
      var refusal := UploadPrecheck(path, fileExists, size);
      if refusal.Some? {
        return Refused(refusal.value);
      }
      var storeName := GetStoreName(displayName, service);
      if storeName.Failure? {
        return UploadFailed(storeName.error.message);
      }
      if !hasStores {
        return UploadFailed(NoStoresAttributeMessage);
      }
      var op := upload(storeName.value, path);
      match op {
        case Failure(e) =>
          return UploadFailed(e);
        case Success(error) =>
          if TruthyText(error) {
            return UploadFailed(error.value);
          }
          return Uploaded(PathName(path));
      }
    }

    /**
     * `get_store_info`: the store name is looked up outside the `try` (its
     * error propagates); the count is `StoreInfoOf` the file listing.
     */
    method GetStoreInfo(displayName: string, service: StoresService, listing: Result<seq<RemoteFile>, string>)
      returns (r: Result<StoreInfo, PyException>)
      modifies this
      ensures var name := StoreLookup(old(storeNameCache), hasStores, displayName, service);
              (name.Failure? ==> r == Failure(name.error) && storeNameCache == old(storeNameCache))
              && (name.Success? ==> r == Success(StoreInfoOf(name.value, hasFiles, listing)) && storeNameCache == name.value)
    {
      var storeName := GetStoreName(displayName, service);
      if storeName.Failure? {
        return Failure(storeName.error);
      }
      if !hasFiles {
        return Success(StoreInfo(storeName.value, None));
      }
      match listing {
        case Failure(_) =>
          return Success(StoreInfo(storeName.value, None));
        case Success(files) =>
          var storeFiles := Filter(files, f => InStore(f, storeName.value));
          return Success(StoreInfo(storeName.value, Some(|storeFiles|)));
      }
    }
  }

  /**
   * `GeminiClient(api_key)`: raises what `InitError` names, otherwise
   * yields a fresh client with an empty cache.
   */
  method NewClient(apiKey: Option<string>, environmentKey: Option<string>, connection: Result<Features, string>)
    returns (r: Result<Client, PyException>)
    ensures InitError(apiKey, environmentKey, connection).Some? ==>
              r == Failure(InitError(apiKey, environmentKey, connection).value)
    ensures InitError(apiKey, environmentKey, connection).None? ==>
              r.Success? && fresh(r.value) && r.value.storeNameCache == ""
              && r.value.hasFiles && r.value.hasStores == connection.value.hasFileSearchStores
  {
    var failure := InitError(apiKey, environmentKey, connection);
    if failure.Some? {
      return Failure(failure.value);
    }
    var client := new Client(connection.value);
    return Success(client);
  }
}
