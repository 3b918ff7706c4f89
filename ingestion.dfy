/**
 * The command-line ingestion script (backend/app/ingestion.py): the store
 * selection, the size gate of one upload, the split of the folder's entries
 * into supported and skipped files, and the loop that tallies successful and
 * failed uploads. The folder walk (`rglob`) is an input listing of entries in
 * walk order, and each upload's settled operation comes from an oracle.
 */
module Ingestion {
  import opened Wrappers
  import opened Text
  import opened Sequences
  import opened Sdk

  const BytesPerMegabyte: nat := 1024 * 1024
  const MaxFileBytes: nat := 100 * BytesPerMegabyte
  const SupportedExtensions: set<string> := {".pdf", ".docx", ".txt", ".md"}
  const DefaultStoreName := "case-study-store"
  const MissingKeyMessage := "GEMINI_API_KEY environment variable must be set"
  const MissingFolderPrefix := "Folder does not exist: "
  const CreateStoreFailurePrefix := "Failed to create store: "

  /**
   * The script's `get_or_create_store`: the first store with the display
   * name when listing works and finds one; otherwise (no match, or listing
   * raised) a new store, whose failure raises `RuntimeError`.
   */
  function GetOrCreateStore(service: StoresService, displayName: string): (r: Result<string, PyException>)
    ensures r.Failure? <==>
              (service.listing.Failure? || FirstMatch(service.listing.value, displayName).None?)
              && service.creation.Failure?
    ensures r.Failure? ==> r.error == RuntimeError(CreateStoreFailurePrefix + service.creation.error)
    ensures (service.listing.Failure? || FirstMatch(service.listing.value, displayName).None?) && service.creation.Success? ==>
              r == Success(service.creation.value.name)
  {
    var found :=
      if service.listing.Success? then
        match FirstMatch(service.listing.value, displayName)
        case Some(i) => Some(service.listing.value[i].name)
        case None => None
      else None;
    if found.Some? then Success(found.value)
    else match service.creation
      case Success(store) => Success(store.name)
      case Failure(e) => Failure(RuntimeError(CreateStoreFailurePrefix + e))
  }

  /** An existing store of that display name is reused, the first one listed, and nothing is created. */
  lemma ExistingStoreReused(service: StoresService, displayName: string, k: nat)
    requires service.listing.Success?
    requires k < |service.listing.value| && service.listing.value[k].displayName == displayName
    ensures exists i :: 0 <= i <= k && GetOrCreateStore(service, displayName) == Success(service.listing.value[i].name)
                        && service.listing.value[i].displayName == displayName
                        && forall j :: 0 <= j < i ==> service.listing.value[j].displayName != displayName
  {
    var m := FirstMatch(service.listing.value, displayName);
    assert m.Some?;
    assert m.value <= k;
  }

  /** One entry of the folder walk: its path, whether it is a regular file, and its size in bytes. */
  datatype Entry = Entry(path: string, isFile: bool, size: nat)

  /** A regular file. */
  predicate IsFile(e: Entry) {
    e.isFile
  }

  /** A regular file whose lower-cased suffix is supported. */
  function IsSupported(e: Entry): (b: bool)
    ensures b ==> e.isFile
    ensures b ==> '.' in PathName(e.path)
    ensures b <==> e.isFile && PathSuffix(PathName(e.path)) != "" &&
                   "." + Lower(LastSegment(PathName(e.path), '.')) in SupportedExtensions
  {
    var name := PathName(e.path);
    var suffix := PathSuffix(name);
    if suffix == "" then
      false
    else
      SuffixDot(name);
      LowerSuffixIsDotTail(name);
      e.isFile && Lower(suffix) in SupportedExtensions
  }

  /** `supported_files`: the supported regular files, in walk order. */
  function SupportedFiles(entries: seq<Entry>): (r: seq<Entry>)
    ensures forall e :: e in r <==> e in entries && IsSupported(e)
  {
    Filter(entries, IsSupported)
  }

  /** The selection keeps walk order: the supported files of two walks are those of each, in turn. */
  lemma SupportedFilesKeepWalkOrder(a: seq<Entry>, b: seq<Entry>)
    ensures SupportedFiles(a + b) == SupportedFiles(a) + SupportedFiles(b)
  {
    FilterConcat(a, b, IsSupported);
  }

  /**
   * A regular file of the walk named `stem.ext`, with `.ext` supported in any
   * letter case, is among the supported files.
   */
  lemma SupportedFileSelected(entries: seq<Entry>, e: Entry, stem: string, ext: string)
    requires e in entries && e.isFile
    requires PathName(e.path) == stem + "." + ext
    requires stem != "" && ext != "" && '.' !in ext
    requires "." + Lower(ext) in SupportedExtensions
    ensures e in SupportedFiles(entries)
  {
    PathSuffixAfterStem(stem, ext);
    assert LastSegment(PathName(e.path), '.') == ("." + ext)[1..] == ext;
  }

  /** `f.is_file() and f not in supported_files`. */
  predicate IsSkipped(supported: seq<Entry>, e: Entry) {
    e.isFile && e !in supported
  }

  /** A file of the walk is skipped exactly when it is a regular file that is not supported. */
  lemma SkippedMeansUnsupported(entries: seq<Entry>, e: Entry)
    requires e in entries
    ensures IsSkipped(SupportedFiles(entries), e) <==> e.isFile && !IsSupported(e)
  {
  }

  /** `skipped`: the regular files the walk found that are not in `supported_files`. */
  function Skipped(entries: seq<Entry>): (n: nat)
    ensures n + |SupportedFiles(entries)| == |Filter(entries, IsFile)|
  {
    SkippedPlusSupportedIsFiles(entries);
    |Filter(entries, e => IsSkipped(SupportedFiles(entries), e))|
  }

  /** Every regular file found is either supported or skipped, never both. */
  lemma SkippedPlusSupportedIsFiles(entries: seq<Entry>)
    ensures |Filter(entries, e => IsSkipped(SupportedFiles(entries), e))| + |SupportedFiles(entries)|
            == |Filter(entries, IsFile)|
  {
    var supported := SupportedFiles(entries);
    var files := Filter(entries, IsFile);
    var skip := e => IsSkipped(supported, e);
    var inSupported := e => IsSupported(e);
    var notSupported := e => !IsSupported(e);
    FilterTwice(entries, IsFile, inSupported, IsSupported);
    FilterTwice(entries, IsFile, notSupported, skip);
    assert Filter(files, inSupported) == supported;
    assert Filter(files, notSupported) == Filter(entries, skip);
    FilterPartition(files, inSupported, notSupported);
  }

  /** `ingest_file`: false without uploading above 100 MB, otherwise whether the upload went through. */
  function IngestFile(entry: Entry, op: UploadOperation): (ok: bool)
    ensures ok <==> entry.size <= MaxFileBytes && OperationSucceeded(op)
  {
    if entry.size > MaxFileBytes then false
    else match op
      case Failure(_) => false
      case Success(error) => !TruthyText(error)
  }

  /** The number of files among `files` whose ingestion succeeds. */
  function Successes(files: seq<Entry>, upload: string -> UploadOperation): (n: nat)
    ensures n <= |files|
  {
    if files == [] then 0
    else Successes(files[..|files| - 1], upload)
         + (if IngestFile(files[|files| - 1], upload(files[|files| - 1].path)) then 1 else 0)
  }

  /** Files above the limit never count as successes. */
  lemma {:induction false} OversizedFilesFail(files: seq<Entry>, upload: string -> UploadOperation)
    requires forall i :: 0 <= i < |files| ==> files[i].size > MaxFileBytes
    ensures Successes(files, upload) == 0
  {
    if files != [] {
      OversizedFilesFail(files[..|files| - 1], upload);
    }
  }

  /** The summary the script prints at the end. */
  datatype Summary = Summary(storeName: string, ingested: nat, skipped: nat, errors: nat)

  /**
   * `main`: the key is checked first, the store is chosen next, then the
   * folder is checked; each supported file is ingested in walk order and
   * tallied as a success or an error.
   */
  method IngestFolder(apiKey: Option<string>, service: StoresService, displayName: string, folderPath: string,
              folderExists: bool, entries: seq<Entry>, upload: string -> UploadOperation)
    returns (r: Result<Summary, PyException>)
    ensures !TruthyText(apiKey) ==> r == Failure(ValueError(MissingKeyMessage))
    ensures TruthyText(apiKey) && GetOrCreateStore(service, displayName).Failure? ==>
              r == Failure(GetOrCreateStore(service, displayName).error)
    ensures TruthyText(apiKey) && GetOrCreateStore(service, displayName).Success? && !folderExists ==>
              r == Failure(ValueError(MissingFolderPrefix + folderPath))
    ensures r.Success? <==> TruthyText(apiKey) && GetOrCreateStore(service, displayName).Success? && folderExists
    ensures r.Success? ==>
              r.value.storeName == GetOrCreateStore(service, displayName).value
              && r.value.ingested == Successes(SupportedFiles(entries), upload)
              && r.value.ingested + r.value.errors == |SupportedFiles(entries)|
              && r.value.skipped == Skipped(entries)
              && r.value.skipped + |SupportedFiles(entries)| == |Filter(entries, IsFile)|
  {
    if !TruthyText(apiKey) {
      return Failure(ValueError(MissingKeyMessage));
    }
    var store := GetOrCreateStore(service, displayName);
    if store.Failure? {
      return Failure(store.error);
    }
    if !folderExists {
      return Failure(ValueError(MissingFolderPrefix + folderPath));
    }
    var supportedFiles := Filter(entries, IsSupported);
    var skipped := |Filter(entries, e => IsSkipped(supportedFiles, e))|;
    SkippedPlusSupportedIsFiles(entries);
    var count := 0;
    var errors := 0;
    var i := 0;
    while i < |supportedFiles|
      invariant 0 <= i <= |supportedFiles|
      invariant count == Successes(supportedFiles[..i], upload)
      invariant count + errors == i
    {
      var filePath := supportedFiles[i];
      assert supportedFiles[..i + 1][..i] == supportedFiles[..i];
      if IngestFile(filePath, upload(filePath.path)) {
        count := count + 1;
      } else {
        errors := errors + 1;
      }
      i := i + 1;
    }
    assert supportedFiles[..i] == supportedFiles;
    return Success(Summary(store.value, count, skipped, errors));
  }
}
