/**
 * The upload widget of the frontend (frontend/src/components/FileUpload.tsx):
 * the pure file check run before an upload, and the state cells
 * `isDragging`, `uploading`, `error`, `success` and `uploadProgress` that
 * `handleUpload` and the drop and select handlers update. The size limit
 * and the list of supported extensions are parameters.
 */
module FileUpload {
  import opened Wrappers
  import opened Text
  import opened Models
  import opened Errors

  const BytesPerMegabyte: nat := 1024 * 1024
  const UploadFailedMessage := "Upload failed"

  /** A browser `File`: its name and its size in bytes. */
  datatype File = File(name: string, size: nat)

  /**
   * Why `validateFile` refuses a file: too large (the size the message
   * reports), or of an unsupported type, with the message shown.
   */
  datatype FileProblem = TooLarge(size: nat) | UnsupportedType(message: string)

  /** What the `error` cell shows: a refusal of `validateFile`, or a message. */
  datatype UploadError = Refused(problem: FileProblem) | Message(text: string)

  /** `'.' + name.split('.').pop().toLowerCase()`. */
  function Extension(name: string): (ext: string)
    ensures |ext| >= 1 && ext[0] == '.'
    ensures '.' !in ext[1..]
    ensures ext[1..] == Lower(LastSegment(name, '.'))
  {
    "." + Lower(LastSegment(name, '.'))
  }

  /** A name without a dot has the whole (lower-cased) name as its extension. */
  lemma ExtensionOfDotlessName(name: string)
    requires '.' !in name
    ensures Extension(name) == "." + Lower(name)
  {
    LastSegmentWhole(name, '.');
  }

  /** The extension is what follows the last dot, lower-cased. */
  lemma ExtensionAfterLastDot(stem: string, suffix: string)
    requires '.' !in suffix
    ensures Extension(stem + "." + suffix) == "." + Lower(suffix)
  {
    assert stem + "." + suffix == stem + ['.'] + suffix;
    LastSegmentAfterSeparator(stem, '.', suffix);
  }

  /**
   * `validateFile`: the size check comes first (`size / MB > max`, which
   * for whole byte counts is `size > max * MB`), then the extension check.
   */
  function ValidateFile(file: File, maxSizeMb: nat, supported: seq<string>): (r: Option<FileProblem>)
    ensures r.None? <==> file.size <= maxSizeMb * BytesPerMegabyte && Extension(file.name) in supported
    ensures file.size > maxSizeMb * BytesPerMegabyte ==> r == Some(TooLarge(file.size))
    ensures file.size <= maxSizeMb * BytesPerMegabyte && Extension(file.name) !in supported ==>
              r == Some(UnsupportedType(UnsupportedTypeMessage(supported)))
  {
    if file.size > maxSizeMb * BytesPerMegabyte then Some(TooLarge(file.size))
    else if Extension(file.name) !in supported then Some(UnsupportedType(UnsupportedTypeMessage(supported)))
    else None
  }

  const UnsupportedTypePrefix := "Unsupported file type. Supported: "

  /**
   * The text of an unsupported-type refusal: the supported extensions,
   * joined by ', ' (the size refusal's number formatting is not modelled).
   */
  function UnsupportedTypeMessage(supported: seq<string>): (m: string)
    ensures StartsWith(m, UnsupportedTypePrefix)
    ensures supported == [] ==> m == UnsupportedTypePrefix
    ensures |supported| == 1 ==> m == UnsupportedTypePrefix + supported[0]
    ensures |supported| > 1 ==> StartsWith(m, UnsupportedTypePrefix + supported[0] + ", ")
  {
    "Unsupported file type. Supported: " + Join(supported, ", ")
  }

  /** The progress line shown while `name` uploads. */
  function ProgressMessage(name: string): (m: string)
    ensures |m| == |"Uploading "| + |name| + |"..."|
    ensures StartsWith(m, "Uploading ") && m[|"Uploading "|..|m| - |"..."|] == name
  {
    "Uploading " + name + "..."
  }

  /** The success line for an uploaded file. */
  function SuccessMessage(filename: string): (m: string)
    ensures |m| == 2 + |filename| + |" uploaded successfully"|
    ensures m[0] == '\U{2713}' && m[2..2 + |filename|] == filename
  {
    "\U{2713} " + filename + " uploaded successfully"
  }

  /** `result.message || 'Upload failed'`. */
  function FailureMessage(result: UploadResponse): (m: string)
    ensures m != ""
    ensures result.message != "" ==> m == result.message
    ensures result.message == "" ==> m == UploadFailedMessage
  {
    if result.message != "" then result.message else UploadFailedMessage
  }

  /** What the widget shows, and how often it has notified its parent. */
  datatype View = View(error: Option<UploadError>, success: Option<string>, uploadProgress: Option<string>,
                       notifications: nat)

  /**
   * What `handleUpload` leaves shown once `uploadFile` has settled with
   * `outcome`: a refused file only sets the error; an accepted one ends with
   * no progress line and with either the success line (the parent notified
   * once) or an error.
   */
  function AfterUpload(before: View, file: File, maxSizeMb: nat, supported: seq<string>,
                       outcome: Result<UploadResponse, Thrown>): (after: View)
    ensures ValidateFile(file, maxSizeMb, supported).Some? ==>
              after == before.(error := Some(Refused(ValidateFile(file, maxSizeMb, supported).value)))
    ensures ValidateFile(file, maxSizeMb, supported).None? ==>
              after.uploadProgress == None && (after.success.Some? <==> after.error.None?)
    ensures after.notifications == before.notifications
              + (if ValidateFile(file, maxSizeMb, supported).None? && outcome.Success? && outcome.value.success then 1 else 0)
    ensures ValidateFile(file, maxSizeMb, supported).None? && outcome.Success? && outcome.value.success ==>
              after.success == Some(SuccessMessage(outcome.value.filename))
    ensures ValidateFile(file, maxSizeMb, supported).None? && outcome.Success? && !outcome.value.success ==>
              after.error == Some(Message(FailureMessage(outcome.value)))
    ensures ValidateFile(file, maxSizeMb, supported).None? && outcome.Failure? ==>
              after.error == Some(Message(GetErrorMessage(outcome.error)))
  {
    match ValidateFile(file, maxSizeMb, supported)
    case Some(problem) => before.(error := Some(Refused(problem)))
    case None =>
      match outcome
      case Success(result) =>
        if result.success then View(None, Some(SuccessMessage(result.filename)), None, before.notifications + 1)
        else View(Some(Message(FailureMessage(result))), None, None, before.notifications)
      case Failure(err) => View(Some(Message(GetErrorMessage(err))), None, None, before.notifications)
  }

  class Uploader {
    var isDragging: bool
    var uploading: bool
    var error: Option<UploadError>
    var success: Option<string>
    var uploadProgress: Option<string>
    /** How many times `onUploadSuccess` has been called. */
    var successNotifications: nat

    /** A progress line is shown exactly while uploading, and nothing else is shown then. */
    ghost predicate Valid()
      reads this
    {
      (uploading <==> uploadProgress.Some?) && (uploading ==> error.None? && success.None?)
    }

    /** The cells `AfterUpload` speaks about. */
    function Shown(): View
      reads this
    {
      View(error, success, uploadProgress, successNotifications)
    }

    constructor ()
      ensures !isDragging && !uploading && error == None && success == None && uploadProgress == None
      ensures successNotifications == 0
      ensures Valid()
    {
      isDragging := false;
      uploading := false;
      error := None;
      success := None;
      uploadProgress := None;
      successNotifications := 0;
    }

    /**
     * The synchronous part of `handleUpload`: a refused file sets only the
     * error; an accepted one starts the upload with everything else cleared.
     */
    method BeginUpload(file: File, maxSizeMb: nat, supported: seq<string>) returns (started: bool)
      requires Valid() && !uploading
      modifies this
      ensures Valid()
      ensures started <==> ValidateFile(file, maxSizeMb, supported).None?
      ensures !started ==> error == Some(Refused(ValidateFile(file, maxSizeMb, supported).value))
                           && success == old(success) && uploadProgress == old(uploadProgress) && !uploading
      ensures started ==> uploading && error == None && success == None && uploadProgress == Some(ProgressMessage(file.name))
      ensures successNotifications == old(successNotifications) && isDragging == old(isDragging)
    {
      var validationError := ValidateFile(file, maxSizeMb, supported);
      if validationError.Some? {
        error := Some(Refused(validationError.value));
        return false;
      }
      uploading := true;
      error := None;
      success := None;
      uploadProgress := Some(ProgressMessage(file.name));
      started := true;
    }

    /**
     * The continuation of `handleUpload` once `uploadFile` settles: a
     * successful result shows the success line and notifies the parent; an
     * unsuccessful one or a thrown error sets the error; the upload ends and
     * the progress line goes in every case.
     */
    method ResolveUpload(outcome: Result<UploadResponse, Thrown>)
      requires Valid() && uploading
      modifies this
      ensures Valid() && !uploading && uploadProgress == None
      ensures outcome.Success? && outcome.value.success ==>
        success == Some(SuccessMessage(outcome.value.filename)) && error == None
        && successNotifications == old(successNotifications) + 1
      ensures outcome.Success? && !outcome.value.success ==>
        error == Some(Message(FailureMessage(outcome.value))) && success == None
        && successNotifications == old(successNotifications)
      ensures outcome.Failure? ==>
        error == Some(Message(GetErrorMessage(outcome.error))) && success == None
        && successNotifications == old(successNotifications)
      ensures isDragging == old(isDragging)
    {
      match outcome {
        case Success(result) =>
          if result.success {
            success := Some(SuccessMessage(result.filename));
            uploadProgress := None;
            successNotifications := successNotifications + 1;
          } else {
            error := Some(Message(FailureMessage(result)));
          }
        case Failure(err) =>
          error := Some(Message(GetErrorMessage(err)));
      }
      uploading := false;
      uploadProgress := None;
    }

    /** `handleUpload(file)` run to completion, with the outcome of `uploadFile` given. */
    method HandleUpload(file: File, maxSizeMb: nat, supported: seq<string>, outcome: Result<UploadResponse, Thrown>)
      returns (started: bool)
      requires Valid() && !uploading
      modifies this
      ensures Valid() && !uploading
      ensures started <==> ValidateFile(file, maxSizeMb, supported).None?
      ensures !started ==> error == Some(Refused(ValidateFile(file, maxSizeMb, supported).value))
                           && success == old(success) && uploadProgress == old(uploadProgress)
                           && successNotifications == old(successNotifications)
      ensures Shown() == AfterUpload(old(Shown()), file, maxSizeMb, supported, outcome)
      ensures isDragging == old(isDragging)
    {
      started := BeginUpload(file, maxSizeMb, supported);
      if started {
        ResolveUpload(outcome);
      }
    }

    /** `handleDragOver`. */
    method HandleDragOver()
      modifies this
      ensures isDragging
      ensures uploading == old(uploading) && error == old(error) && success == old(success)
      ensures uploadProgress == old(uploadProgress) && successNotifications == old(successNotifications)
    {
      isDragging := true;
    }

    /** `handleDragLeave`. */
    method HandleDragLeave()
      modifies this
      ensures !isDragging
      ensures uploading == old(uploading) && error == old(error) && success == old(success)
      ensures uploadProgress == old(uploadProgress) && successNotifications == old(successNotifications)
    {
      isDragging := false;
    }

    /**
     * `handleDrop`: dragging ends and only the first dropped file is
     * uploaded; `handled` is the file passed to `handleUpload`, if any.
     */
    method HandleDrop(files: seq<File>, maxSizeMb: nat, supported: seq<string>, outcome: Result<UploadResponse, Thrown>)
      returns (handled: Option<File>)
      requires Valid() && !uploading
      modifies this
      ensures Valid() && !uploading && !isDragging
      ensures handled == (if files == [] then None else Some(files[0]))
      ensures files == [] ==> Shown() == old(Shown())
      ensures files != [] ==> Shown() == AfterUpload(old(Shown()), files[0], maxSizeMb, supported, outcome)
    {
      isDragging := false;
      handled := None;
      if files != [] {
        var file := files[0];
        var _ := HandleUpload(file, maxSizeMb, supported, outcome);
        handled := Some(file);
      }
    }

    /**
     * `handleFileSelect`: only the first selected file is uploaded, and
     * nothing happens when the input holds no file list or an empty one.
     */
    method HandleFileSelect(files: Option<seq<File>>, maxSizeMb: nat, supported: seq<string>,
                            outcome: Result<UploadResponse, Thrown>)
      returns (handled: Option<File>)
      requires Valid() && !uploading
      modifies this
      ensures Valid() && !uploading && isDragging == old(isDragging)
      ensures handled == (if files.None? || files.value == [] then None else Some(files.value[0]))
      ensures handled.None? ==> Shown() == old(Shown())
      ensures handled.Some? ==> Shown() == AfterUpload(old(Shown()), handled.value, maxSizeMb, supported, outcome)
    {
      handled := None;
      if files.Some? && files.value != [] {
        var file := files.value[0];
        var _ := HandleUpload(file, maxSizeMb, supported, outcome);
        handled := Some(file);
      }
    }
  }

  /** The size check runs first: an oversized file is refused for its size whatever its name. */
  lemma SizeCheckedBeforeType(file: File, maxSizeMb: nat, supported: seq<string>)
    requires file.size > maxSizeMb * BytesPerMegabyte
    ensures ValidateFile(file, maxSizeMb, supported) == Some(TooLarge(file.size))
  {
  }

  /** Upper-case extensions are accepted: 'Report.PDF' passes where '.pdf' is supported. */
  lemma UpperCaseExtensionAccepted(stem: string, size: nat, maxSizeMb: nat)
    requires size <= maxSizeMb * BytesPerMegabyte
    ensures ValidateFile(File(stem + ".PDF", size), maxSizeMb, [".pdf", ".docx", ".txt", ".md"]).None?
  {
    assert stem + ".PDF" == stem + "." + "PDF";
    ExtensionAfterLastDot(stem, "PDF");
    var lowered := Lower("PDF");
    assert lowered[0] == LowerChar('P') == 'p';
    assert lowered[1] == LowerChar('D') == 'd';
    assert lowered[2] == LowerChar('F') == 'f';
    assert "." + lowered == ".pdf";
  }

  /** Whatever precedes the last dot, another extension included, a name ending in '.exe' has the extension '.exe'. */
  lemma ExeExtension(stem: string)
    ensures Extension(stem + "." + "exe") == ".exe"
  {
    assert Lower("exe") == "exe" by {
      var lowered := Lower("exe");
      assert lowered[0] == LowerChar('e') == 'e';
      assert lowered[1] == LowerChar('x') == 'x';
      assert lowered[2] == LowerChar('e') == 'e';
    }
    ExtensionAfterLastDot(stem, "exe");
  }

  /** With '.pdf' alone supported, the refusal names just it. */
  lemma PdfOnlyMessage()
    ensures UnsupportedTypeMessage([".pdf"]) == "Unsupported file type. Supported: .pdf"
  {
    assert UnsupportedTypeMessage([".pdf"]) == UnsupportedTypePrefix + ".pdf";
  }

  /** Only the last dot counts: 'archive.pdf.exe' is refused with the supported list. */
  lemma OnlyLastDotCounts(size: nat, maxSizeMb: nat)
    requires size <= maxSizeMb * BytesPerMegabyte
    ensures ValidateFile(File("archive.pdf" + "." + "exe", size), maxSizeMb, [".pdf"])
            == Some(UnsupportedType("Unsupported file type. Supported: .pdf"))
  {
    ExeExtension("archive.pdf");
    PdfOnlyMessage();
    assert ".exe"[1] != ".pdf"[1];
  }
}
