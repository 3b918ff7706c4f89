/**
 * How the frontend's checks relate to the backend's: what the question form
 * submits against the query endpoint's guards, the client-side length rule
 * against the server's, the frontend health flag against the health
 * endpoint, and the frontend's extension rule against Python's path suffix.
 */
module Consistency {
  import opened Wrappers
  import opened Text
  import opened Sdk
  import Validation
  import QueryForm
  import FileUpload
  import UseHealthCheck
  import GeminiClient
  import Ingestion
  import BackendMain

  /** Whatever the form submits is within the server's length limit: code points never exceed UTF-16 units. */
  lemma SubmittedQuestionWithinServerLimit(question: string, outcome: Result<GeminiClient.Answer, PyException>)
    requires QueryForm.DecideSubmit(question).Submitted?
    ensures BackendMain.QueryEndpoint(true, QueryForm.DecideSubmit(question).question, outcome)
         != BackendMain.HttpOutcome.HttpError(400, Validation.TooLongQuestionError)
  {
  }

  /**
   * A submitted question that holds a character Python does not strip is
   * not refused by the server with a 400 at all.
   */
  lemma SubmittedVisibleQuestionPassesServerGuards(question: string, outcome: Result<GeminiClient.Answer, PyException>, k: nat)
    requires QueryForm.DecideSubmit(question).Submitted?
    requires k < |QueryForm.DecideSubmit(question).question|
    requires !IsPyWhitespace(QueryForm.DecideSubmit(question).question[k])
    ensures BackendMain.QueryEndpoint(true, QueryForm.DecideSubmit(question).question, outcome).Ok?
         || BackendMain.QueryEndpoint(true, QueryForm.DecideSubmit(question).question, outcome).status == 500
  {
    var t := QueryForm.DecideSubmit(question).question;
  }

  /**
   * The two whitespace sets differ: a question made of an information
   * separator (U+001C) is submitted by the form, which does not trim it, and
   * refused by the server as empty, which strips it.
   */
  lemma SeparatorQuestionRejectedByServer(outcome: Result<GeminiClient.Answer, PyException>)
    ensures QueryForm.DecideSubmit("\U{001C}") == QueryForm.SubmitOutcome.Submitted("\U{001C}")
    ensures BackendMain.QueryEndpoint(true, "\U{001C}", outcome)
         == BackendMain.HttpOutcome.HttpError(400, Validation.EmptyQuestionError)
  {
    var q := "\U{001C}";
    assert !IsJsWhitespace(q[0]);
    assert JsTrim(q) == q;
    assert IsPyWhitespace(q[0]);
    assert PyStrip(q) == [];
  }

  /** A string of characters outside the Basic Multilingual Plane is twice as long in UTF-16. */
  lemma {:induction false} AstralLength(s: string)
    requires forall i :: 0 <= i < |s| ==> IsAstral(s[i])
    ensures JsLength(s) == 2 * |s|
  {
    if s != [] {
      assert forall i :: 0 <= i < |s[1..]| ==> s[1..][i] == s[i + 1];
      AstralLength(s[1..]);
    }
  }

  /**
   * The client-side `validateQuestion` counts UTF-16 units and the server
   * counts code points: a question of more than 500 astral characters is
   * refused in the browser though the server would accept its length.
   */
  lemma AstralQuestionLengthsDisagree(q: string, outcome: Result<GeminiClient.Answer, PyException>)
    requires forall i :: 0 <= i < |q| ==> IsAstral(q[i])
    requires 500 < |q| <= 1000
    ensures Validation.ValidateQuestion(q) == Validation.ValidationResult(false, Some(Validation.TooLongQuestionError))
    ensures BackendMain.QueryEndpoint(true, q, outcome).Ok? || BackendMain.QueryEndpoint(true, q, outcome).status == 500
  {
    AstralLength(q);
    assert !IsJsWhitespace(q[0]);
    assert Validation.HasContent(q);
    assert !IsPyWhitespace(q[0]);
  }

  /** The frontend's health flag is set exactly when the server has a client and read the store information. */
  lemma FrontendHealthyIffServerHealthy(configured: bool, info: Result<GeminiClient.StoreInfo, PyException>)
    ensures UseHealthCheck.IsHealthyReport(Some(BackendMain.HealthEndpoint(configured, info)))
            <==> configured && info.Success?
  {
    BackendMain.HealthyExactlyOnSuccess(configured, info);
  }

  /** Where Python finds a suffix, the frontend's extension rule finds the same one, lower-cased. */
  lemma ExtensionRulesAgreeOnSuffixes(name: string)
    requires PathSuffix(name) != ""
    ensures FileUpload.Extension(name) == Lower(PathSuffix(name))
  {
    var s := PathSuffix(name);
    var e := FileUpload.Extension(name);
    assert |e| == |s|;
    assert e[0] == '.' == LowerChar(s[0]);
    assert forall i :: 1 <= i < |e| ==> e[i] == e[1..][i - 1];
  }

  /** The frontend's check accepts the hidden file '.md' wherever '.md' is supported and the size is allowed. */
  lemma HiddenFileAcceptedByFrontend(size: nat, maxSizeMb: nat, supported: seq<string>)
    requires size <= maxSizeMb * FileUpload.BytesPerMegabyte
    requires ".md" in supported
    ensures FileUpload.ValidateFile(FileUpload.File(".md", size), maxSizeMb, supported).None?
  {
    FileUpload.ExtensionAfterLastDot("", "md");
    assert "" + "." + "md" == ".md";
    var lowered := Lower("md");
    assert lowered[0] == LowerChar('m') == 'm';
    assert lowered[1] == LowerChar('d') == 'd';
    assert "." + lowered == ".md";
  }

  /** `upload_file` refuses the hidden file '.md', Python giving it no suffix. */
  lemma HiddenFileRefusedByBackend(size: nat)
    requires size <= GeminiClient.MaxUploadBytes
    ensures GeminiClient.UploadPrecheck(".md", true, size) == Some(GeminiClient.UploadRefusal.UnsupportedFileType(""))
  {
    LastSegmentWhole(".md", '/');
    assert PathName(".md") == ".md";
    LeadingDotIsNoSuffix("md");
    assert "." + "md" == ".md";
    GeminiClient.SuffixlessFileRefused(".md", size);
  }

  /**
   * The two backend rules agree: a regular file is selected by the ingestion
   * script exactly when `upload_file` finds its extension supported.
   */
  lemma BackendExtensionRulesAgree(path: string, size: nat)
    ensures Ingestion.IsSupported(Ingestion.Entry(path, true, size))
            <==> GeminiClient.FileExtension(path) in GeminiClient.SupportedExtensions
  {
    var name := PathName(path);
    var e := GeminiClient.FileExtension(path);
    if PathSuffix(name) != "" {
      GeminiClient.DotThen(e, Lower(LastSegment(name, '.')));
    }
  }
}
