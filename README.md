# CaseStudy AI — a verified model of the request path

CaseStudy AI is a chat-style web client over a thin FastAPI backend. The
backend answers questions about case-study documents with Gemini File Search.
This project models in Dafny the code that decides what happens to a request,
on both sides of the wire, and proves properties of that model.

On the frontend it covers:

- question validation and the question form;
- the answer formatter and the citation formatter;
- error classification;
- the HTTP client layer;
- the state cells of the query hook, the health hook and the upload widget.

On the backend it covers:

- citation extraction;
- the guard chains of the query and health endpoints;
- the Gemini client wrapper: its construction checks, its store-name cache, the prompt it sends, the upload pre-checks and the store file count;
- the command-line ingestion script.

Layout, one module per source file:

| module | file | models |
|---|---|---|
| `Validation` | validation.dfy | frontend/src/utils/validation.ts |
| `Formatters` | formatters.dfy | frontend/src/utils/formatters.ts |
| `Errors` | errors.dfy | frontend/src/utils/errors.ts |
| `ApiService` | api_service.dfy | frontend/src/services/api.service.ts |
| `UseQuery` | use_query.dfy | frontend/src/hooks/useQuery.ts |
| `UseHealthCheck` | use_health_check.dfy | frontend/src/hooks/useHealthCheck.ts |
| `QueryForm` | query_form.dfy | frontend/src/components/QueryForm.tsx |
| `FileUpload` | file_upload.dfy | frontend/src/components/FileUpload.tsx |
| `Citations` | citations.dfy | backend/app/citations.py |
| `BackendMain` | backend_main.dfy | backend/app/main.py |
| `GeminiClient` | gemini_client.dfy | backend/app/gemini_client.py |
| `Ingestion` | ingestion.dfy | backend/app/ingestion.py |

Shared modules:

- `Wrappers`: `Option` and `Result`.
- `Text`: string primitives of JavaScript and Python. These include trimming with each language's whitespace set, JavaScript's UTF-16 length, `includes`, ASCII lower-casing, the last segment of a split, `Path.name` and `Path.suffix`, and decimal rendering.
- `Sequences`: the order-preserving filter of a list comprehension.
- `Models` and `Sdk`: the records exchanged between the two sides, and the shapes of the SDK objects the backend reads.
- `Consistency`: lemmas relating the frontend's rules to the backend's.

How each kind of source code is modelled:

- **Pure code** becomes functions and lemmas. This covers the validators, the formatters, the error classifiers, the citation fallbacks and the endpoint guard chains.
- **Loops** become methods proved against a specification function. `extract_citations` is proved against `CitationsOf`, and the ingestion tally against `Successes`.
- **State changed in place** becomes a class with `modifies` clauses:
  - the React state cells of the hooks and components;
  - `GeminiClient._store_name_cache`.

  The asynchronous handlers are split into a dispatch step and a resolve step. The resolve step receives the request's outcome.
- **Network, SDK and file-system results** are inputs:
  - a fetch outcome;
  - the outcome of listing and creating stores;
  - a `generate` oracle from store name and prompt to reply;
  - an `upload` oracle from store name and path to operation outcome;
  - the folder walk, given as a list of entries.

The frontend and the backend do not always agree with each other, and the model keeps each side's own rule:

- **Question length.** Three places bound a question at 1000 characters, and each measures something different. `validateQuestion` measures the *untrimmed* length in UTF-16 code units (frontend/src/utils/validation.ts:13-15). The server measures the untrimmed length in code points (backend/app/main.py:128). Only `QueryForm` measures the trimmed text (frontend/src/components/QueryForm.tsx:26).
- **Whitespace.** The two sides do not agree on what whitespace is:
  - JavaScript's `trim` strips U+FEFF;
  - Python's `strip` keeps U+FEFF, but strips U+001C–U+001F and U+0085.

  Both sets are written out, so the disagreements are proved (`Consistency`).

## Model

| member | source | states |
|---|---|---|
| Text.Trim | frontend/src/utils/validation.ts:7 | the trimmed text is empty exactly when every character is whitespace, and a non-empty result begins and ends with a non-whitespace character |
| Text.JsTrim | frontend/src/utils/validation.ts:7 | JavaScript's `trim` never lengthens; it is empty exactly when every character is JavaScript whitespace, and a non-empty result has non-whitespace ends |
| Text.PyStrip | backend/app/main.py:124 | Python's `strip` never lengthens; it is empty exactly when every character is Python whitespace, and a non-empty result has non-whitespace ends |
| Text.TrimIdempotent | frontend/src/components/QueryForm.tsx:20 | trimming an already trimmed text changes nothing |
| Text.TrimPadded | frontend/src/components/QueryForm.tsx:20 | trimming removes exactly the whitespace around a text whose ends are not whitespace |
| Text.JsLength | frontend/src/utils/validation.ts:14 | a JavaScript `length` lies between the number of characters and twice that, equals it for text inside the Basic Multilingual Plane, and counts one character as 2 exactly when it is astral |
| Text.JsLengthCountsAstral | frontend/src/utils/validation.ts:14 | the UTF-16 length is the number of characters plus the number of astral characters, proved by induction |
| Text.JsLengthConcat | frontend/src/utils/validation.ts:14 | the UTF-16 length of a concatenation is the sum of the parts' lengths, so with the one-character case it fixes `length` for mixed text |
| Text.Lower | frontend/src/components/FileUpload.tsx:29 | lower-casing keeps the length and maps each character through ASCII case folding |
| Text.LastSegment | backend/app/citations.py:34 | the last piece of a split is the separator-free tail of the text, preceded by a separator unless it is the whole text |
| Text.LastSegmentWhole | backend/app/citations.py:34 | a text without the separator is its own last segment |
| Text.LastSegmentAfterSeparator | backend/app/citations.py:34 | the last piece of `a + sep + b`, for `b` without a separator, is `b` |
| Text.PathName | backend/app/gemini_client.py:230 | `Path.name` is the '/'-free tail of the path that follows its last '/', and the whole path when the path has no '/' |
| Text.PathNameAfterDirectory | backend/app/gemini_client.py:230 | the name of `dir/name` is `name`, for every directory |
| Text.PathSuffix | backend/app/gemini_client.py:193 | `Path.suffix` is empty or a dot followed by at least one dot-free character, taken from the end of the name and equal to the text after its last dot |
| Text.LowerSuffixIsDotTail | backend/app/ingestion.py:147 | a lower-cased suffix is a dot followed by the lower-cased text after the name's last dot |
| Text.PathSuffixAfterStem | backend/app/gemini_client.py:193 | `stem.ext`, with a non-empty stem and a dot-free extension, has the suffix `.ext` |
| Text.LeadingDotIsNoSuffix | backend/app/gemini_client.py:193 | a hidden file such as `.md` has no suffix |
| Text.TrailingDotIsNoSuffix | backend/app/gemini_client.py:193 | a name ending in a dot has no suffix |
| Text.ContainsInfix | frontend/src/utils/errors.ts:37 | `includes(sub)` holds for every text that has `sub` inside it |
| Text.Contains | frontend/src/utils/errors.ts:37 | `includes(sub)` holds exactly when `sub` occurs at some offset of the text (`OccursAt`); so only when it fits, and whenever the text starts with it |
| Text.NotContainsShort | frontend/src/utils/errors.ts:45 | a text shorter than `sub` does not include it |
| Text.NatToDecimal | frontend/src/services/api.service.ts:61 | the rendering of a natural number is a non-empty run of digits with no leading zero except for 0 itself |
| Text.IntToDecimal | frontend/src/services/api.service.ts:61 | the decimal rendering of an integer is non-empty and starts with '-' exactly for negative numbers |
| Text.DecimalRoundTrip | frontend/src/services/api.service.ts:61 | reading back the rendered digits of a natural number gives that number |
| Text.Join | frontend/src/utils/formatters.ts:26 | no parts join to the empty text, one part to itself, and any join starts with its first part |
| Text.JoinAppend | frontend/src/utils/formatters.ts:26 | appending a part to a non-empty list appends the separator and then the part to the join |
| Sequences.Filter | backend/app/gemini_client.py:255-260 | a comprehension keeps exactly the elements that pass the test, and is never longer than its source |
| Sequences.FilterConcat | backend/app/ingestion.py:144-148 | filtering distributes over concatenation, so the source order is kept |
| Sequences.FilterTwice | backend/app/ingestion.py:143-149 | filtering twice is filtering once by the conjunction |
| Sequences.FilterPartition | backend/app/ingestion.py:143-149 | a test and its negation split a sequence into selections whose lengths add up to its length |
| Sdk.FirstMatch | backend/app/gemini_client.py:57-59 | `next(...)` finds the first store with the display name, or reports that none has it |
| Validation.IsValidQuestion | frontend/src/utils/validation.ts:6-8 | a question is valid exactly when it holds a non-whitespace character |
| Validation.IsQuestionLengthValid | frontend/src/utils/validation.ts:13-15 | valid exactly when the untrimmed character count plus the number of astral characters (the UTF-16 length) is at most the limit (default 1000); for BMP text this is the character count |
| Validation.ValidateQuestion | frontend/src/utils/validation.ts:20-36 | valid exactly when not blank and at most 1000 code units long; the empty error for blank text, the length error otherwise |
| Validation.BlankLongQuestionIsEmpty | frontend/src/utils/validation.ts:24-26 | blankness is checked first: 1001 spaces are reported as empty, not too long |
| Validation.PaddedQuestionIsTooLong | frontend/src/utils/validation.ts:28-33 | the limit applies to the untrimmed text: 'a' and 1000 spaces is too long though it trims to one character |
| Formatters.FindClose | frontend/src/utils/formatters.ts:8 | the lazy match ends at the nearest closing `**` reached without crossing a line terminator |
| Formatters.BreakLines | frontend/src/utils/formatters.ts:8 | no newline is left after the `<br />` replacement |
| Formatters.FormatMarkdownToHtml | frontend/src/utils/formatters.ts:8 | the formatted text holds no newline |
| Formatters.BreakLinesAppend | frontend/src/utils/formatters.ts:8 | the newline replacement distributes over concatenation |
| Formatters.BreakLinesPlain | frontend/src/utils/formatters.ts:8 | text without newlines is left alone by the newline replacement |
| Formatters.FindCloseReaches | frontend/src/utils/formatters.ts:8 | a closing marker with no marker or line terminator before it is the one found |
| Formatters.FindCloseNoStar | frontend/src/utils/formatters.ts:8 | no closing marker is found in star-free text |
| Formatters.FindCloseStopsAtLine | frontend/src/utils/formatters.ts:8 | the search never looks past a line terminator |
| Formatters.Bold | frontend/src/utils/formatters.ts:8 | the bold pass turns only the empty text into the empty text |
| Formatters.BoldPlainPrefix | frontend/src/utils/formatters.ts:8 | star-free text in front is copied unchanged ahead of the rest's formatting |
| Formatters.BoldPlain | frontend/src/utils/formatters.ts:8 | star-free text is unchanged by the bold pass |
| Formatters.BoldSpan | frontend/src/utils/formatters.ts:8 | `**x**` with star-free single-line `x` becomes one `<strong>` element |
| Formatters.BoldUnmatched | frontend/src/utils/formatters.ts:8 | an opening `**` without a closing one is kept literally |
| Formatters.BoldSplitsAtLine | frontend/src/utils/formatters.ts:8 | bold spans never cross a line terminator: both sides are formatted independently |
| Formatters.FormatSplitsAtNewline | frontend/src/utils/formatters.ts:8 | a newline becomes exactly `<br />` with both sides formatted independently |
| Formatters.FormatPlain | frontend/src/utils/formatters.ts:8 | text with neither `*` nor newline is returned unchanged |
| Formatters.FormatTwoSpans | frontend/src/utils/formatters.ts:8 | two marked spans on one line become two `<strong>` elements, each opener pairing with the nearest closer |
| Formatters.FormatTwoSpansExample | frontend/src/utils/formatters.ts:8 | `**a** and **b**` becomes `<strong>a</strong> and <strong>b</strong>` |
| Formatters.FormatBoldThenLine | frontend/src/utils/formatters.ts:8 | a bold line followed by a plain line renders the span then `<br />` |
| Formatters.FormatMarkersOnTwoLines | frontend/src/utils/formatters.ts:8 | markers on different lines are not paired and stay literal |
| Formatters.CitationParts | frontend/src/utils/formatters.ts:19-25 | the parts are the file first, then one part for a truthy chunk id and one for a truthy page |
| Formatters.HasChunk | frontend/src/utils/formatters.ts:20 | the chunk part is added exactly when the chunk id is truthy (present and non-empty) |
| Formatters.HasPage | frontend/src/utils/formatters.ts:23 | the page part is added exactly when the page is present and does not print as '0' |
| Formatters.FormatCitation | frontend/src/utils/formatters.ts:26 | the rendering starts with the file name |
| Formatters.FormatCitationShape | frontend/src/utils/formatters.ts:19-26 | the rendering is the file, then ` (chunk ID)` when truthy, then ` - page N` when truthy |
| Formatters.FormatCitationWithPage | frontend/src/utils/formatters.ts:23-26 | a file with page 3 renders as `a.pdf - page 3` |
| Formatters.FormatCitationFileOnly | frontend/src/utils/formatters.ts:20-26 | an empty chunk id and page 0 are falsy and render as nothing |
| Errors.NewApiError | frontend/src/utils/errors.ts:3-12 | an `ApiError` keeps its message, status and cause, and is named 'ApiError' |
| Errors.GetErrorMessage | frontend/src/utils/errors.ts:17-28 | the message of an `Error`, the text of a string, the fixed fallback otherwise |
| Errors.IsNetworkError | frontend/src/utils/errors.ts:33-38 | only `Error` instances are network errors; an `ApiError` is one exactly when it has no status; any other `Error` is one exactly when it is a `TypeError` and 'fetch' occurs in its message |
| Errors.IsTimeoutError | frontend/src/utils/errors.ts:43-48 | a value is a timeout exactly when it is an `Error` instance and 'timeout' or 'Timeout' occurs in its message; so its message is at least that long |
| Errors.TimeoutMentionIsTimeout | frontend/src/utils/errors.ts:43-45 | every `Error` whose message is `a + 'timeout' + b` or `a + 'Timeout' + b` is a timeout |
| Errors.ApiErrorWithStatusIsNotNetworkError | frontend/src/utils/errors.ts:34-35 | an `ApiError` with a status is never a network error |
| Errors.ApiErrorNetworkIgnoresMessage | frontend/src/utils/errors.ts:34-35 | an `ApiError` without status is a network error whatever its message |
| Errors.StringIsNeverTimeout | frontend/src/utils/errors.ts:43-47 | a thrown string is never a timeout, and its message is the string itself |
| Errors.FetchTypeErrorIsNetworkError | frontend/src/utils/errors.ts:37 | a `TypeError` mentioning 'fetch' is a network error |
| Errors.PlainErrorIsNotNetworkError | frontend/src/utils/errors.ts:37 | a plain `Error` is never a network error, even mentioning 'fetch' |
| Errors.ShortMessageIsNotTimeout | frontend/src/utils/errors.ts:44-45 | a message shorter than 'timeout' cannot be a timeout |
| ApiService.Detail | frontend/src/services/api.service.ts:63-66 | the detail exists exactly when the body parsed to an object with a `detail` key, and is that value |
| ApiService.ParseJsonResponse | frontend/src/services/api.service.ts:48-54 | a parsed body is returned as is; an unparsable one becomes 'Invalid JSON response' with the status |
| ApiService.JsString | frontend/src/services/api.service.ts:65 | `String` shows a string as itself and renders every value other than a string or an array as non-empty text |
| ApiService.HttpErrorMessage | frontend/src/services/api.service.ts:61-66 | the body's `detail` as `String` renders it when there is one, 'HTTP error! status: N' otherwise |
| ApiService.HandleResponse | frontend/src/services/api.service.ts:59-73 | a non-ok status throws an `ApiError` with that status, no cause, and `HttpErrorMessage` as its message; an ok response is parsed |
| ApiService.IsAbortError | frontend/src/services/api.service.ts:31 | an abort exactly when the value is a JavaScript error object, of any class, named 'AbortError'; an `ApiError` never is |
| ApiService.IsFetchTypeError | frontend/src/services/api.service.ts:34 | exactly a `TypeError` in whose message 'fetch' occurs; every such error is also a network error to `isNetworkError` |
| ApiService.IsOk | frontend/src/services/api.service.ts:60 | `response.ok` holds exactly for a status in the 2xx class |
| ApiService.ClassifyFetchFailure | frontend/src/services/api.service.ts:29-42 | an abort becomes the timeout error, checked first; a fetch `TypeError` the network error; anything else keeps its message; none has a status and each wraps the cause |
| ApiService.ClassifyUploadFailure | frontend/src/services/api.service.ts:127-137 | an aborted upload becomes the upload timeout error; anything else keeps its message; no status, cause wrapped |
| ApiService.Request | frontend/src/services/api.service.ts:78-103 | a request succeeds exactly on an ok response with a parsable body; a failed fetch is classified by `ClassifyFetchFailure`; a non-ok answer fails with `HttpErrorMessage` and its status, an unparsable ok one with 'Invalid JSON response' and its status |
| ApiService.Upload | frontend/src/services/api.service.ts:108-138 | the same for uploads, a failed fetch classified by `ClassifyUploadFailure`; a rejection of `handleResponse` is not re-wrapped, so the server's message and status are kept |
| ApiService.RequestHeaders | frontend/src/services/api.service.ts:22-25 | the headers are the caller's, plus a JSON content type unless the caller set one |
| ApiService.TimeoutIsTimeoutAndNetwork | frontend/src/services/api.service.ts:31-33 | a timed-out request is classified both as a timeout and as a network error |
| ApiService.UploadTimeoutIsTimeoutAndNetwork | frontend/src/services/api.service.ts:129-135 | a timed-out upload is classified both as a timeout and as a network error |
| ApiService.AbortOfAnyClassIsTimeout | frontend/src/services/api.service.ts:31-33 | an error object named 'AbortError' of any class becomes the request timeout, or the upload timeout (api.service.ts:129-131), and both count as timeouts |
| ApiService.AbortWinsOverTypeError | frontend/src/services/api.service.ts:31-40 | the abort test precedes the fetch `TypeError` test |
| ApiService.ServerErrorIsNotNetworkError | frontend/src/services/api.service.ts:52-72 | neither the error of a non-ok response nor that of an unparsable ok body is ever a network error, since both carry the status |
| ApiService.DetailRendering | frontend/src/services/api.service.ts:65 | `String(detail)` shows a string as is, an object list as `[object Object]`, and `null` in an array as nothing |
| UseQuery.RejectionMessage | frontend/src/hooks/useQuery.ts:22 | the validation's error when present, 'Invalid question' otherwise |
| UseQuery.RejectionMessageIsValidationMessage | frontend/src/hooks/useQuery.ts:20-22 | an invalid question always carries one of the two validation messages |
| UseQuery.QueryHook.constructor | frontend/src/hooks/useQuery.ts:14-16 | no data, not loading, no error |
| UseQuery.QueryHook.Dispatch | frontend/src/hooks/useQuery.ts:18-30 | an invalid question sets the message, clears data and sends nothing; a valid one clears both and starts loading |
| UseQuery.QueryHook.Resolve | frontend/src/hooks/useQuery.ts:32-40 | a result becomes data; an error becomes the message with data cleared; loading ends; data and error never coexist |
| UseQuery.QueryHook.Execute | frontend/src/hooks/useQuery.ts:18-41 | `execute` run to completion, with the invariant kept |
| UseQuery.QueryHook.Reset | frontend/src/hooks/useQuery.ts:43-47 | back to the initial state |
| UseHealthCheck.IsHealthyReport | frontend/src/hooks/useHealthCheck.ts:45 | healthy exactly when a report is held whose status is exactly 'healthy' |
| UseHealthCheck.HealthHook.constructor | frontend/src/hooks/useHealthCheck.ts:20-22 | no report, not loading, no error |
| UseHealthCheck.HealthHook.IsHealthy | frontend/src/hooks/useHealthCheck.ts:45 | the flag follows the report's status, and a healthy hook shows no error |
| UseHealthCheck.HealthHook.StartRefetch | frontend/src/hooks/useHealthCheck.ts:25-26 | loading starts, the error is cleared, the previous report stays |
| UseHealthCheck.HealthHook.ResolveRefetch | frontend/src/hooks/useHealthCheck.ts:28-36 | the report on success; the message with the report cleared on failure; loading ends |
| UseHealthCheck.HealthHook.Refetch | frontend/src/hooks/useHealthCheck.ts:24-37 | afterwards the hook is healthy exactly when the request returned a 'healthy' report |
| UseHealthCheck.HealthHook.OnMount | frontend/src/hooks/useHealthCheck.ts:39-43 | one check with `autoCheck`, none and no change without it |
| UseHealthCheck.StatusMustMatchExactly | frontend/src/hooks/useHealthCheck.ts:45 | 'Healthy' and 'degraded' are not healthy, 'healthy' is |
| QueryForm.DecideSubmit | frontend/src/components/QueryForm.tsx:16-32 | the trimmed text is rejected when empty, then when longer than 1000 code units, and is submitted otherwise |
| QueryForm.SubmitDisabled | frontend/src/components/QueryForm.tsx:55 | the button is disabled exactly when the text is all whitespace |
| QueryForm.SubmittedQuestionIsValid | frontend/src/components/QueryForm.tsx:20-31 | what the form submits passes `validateQuestion`, and it submits exactly when the trimmed text would pass |
| QueryForm.DisabledMeansRejected | frontend/src/components/QueryForm.tsx:21-24 | a text the button refuses is also refused by the handler |
| QueryForm.PaddingIsNotCounted | frontend/src/components/QueryForm.tsx:20-31 | surrounding whitespace does not count against the limit |
| QueryForm.Form.constructor | frontend/src/components/QueryForm.tsx:13-14 | empty question, no error |
| QueryForm.Form.HandleSubmit | frontend/src/components/QueryForm.tsx:16-32 | the error is cleared, then set to the rejection, or the trimmed question is handed on; the input text is kept |
| QueryForm.Form.HandleChange | frontend/src/components/QueryForm.tsx:46-49 | the new text replaces the question and the error is cleared |
| QueryForm.Form.HandleExampleClick | frontend/src/components/QueryForm.tsx:34-37 | the example replaces the question and the error is cleared |
| FileUpload.Extension | frontend/src/components/FileUpload.tsx:29 | the extension is a dot followed by the dot-free, lower-cased text after the last dot |
| FileUpload.ExtensionOfDotlessName | frontend/src/components/FileUpload.tsx:29 | a dotless name's extension is the whole name, lower-cased |
| FileUpload.ExtensionAfterLastDot | frontend/src/components/FileUpload.tsx:29 | only what follows the last dot counts |
| FileUpload.ValidateFile | frontend/src/components/FileUpload.tsx:21-35 | accepted exactly when within the size limit and of a supported extension; size is checked first; an unsupported type is refused with `UnsupportedTypeMessage` of the supported list |
| FileUpload.UnsupportedTypeMessage | frontend/src/components/FileUpload.tsx:31 | 'Unsupported file type. Supported: ' and the supported list joined by ', ': nothing after it for an empty list, the one extension for one, the first extension and ', ' for more |
| FileUpload.FailureMessage | frontend/src/components/FileUpload.tsx:59 | the server's message when non-empty; exactly 'Upload failed' when it is empty; so never empty |
| FileUpload.ProgressMessage | frontend/src/components/FileUpload.tsx:48 | the line starts with 'Uploading ' and carries the file's name verbatim before the closing '...' |
| FileUpload.SuccessMessage | frontend/src/components/FileUpload.tsx:53 | the line starts with the check mark and carries the uploaded file's name verbatim after it |
| FileUpload.Uploader.constructor | frontend/src/components/FileUpload.tsx:15-19 | not dragging, not uploading, nothing shown |
| FileUpload.Uploader.BeginUpload | frontend/src/components/FileUpload.tsx:39-48 | a refused file sets only the error; an accepted one starts uploading with the progress line and everything else cleared |
| FileUpload.Uploader.ResolveUpload | frontend/src/components/FileUpload.tsx:50-66 | success shows the success line and notifies once; failure shows the message; uploading and progress end |
| FileUpload.AfterUpload | frontend/src/components/FileUpload.tsx:37-69 | a refused file only sets the error to the refusal; an accepted one ends with no progress line and exactly one of the success line and an error, the error being the result's message or the thrown error's; the parent is notified once exactly for an accepted file whose upload succeeded |
| FileUpload.Uploader.HandleUpload | frontend/src/components/FileUpload.tsx:37-69 | starts only an accepted file; the error, success and progress cells and the notification count become `AfterUpload` of their previous values; dragging is unchanged |
| FileUpload.Uploader.HandleDragOver | frontend/src/components/FileUpload.tsx:71-75 | dragging starts, nothing else changes |
| FileUpload.Uploader.HandleDragLeave | frontend/src/components/FileUpload.tsx:77-81 | dragging ends, nothing else changes |
| FileUpload.Uploader.HandleDrop | frontend/src/components/FileUpload.tsx:83-96 | dragging ends; with files dropped, the shown cells become `AfterUpload` of the first one; with none, they do not change |
| FileUpload.Uploader.HandleFileSelect | frontend/src/components/FileUpload.tsx:98-109 | with files selected, the shown cells become `AfterUpload` of the first one; with no list or an empty one, they do not change; dragging is unchanged |
| FileUpload.SizeCheckedBeforeType | frontend/src/components/FileUpload.tsx:23-26 | an oversized file is refused for its size whatever its name |
| FileUpload.UpperCaseExtensionAccepted | frontend/src/components/FileUpload.tsx:29-30 | 'Report.PDF' passes where '.pdf' is supported |
| FileUpload.ExeExtension | frontend/src/components/FileUpload.tsx:29 | any name ending in '.exe', such as 'archive.pdf.exe', has the extension '.exe' |
| FileUpload.PdfOnlyMessage | frontend/src/components/FileUpload.tsx:31 | with '.pdf' alone supported, the refusal reads 'Unsupported file type. Supported: .pdf' |
| FileUpload.OnlyLastDotCounts | frontend/src/components/FileUpload.tsx:29-31 | 'archive.pdf.exe' is refused where only '.pdf' is supported, with that message |
| Citations.FileObjectName | backend/app/citations.py:33-35 | a truthy display name, else the last '/'-segment of the name, else nothing |
| Citations.FileNameOf | backend/app/citations.py:29-36 | `source_file_name` when truthy, else the file object's name when truthy, else 'unknown'; never empty |
| Citations.ChunkIdOf | backend/app/citations.py:39-40 | `str(id)` when truthy, else `str(chunk_id)` when truthy; none exactly when both are falsy |
| Citations.TruthyKey | backend/app/citations.py:39-40 | a truthy key prints non-empty; a text key is truthy exactly when non-empty, a number exactly when it does not print as '0' |
| Citations.KeyString | backend/app/citations.py:40 | `str(key)`: a text key unchanged; a number's decimal digits, led by '-' exactly when negative, reading back to the number |
| Text.IntToDecimalZero | backend/app/citations.py:40 | an integer prints as '0' exactly when it is zero, so `str` keeps 0 apart from every truthy number |
| Citations.CitationOf | backend/app/citations.py:29-45 | a citation's file is never empty and its page is copied unchanged |
| Citations.CitationsOf | backend/app/citations.py:17-47 | one citation per chunk, in chunk order |
| Citations.ExtractCitations | backend/app/citations.py:7-47 | the loop builds exactly `CitationsOf` the metadata |
| Citations.NoChunksNoCitations | backend/app/citations.py:17-23 | missing metadata or missing or empty chunks give no citations |
| Citations.FileNamesNeverEmpty | backend/app/citations.py:36 | no citation has an empty file name |
| Citations.CitationsOfConcat | backend/app/citations.py:27-45 | extraction distributes over a split of the chunk list |
| Citations.FileResourceNameExample | backend/app/citations.py:33-34 | an empty display name falls back to the last segment of the resource name |
| Citations.ChunkIdFallbackExample | backend/app/citations.py:39-40 | an id of 0 is falsy and falls back to `chunk_id` |
| BackendMain.QueryErrorDetail | backend/app/main.py:151-163 | `ValueError`, `RuntimeError` and other exceptions get the configuration, query and unexpected prefixes |
| BackendMain.IsBlank | backend/app/main.py:124 | the blank test holds exactly for text made only of Python whitespace |
| BackendMain.QueryEndpoint | backend/app/main.py:106-163 | 503 without a client, checked first; 400 empty exactly for blank text; then 400 too long exactly above 1000 code points; otherwise 500 with the exception's detail or the answer with `CitationsOf` its metadata |
| BackendMain.StoreCreationFailureDetail | backend/app/main.py:156-158 | a failed store creation is reported as 'Query failed: Failed to create store: …' |
| BackendMain.NoCandidatesDetail | backend/app/main.py:156-158 | a reply without candidates is reported with both the endpoint's and the client's prefix |
| BackendMain.HealthEndpoint | backend/app/main.py:73-103 | 'degraded' with nulls without a client; 'healthy' with the store information; 'error: ' and the text with nulls on an exception |
| BackendMain.HealthyExactlyOnSuccess | backend/app/main.py:73-103 | the status is 'healthy' exactly when a client exists and the store information was read |
| BackendMain.StoreNamedOnlyWhenHealthy | backend/app/main.py:92-103 | a store name is reported exactly in healthy reports |
| BackendMain.QueryCaseStudies | backend/app/main.py:106-163 | a refused request leaves the client's cache alone; an admitted one answers `QueryEndpoint` of the client's query and caches the store name the lookup found, a failed lookup leaving the cache alone |
| BackendMain.HealthCheck | backend/app/main.py:73-103 | the report is `HealthEndpoint` of the client's store information; the cache ends as the found store name, or as before when the lookup failed |
| GeminiClient.InitError | backend/app/gemini_client.py:20-36 | construction succeeds exactly with a truthy key, a built client and the files service; every failure is a `ValueError`; with a truthy key, a failed connection raises the prefix plus the connection's error, and a client without `files` the prefix plus the files-API message |
| GeminiClient.StoreLookup | backend/app/gemini_client.py:39-97 | a set cache is returned as is; without the stores service or when listing raises, 'stores/' + name; a `RuntimeError` exactly when no store matches and creation fails |
| GeminiClient.LookupFindsFirstMatchingStore | backend/app/gemini_client.py:56-64 | with a listing, the first store of that display name is returned |
| GeminiClient.LookupCreatesWhenNoneMatches | backend/app/gemini_client.py:83-90 | with no match, the created store's name is returned |
| GeminiClient.LookupIsIdempotent | backend/app/gemini_client.py:50-51 | once a name is cached, later lookups return it whatever the display name or service |
| GeminiClient.FullPrompt | backend/app/gemini_client.py:133 | the prompt is the system prompt, then a blank line, then 'Q: ' and the question |
| GeminiClient.FullPromptInjective | backend/app/gemini_client.py:133 | under one system prompt, distinct questions give distinct prompts |
| GeminiClient.AnswerOf | backend/app/gemini_client.py:135-162 | the answer exactly when the call returned candidates; otherwise a `RuntimeError` with the query prefix, including the no-candidates case |
| GeminiClient.FileExtension | backend/app/gemini_client.py:193 | empty exactly when the file name has no Python suffix; otherwise a dot followed by the dot-free, lower-cased text after the last dot of the file name |
| GeminiClient.DottedFileExtension | backend/app/gemini_client.py:193 | a file named `stem.ext` has the extension `.ext`, lower-cased |
| GeminiClient.UploadPrecheck | backend/app/gemini_client.py:179-198 | checks in order existence, size over 100 MB, lower-cased suffix in the supported set; accepted exactly when all pass |
| GeminiClient.SupportedFilePassesPrecheck | backend/app/gemini_client.py:179-198 | an existing file of at most 100 MB named `stem.ext`, with `.ext` supported in any letter case, passes every check |
| GeminiClient.SuffixlessFileRefused | backend/app/gemini_client.py:192-198 | an existing file of at most 100 MB whose name has no suffix is refused as unsupported |
| GeminiClient.UploadMessage | backend/app/gemini_client.py:180-233 | the not-found, failure and success messages |
| GeminiClient.UploadResultOf | backend/app/gemini_client.py:206-233 | the upload succeeds exactly when nothing was raised and `op.error` is falsy, and then reports the file's name |
| GeminiClient.UploadSucceeded | backend/app/gemini_client.py:181-233 | the returned flag is true exactly when the returned message is the success message |
| Sdk.OperationSucceeded | backend/app/gemini_client.py:227 | a settled operation succeeded exactly when nothing was raised and its `error` is falsy (absent or empty) |
| GeminiClient.InStore | backend/app/gemini_client.py:259-260 | a file without a store list is in no store; a file with one is in the store exactly when the store is listed at some position |
| GeminiClient.StoreFiles | backend/app/gemini_client.py:255-260 | exactly the listed files whose stores include the store |
| GeminiClient.StoreInfoOf | backend/app/gemini_client.py:249-266 | the count of the store's files, or none exactly when the files service is missing or listing raises |
| GeminiClient.StoreCountAdds | backend/app/gemini_client.py:255-262 | counts add up over parts of the listing |
| GeminiClient.ForeignFilesNotCounted | backend/app/gemini_client.py:255-262 | files of other stores count zero |
| GeminiClient.Client.constructor | backend/app/gemini_client.py:20-36 | the services are recorded and the cache is empty |
| GeminiClient.Client.GetOrCreateStore | backend/app/gemini_client.py:39-97 | returns `StoreLookup` of the starting cache and caches every returned name |
| GeminiClient.Client.GetStoreName | backend/app/gemini_client.py:99-111 | the same answer and caching as the lookup |
| GeminiClient.Client.Query | backend/app/gemini_client.py:113-162 | a store error propagates unchanged; otherwise `AnswerOf` the reply to the full prompt sent to the store |
| GeminiClient.Client.UploadFile | backend/app/gemini_client.py:164-233 | a refused file leaves the cache alone; a store error becomes an upload failure; a client without `file_search_stores` caches the name and fails with the attribute error; otherwise `UploadResultOf` the operation, with the name cached |
| GeminiClient.Client.GetStoreInfo | backend/app/gemini_client.py:235-266 | a store error propagates; otherwise `StoreInfoOf` the file listing |
| GeminiClient.NewClient | backend/app/gemini_client.py:20-36 | raises the `InitError`, or yields a fresh client with an empty cache and the files service |
| Ingestion.GetOrCreateStore | backend/app/ingestion.py:24-55 | the first matching store, else a created one, whether no store matched or the listing failed; a `RuntimeError` exactly when creation is needed and fails |
| Ingestion.ExistingStoreReused | backend/app/ingestion.py:37-45 | an existing store of that name is reused, the first one listed |
| Ingestion.SupportedFiles | backend/app/ingestion.py:144-148 | exactly the regular files whose lower-cased suffix is supported |
| Ingestion.SupportedFilesKeepWalkOrder | backend/app/ingestion.py:144-148 | the selection keeps walk order |
| Ingestion.Skipped | backend/app/ingestion.py:149 | the skipped count plus the supported files' count is the number of regular files found |
| Ingestion.SkippedPlusSupportedIsFiles | backend/app/ingestion.py:143-149 | skipped plus supported equals the number of regular files found |
| Ingestion.IsSupported | backend/app/ingestion.py:147 | supported exactly when the entry is a regular file whose name has a Python suffix and a dot plus the lower-cased text after its last dot is in the supported set |
| Ingestion.SupportedFileSelected | backend/app/ingestion.py:144-148 | a regular file of the walk named `stem.ext`, with `.ext` supported in any letter case, is among the supported files |
| Ingestion.SkippedMeansUnsupported | backend/app/ingestion.py:149 | a file of the walk is skipped exactly when it is a regular file that is not supported |
| Ingestion.IngestFile | backend/app/ingestion.py:58-115 | a file counts as ingested exactly when it is within 100 MB and its upload went through |
| Ingestion.Successes | backend/app/ingestion.py:154-158 | the number of successful ingests is at most the number of files |
| Ingestion.OversizedFilesFail | backend/app/ingestion.py:71-77 | files above the limit never succeed |
| Ingestion.IngestFolder | backend/app/ingestion.py:118-171 | a missing key fails first, then store selection, then a missing folder; otherwise ingested equals the successes, ingested plus errors equals the supported files, and skipped complements them among the files |
| Consistency.SubmittedQuestionWithinServerLimit | backend/app/main.py:128-132 | the form never submits a question the server refuses as too long |
| Consistency.SubmittedVisibleQuestionPassesServerGuards | backend/app/main.py:124-132 | a submitted question holding a character Python does not strip passes every 400 guard |
| Consistency.SeparatorQuestionRejectedByServer | backend/app/main.py:124-126 | U+001C alone is submitted by the form and refused by the server as empty |
| Consistency.AstralLength | frontend/src/utils/validation.ts:14 | text outside the Basic Multilingual Plane is twice as long in UTF-16 |
| Consistency.AstralQuestionLengthsDisagree | frontend/src/utils/validation.ts:13-15 | more than 500 astral characters are too long for the browser yet within the server's limit |
| Consistency.FrontendHealthyIffServerHealthy | frontend/src/hooks/useHealthCheck.ts:45 | the frontend flag is set exactly when the server has a client and read the store information |
| Consistency.ExtensionRulesAgreeOnSuffixes | frontend/src/components/FileUpload.tsx:29 | where Python finds a suffix, the frontend finds the same one, lower-cased |
| Consistency.HiddenFileAcceptedByFrontend | frontend/src/components/FileUpload.tsx:21-35 | '.md' passes the frontend check wherever '.md' is supported and the size is allowed |
| Consistency.HiddenFileRefusedByBackend | backend/app/gemini_client.py:192-198 | `upload_file` refuses '.md', which has no Python suffix |
| Consistency.BackendExtensionRulesAgree | backend/app/ingestion.py:147 | a regular file is selected by the ingestion script exactly when `upload_file` (gemini_client.py:192-194) finds its extension supported |

## Left out

- Network, SDK and file-system calls are inputs, not modelled: `fetch`, `FormData`, every `genai` call, `stat`, `exists`, `rglob`. This includes the operation-polling loops with `time.sleep` (backend/app/gemini_client.py:222-225, backend/app/ingestion.py:102-104); the settled operation is the input.
- Timers: the `AbortController` deadlines (30 s and 300 s) and the 5-second clearing of the upload success line. An abort is modelled as an error named 'AbortError'.
- UseQuery.QueryHook.Dispatch: requires that no request is pending, and so does `Execute`. The form is disabled while loading. Two `execute` calls in flight that resolve out of order, where the earlier reply can overwrite the state set by the later one, are not modelled.
- UseHealthCheck.HealthHook.ResolveRefetch: resolves the latest refetch only. Overlapping refetches that settle out of order are not modelled.
- Logging, `print` output, `load_dotenv`, environment lookups (the store display name is a parameter), CORS set-up and the global exception handler.
- Floating-point sizes: `size / MB > limit` is modelled as the integer test `size > limit * MB`.
- `toFixed`/`:.1f` formatting is not modelled.
- GeminiClient.UploadMessage: the size refusal keeps only its fixed leading text, and the unsupported-type refusal stops before the list of extensions. That list is printed in Python set order, which varies between runs.
- FileUpload.ValidateFile: the size refusal keeps the size, not the text `toFixed(1)` formats from it.
- FileUpload.UnsupportedTypeMessage: for more than one supported type, states only that the list starts with the first type and ', '.
- Formatters.Bold: its own contract states only that it empties nothing but the empty text; what it does with markers is stated by BoldPlain, BoldPlainPrefix, BoldSpan, BoldUnmatched and BoldSplitsAtLine.
- GeminiClient.Client.UploadFile: the attribute error's text assumes the SDK client class is named `Client`.
- `MAX_FILE_SIZE_MB`, `SUPPORTED_FILE_TYPES` and the upload endpoint are imported by the frontend but missing from its constants file, so the size limit and the extension list are parameters. The frontend constants file is not part of this model.
- Text.PathName: `Path(p).name` is modelled as the last '/'-segment. Trailing or repeated separators and Windows paths are not modelled.
- Text.PathSuffix: uses the `PurePath.suffix` rule of CPython 3.12 (a last dot that is neither first nor last).
- Whitespace sets, lower-casing and JSON:
  - the whitespace sets are written out from the ECMAScript and Python definitions;
  - lower-casing covers ASCII letters only;
  - JSON numbers are integers;
  - characters are Unicode scalar values, so lone surrogates do not occur.
- Citations.FileObjectName:
  - a file object whose `name` attribute is `None` would make `split` raise; the model treats `name` as a present string or a missing attribute;
  - chunk and metadata objects are always truthy.
- BackendMain.QueryEndpoint: a `None` answer text, which Pydantic would refuse, is not modelled. Neither is an exception raised inside `extract_citations`.
- Ingestion.IngestFolder:
  - a failing `genai.Client` constructor is not modelled;
  - the summary printing is left out, and the counts are returned instead;
  - `skipped` uses `f not in supported_files` as written. Its equality with the count of unsupported files relies on the walk listing each path once.
- Presentational components, `useClipboard`, the prompt text and the configuration files are outside the core.
- HTML escaping: the formatter's output is used unescaped by the answer view, and the model adds no escaping step.
