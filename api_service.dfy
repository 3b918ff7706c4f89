/**
 * The HTTP client layer of the frontend (frontend/src/services/api.service.ts):
 * how a fetch outcome, a response status and a response body become either a
 * parsed body or a thrown `ApiError`. The network call itself is an input.
 */
module ApiService {
  import opened Wrappers
  import opened Text
  import opened Errors

  /** A parsed JSON value (numbers restricted to integers). */
  datatype Json =
    | JNull
    | JBool(b: bool)
    | JNumber(n: int)
    | JString(s: string)
    | JArray(items: seq<Json>)
    | JObject(fields: map<string, Json>)

  /** A fetch `Response`: its status and its body, `None` when the body is not valid JSON. */
  datatype Response = Response(status: int, body: Option<Json>)

  /** `response.ok`. */
  function IsOk(response: Response): (b: bool)
    ensures b <==> response.status / 100 == 2
  {
    200 <= response.status <= 299
  }

  // The timeout messages are written in two pieces so that the word the timeout
  // classifier looks for is visible to the verifier.
  const RequestTimeoutMessage := "Request timeout" + " - the server took too long to respond"
  const NetworkErrorMessage := "Network error - please check your connection and ensure the backend is running"
  const UploadTimeoutMessage := "Upload timeout" + " - file may be too large or connection is slow"
  const InvalidJsonMessage := "Invalid JSON response"

  /** JavaScript's `String(value)` for a parsed JSON value. */
  function JsString(v: Json): (r: string)
    ensures v.JString? ==> r == v.s
    ensures r == "" ==> v.JString? || v.JArray?
    decreases v, 1
  {
    match v
    case JNull => "null"
    case JBool(b) => if b then "true" else "false"
    case JNumber(n) => IntToDecimal(n)
    case JString(s) => s
    case JObject(_) => "[object Object]"
    case JArray(_) => ArrayString(v, 0)
  }

  /** `String(array)` from index `i` on: elements joined by ',', with `null` shown as nothing. */
  function ArrayString(v: Json, i: nat): string
    requires v.JArray? && i <= |v.items|
    decreases v, 0, |v.items| - i
  {
    if i == |v.items| then ""
    else
      (if i > 0 then "," else "")
      + (if v.items[i].JNull? then "" else JsString(v.items[i]))
      + ArrayString(v, i + 1)
  }

  /** The body's `detail`, when the body parsed to a non-null object that has one. */
  function Detail(body: Option<Json>): (d: Option<Json>)
    ensures d.Some? <==> body.Some? && body.value.JObject? && "detail" in body.value.fields
    ensures d.Some? ==> d.value == body.value.fields["detail"]
  {
    if body.Some? && body.value.JObject? && "detail" in body.value.fields
    then Some(body.value.fields["detail"])
    else None
  }

  /** `parseJsonResponse`: the parsed body, or `ApiError('Invalid JSON response', status)`. */
  function ParseJsonResponse(response: Response): (r: Result<Json, Thrown>)
    ensures r.Success? <==> response.body.Some?
    ensures r.Success? ==> r.value == response.body.value
    ensures r.Failure? ==> r.error == ApiError(InvalidJsonMessage, Some(response.status), None)
  {
    match response.body
    case Some(v) => Success(v)
    case None => Failure(NewApiError(InvalidJsonMessage, Some(response.status), None))
  }

  /** The message of the error `handleResponse` throws for a non-ok response. */
  function HttpErrorMessage(response: Response): (m: string)
    ensures Detail(response.body).Some? ==> m == JsString(Detail(response.body).value)
    ensures Detail(response.body).None? ==> m == "HTTP error! status: " + IntToDecimal(response.status)
  {
    match Detail(response.body)
    case Some(detail) => JsString(detail)
    case None => "HTTP error! status: " + IntToDecimal(response.status)
  }

  /**
   * `handleResponse`: a non-ok response becomes an `ApiError` with the
   * response's status, whose message is the body's `detail` when there is
   * one and 'HTTP error! status: <status>' otherwise; an ok response is parsed.
   */
  method HandleResponse(response: Response) returns (r: Result<Json, Thrown>)
    ensures !IsOk(response) ==> r == Failure(ApiError(HttpErrorMessage(response), Some(response.status), None))
    ensures IsOk(response) ==> r == ParseJsonResponse(response)
  {
    if !IsOk(response) {
      var errorMessage := "HTTP error! status: " + IntToDecimal(response.status);
      var detail := Detail(response.body);
      if detail.Some? {
        errorMessage := JsString(detail.value);
      }
      return Failure(NewApiError(errorMessage, Some(response.status), None));
    }
    r := ParseJsonResponse(response);
  }

  /** `error instanceof Error && error.name === 'AbortError'`; an `ApiError` is named 'ApiError', never an abort. */
  function IsAbortError(e: Thrown): (b: bool)
    ensures b <==> e.JsError? && e.name == "AbortError"
  {
    IsErrorInstance(e) && ErrorName(e) == "AbortError"
  }

  /** `error instanceof TypeError && error.message.includes('fetch')`. */
  function IsFetchTypeError(e: Thrown): (b: bool)
    ensures b <==> e.JsError? && e.cls == TypeErrorClass && exists k: nat :: OccursAt(e.message, "fetch", k)
    ensures b ==> IsNetworkError(e)
  {
    e.JsError? && e.cls == TypeErrorClass && Contains(e.message, "fetch")
  }

  /**
   * The catch block of `fetchWithTimeout`: an abort is a timeout (checked
   * first), a fetch `TypeError` a network error, anything else keeps its
   * message; none of them has a status, and each wraps the original.
   */
  function ClassifyFetchFailure(e: Thrown): (r: Thrown)
    ensures r.ApiError? && r.statusCode == None && r.originalError == Some(e)
    ensures IsAbortError(e) ==> r.message == RequestTimeoutMessage
    ensures !IsAbortError(e) && IsFetchTypeError(e) ==> r.message == NetworkErrorMessage
    ensures !IsAbortError(e) && !IsFetchTypeError(e) ==> r.message == GetErrorMessage(e)
  {
    if IsAbortError(e) then NewApiError(RequestTimeoutMessage, None, Some(e))
    else if IsFetchTypeError(e) then NewApiError(NetworkErrorMessage, None, Some(e))
    else NewApiError(GetErrorMessage(e), None, Some(e))
  }

  /** The catch block of `uploadFile`: an abort is an upload timeout, anything else keeps its message. */
  function ClassifyUploadFailure(e: Thrown): (r: Thrown)
    ensures r.ApiError? && r.statusCode == None && r.originalError == Some(e)
    ensures IsAbortError(e) ==> r.message == UploadTimeoutMessage
    ensures !IsAbortError(e) ==> r.message == GetErrorMessage(e)
  {
    if IsAbortError(e) then NewApiError(UploadTimeoutMessage, None, Some(e))
    else NewApiError(GetErrorMessage(e), None, Some(e))
  }

  /**
   * A JSON request (`queryCaseStudies`, `checkHealth`): `fetchWithTimeout`
   * with the fetch outcome given, then `handleResponse`. Every failure is an
   * `ApiError`, and it carries a status exactly when the server answered.
   */
  method Request(fetched: Result<Response, Thrown>) returns (r: Result<Json, Thrown>)
    ensures fetched.Failure? ==> r == Failure(ClassifyFetchFailure(fetched.error))
    ensures r.Success? <==> fetched.Success? && IsOk(fetched.value) && fetched.value.body.Some?
    ensures r.Success? ==> r.value == fetched.value.body.value
    ensures r.Failure? ==> r.error.ApiError? && (r.error.statusCode.Some? <==> fetched.Success?)
    ensures r.Failure? && fetched.Success? ==> r.error.statusCode == Some(fetched.value.status)
    ensures fetched.Success? && !IsOk(fetched.value) ==>
              r == Failure(ApiError(HttpErrorMessage(fetched.value), Some(fetched.value.status), None))
    ensures fetched.Success? && IsOk(fetched.value) && fetched.value.body.None? ==>
              r == Failure(ApiError(InvalidJsonMessage, Some(fetched.value.status), None))
  {
    match fetched
    case Failure(e) =>
      r := Failure(ClassifyFetchFailure(e));
    case Success(response) =>
      r := HandleResponse(response);
  }

  /**
   * `uploadFile`: the fetch outcome is given; a thrown fetch is classified by
   * the upload rules. The response is handed to `handleResponse` by
   * `return` without `await`, so its rejections leave the `try` untouched
   * and keep their status.
   */
  method Upload(fetched: Result<Response, Thrown>) returns (r: Result<Json, Thrown>)
    ensures fetched.Failure? ==> r == Failure(ClassifyUploadFailure(fetched.error))
    ensures r.Success? <==> fetched.Success? && IsOk(fetched.value) && fetched.value.body.Some?
    ensures r.Success? ==> r.value == fetched.value.body.value
    ensures r.Failure? ==> r.error.ApiError? && (r.error.statusCode.Some? <==> fetched.Success?)
    ensures r.Failure? && fetched.Success? ==> r.error.statusCode == Some(fetched.value.status)
    ensures fetched.Success? && !IsOk(fetched.value) ==>
              r == Failure(ApiError(HttpErrorMessage(fetched.value), Some(fetched.value.status), None))
    ensures fetched.Success? && IsOk(fetched.value) && fetched.value.body.None? ==>
              r == Failure(ApiError(InvalidJsonMessage, Some(fetched.value.status), None))
  {
    match fetched
    case Failure(e) =>
      r := Failure(ClassifyUploadFailure(e));
    case Success(response) =>
      r := HandleResponse(response);
  }

  /** The request headers: Content-Type application/json, overridden by the caller's own. */
  function RequestHeaders(callerHeaders: map<string, string>): (h: map<string, string>)
    ensures h.Keys == callerHeaders.Keys + {"Content-Type"}
    ensures forall k :: k in callerHeaders ==> h[k] == callerHeaders[k]
    ensures "Content-Type" !in callerHeaders ==> h["Content-Type"] == "application/json"
  {
    map["Content-Type" := "application/json"] + callerHeaders
  }

  // Properties of the classification.

  /** A timed-out request is both a timeout and a network error to the classifiers. */
  lemma TimeoutIsTimeoutAndNetwork(e: Thrown)
    requires IsAbortError(e)
    ensures IsTimeoutError(ClassifyFetchFailure(e))
    ensures IsNetworkError(ClassifyFetchFailure(e))
  {
    var m := RequestTimeoutMessage;
    assert m[8..15] == "timeout";
    ContainsAt(m, "timeout", 8);
  }

  /** The same holds for an upload that timed out. */
  lemma UploadTimeoutIsTimeoutAndNetwork(e: Thrown)
    requires IsAbortError(e)
    ensures IsTimeoutError(ClassifyUploadFailure(e))
    ensures IsNetworkError(ClassifyUploadFailure(e))
  {
    var m := UploadTimeoutMessage;
    assert m[7..14] == "timeout";
    ContainsAt(m, "timeout", 7);
  }

  /**
   * Any error object named 'AbortError', whatever its class (the browser
   * throws a `DOMException`), becomes the request or upload timeout.
   */
  lemma AbortOfAnyClassIsTimeout(cls: ErrorClass, message: string)
    ensures ClassifyFetchFailure(JsError(cls, "AbortError", message)).message == RequestTimeoutMessage
    ensures ClassifyUploadFailure(JsError(cls, "AbortError", message)).message == UploadTimeoutMessage
    ensures IsTimeoutError(ClassifyFetchFailure(JsError(cls, "AbortError", message)))
    ensures IsTimeoutError(ClassifyUploadFailure(JsError(cls, "AbortError", message)))
  {
    TimeoutIsTimeoutAndNetwork(JsError(cls, "AbortError", message));
    UploadTimeoutIsTimeoutAndNetwork(JsError(cls, "AbortError", message));
  }

  /** The abort test comes first: a `TypeError` named 'AbortError' that mentions 'fetch' is a timeout. */
  lemma AbortWinsOverTypeError(before: string, after: string)
    ensures ClassifyFetchFailure(JsError(TypeErrorClass, "AbortError", before + "fetch" + after)).message
         == RequestTimeoutMessage
  {
  }

  /**
   * A failure the server answered is never classified as a network error:
   * neither the error of a non-ok response nor an unparsable ok body.
   */
  lemma ServerErrorIsNotNetworkError(response: Response)
    ensures !IsNetworkError(ApiError(HttpErrorMessage(response), Some(response.status), None))
    ensures ParseJsonResponse(response).Success? || !IsNetworkError(ParseJsonResponse(response).error)
  {
  }

  /** The `detail` of a FastAPI error is shown as is; a validation-error list of objects is not. */
  lemma DetailRendering(s: string, o: map<string, Json>)
    ensures JsString(JString(s)) == s
    ensures JsString(JArray([JObject(o)])) == "[object Object]"
    ensures JsString(JArray([JNumber(1), JNull, JBool(true)])) == "1,,true"
  {
    var single := JArray([JObject(o)]);
    assert ArrayString(single, 1) == "";
    assert ArrayString(single, 0) == JsString(JObject(o)) + "";
    var mixed := JArray([JNumber(1), JNull, JBool(true)]);
    assert ArrayString(mixed, 3) == "";
    assert ArrayString(mixed, 2) == "," + "true" + "";
    assert ArrayString(mixed, 1) == "," + "" + ArrayString(mixed, 2);
    assert JsString(JNumber(1)) == "1";
    assert ArrayString(mixed, 0) == "" + "1" + ArrayString(mixed, 1);
  }
}
