/**
 * Error values of the frontend and their classification
 * (frontend/src/utils/errors.ts).
 */
module Errors {
  import opened Wrappers
  import opened Text

  /** The built-in class of a non-`ApiError` error object. */
  datatype ErrorClass = PlainError | TypeErrorClass | OtherErrorClass

  /**
   * A thrown JavaScript value. `ApiError` and `JsError` are `Error`
   * instances; a `JsError` carries its class, its `name` (for example
   * 'AbortError') and its `message`.
   */
  datatype Thrown =
    | ApiError(message: string, statusCode: Option<int>, originalError: Option<Thrown>)
    | JsError(cls: ErrorClass, name: string, message: string)
    | StringValue(text: string)
    | OtherValue

  const UnexpectedErrorMessage := "An unexpected error occurred"

  /** `value instanceof Error`. */
  predicate IsErrorInstance(e: Thrown) {
    e.ApiError? || e.JsError?
  }

  /** The `name` property of an `Error` instance; an `ApiError` always says 'ApiError'. */
  function ErrorName(e: Thrown): string
    requires IsErrorInstance(e)
  {
    if e.ApiError? then "ApiError" else e.name
  }

  /** `new ApiError(message, statusCode, originalError)`. */
  function NewApiError(message: string, statusCode: Option<int>, originalError: Option<Thrown>): (e: Thrown)
    ensures e.ApiError? && IsErrorInstance(e) && ErrorName(e) == "ApiError"
    ensures e.message == message && e.statusCode == statusCode && e.originalError == originalError
  {
    ApiError(message, statusCode, originalError)
  }

  /** `getErrorMessage`. */
  function GetErrorMessage(e: Thrown): (r: string)
    ensures IsErrorInstance(e) ==> r == e.message
    ensures e.StringValue? ==> r == e.text
    ensures !IsErrorInstance(e) && !e.StringValue? ==> r == UnexpectedErrorMessage
  {
    match e
    case ApiError(m, _, _) => m
    case JsError(_, _, m) => m
    case StringValue(s) => s
    case OtherValue => UnexpectedErrorMessage
  }

  /** `isNetworkError`: an `ApiError` without status, or a `TypeError` mentioning 'fetch'. */
  function IsNetworkError(e: Thrown): (b: bool)
    ensures b ==> IsErrorInstance(e)
    ensures e.ApiError? ==> (b <==> e.statusCode.None?)
    ensures e.JsError? ==> (b <==> e.cls == TypeErrorClass && exists k: nat :: OccursAt(e.message, "fetch", k))
    ensures b && e.JsError? ==> e.cls == TypeErrorClass && |e.message| >= |"fetch"|
  {
    if e.ApiError? then e.statusCode.None?
    else e.JsError? && e.cls == TypeErrorClass && Contains(e.message, "fetch")
  }

  /** `isTimeoutError`: an `Error` whose message mentions 'timeout' or 'Timeout'. */
  function IsTimeoutError(e: Thrown): (b: bool)
    ensures b <==> IsErrorInstance(e) &&
                   ((exists k: nat :: OccursAt(e.message, "timeout", k)) ||
                    (exists k: nat :: OccursAt(e.message, "Timeout", k)))
    ensures b ==> IsErrorInstance(e) && |e.message| >= |"timeout"|
  {
    IsErrorInstance(e) && (Contains(e.message, "timeout") || Contains(e.message, "Timeout"))
  }

  /** An `ApiError` that carries a status code is never a network error, whatever its message. */
  lemma ApiErrorWithStatusIsNotNetworkError(message: string, status: int, original: Option<Thrown>)
    ensures !IsNetworkError(NewApiError(message, Some(status), original))
  {
  }

  /** Being an `ApiError` decides the network test alone: its message is not consulted. */
  lemma ApiErrorNetworkIgnoresMessage(message: string, original: Option<Thrown>)
    ensures IsNetworkError(NewApiError(message, None, original))
  {
  }

  /** Only `Error` instances can be timeouts: the bare string 'timeout' is not one. */
  lemma StringIsNeverTimeout(s: string)
    ensures !IsTimeoutError(StringValue(s))
    ensures GetErrorMessage(StringValue(s)) == s
  {
  }

  /** A `TypeError` whose message mentions 'fetch' is a network error. */
  lemma FetchTypeErrorIsNetworkError(name: string, before: string, after: string)
    ensures IsNetworkError(JsError(TypeErrorClass, name, before + "fetch" + after))
  {
    ContainsInfix(before, "fetch", after);
  }

  /** Any other class of error is never a network error, even when it mentions 'fetch'. */
  lemma PlainErrorIsNotNetworkError(name: string, message: string)
    ensures !IsNetworkError(JsError(PlainError, name, message))
  {
  }

  /** An `Error` whose message mentions 'timeout' or 'Timeout' anywhere is a timeout. */
  lemma TimeoutMentionIsTimeout(e: Thrown, before: string, after: string)
    requires IsErrorInstance(e)
    requires e.message == before + "timeout" + after || e.message == before + "Timeout" + after
    ensures IsTimeoutError(e)
  {
    if e.message == before + "timeout" + after {
      ContainsInfix(before, "timeout", after);
    } else {
      ContainsInfix(before, "Timeout", after);
    }
  }

  /** A message too short to mention either spelling is not a timeout. */
  lemma ShortMessageIsNotTimeout(e: Thrown)
    requires IsErrorInstance(e) && |e.message| < 7
    ensures !IsTimeoutError(e)
  {
    NotContainsShort(e.message, "timeout");
    NotContainsShort(e.message, "Timeout");
  }
}
