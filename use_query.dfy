/**
 * The query hook of the frontend (frontend/src/hooks/useQuery.ts): three
 * state cells, `data`, `loading` and `error`, updated by `execute` and
 * `reset`. The asynchronous request is split into a dispatch step and a
 * resolve step that receives the request's outcome; only one request is in
 * flight at a time, as the form is disabled while loading.
 */
module UseQuery {
  import opened Wrappers
  import opened Models
  import opened Errors
  import opened Validation

  const InvalidQuestionFallback := "Invalid question"

  /** `validation.error ?? 'Invalid question'`. */
  function RejectionMessage(v: ValidationResult): (m: string)
    ensures v.error.Some? ==> m == v.error.value
    ensures v.error.None? ==> m == InvalidQuestionFallback
  {
    match v.error
    case Some(e) => e
    case None => InvalidQuestionFallback
  }

  /** An invalid question always carries its own message: the fallback text is never shown. */
  lemma RejectionMessageIsValidationMessage(question: string)
    requires !ValidateQuestion(question).valid
    ensures RejectionMessage(ValidateQuestion(question)) in {EmptyQuestionError, TooLongQuestionError}
  {
  }

  class QueryHook {
    var data: Option<QueryResponse>
    var loading: bool
    var error: Option<string>

    /** A result and an error are never shown together, and both are cleared while loading. */
    ghost predicate Valid()
      reads this
    {
      !(data.Some? && error.Some?) && (loading ==> data.None? && error.None?)
    }

    /** The initial state: nothing loaded, nothing loading, no error. */
    constructor ()
      ensures data == None && !loading && error == None
      ensures Valid()
    {
      data := None;
      loading := false;
      error := None;
    }

    /**
     * The synchronous part of `execute`: an invalid question sets the
     * error, clears the data and issues no request; a valid one clears both
     * and starts loading. `issued` says whether a request was sent.
     */
    method Dispatch(question: string) returns (issued: bool)
      requires Valid() && !loading
      modifies this
      ensures Valid()
      ensures issued <==> ValidateQuestion(question).valid
      ensures !issued ==> error == Some(RejectionMessage(ValidateQuestion(question))) && data == None && !loading
      ensures issued ==> loading && error == None && data == None
    {
      var validation := ValidateQuestion(question);
      assert validation == ValidateQuestion(question);
      issued := validation.valid;
      if issued {
        loading := true;
        error := None;
      } else {
        error := Some(RejectionMessage(validation));
      }
      data := None;
    }

    /**
     * The continuation of `execute` once the request settles: the result
     * becomes `data`, or the error's message becomes `error` and `data` is
     * cleared; `loading` ends in both cases.
     */
    method Resolve(outcome: Result<QueryResponse, Thrown>)
      requires Valid() && loading
      modifies this
      ensures Valid() && !loading
      ensures outcome.Success? ==> data == Some(outcome.value) && error == None
      ensures outcome.Failure? ==> error == Some(GetErrorMessage(outcome.error)) && data == None
    {
      match outcome {
        case Success(result) =>
          data := Some(result);
        case Failure(err) =>
          error := Some(GetErrorMessage(err));
          data := None;
      }
      loading := false;
    }

    /** `execute(question)` run to completion, with the request's outcome given. */
    method Execute(question: string, outcome: Result<QueryResponse, Thrown>)
      requires Valid() && !loading
      modifies this
      ensures Valid() && !loading
      ensures !ValidateQuestion(question).valid ==>
        error == Some(RejectionMessage(ValidateQuestion(question))) && data == None
      ensures ValidateQuestion(question).valid && outcome.Success? ==> data == Some(outcome.value) && error == None
      ensures ValidateQuestion(question).valid && outcome.Failure? ==>
        error == Some(GetErrorMessage(outcome.error)) && data == None
    {
      var issued := Dispatch(question);
      if issued {
        Resolve(outcome);
      }
    }

    /** `reset`: back to the initial state. */
    method Reset()
      modifies this
      ensures data == None && error == None && !loading
      ensures Valid()
    {
      data := None;
      error := None;
      loading := false;
    }
  }
}
