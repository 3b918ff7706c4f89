/**
 * The question form of the frontend (frontend/src/components/QueryForm.tsx):
 * the `question` and `error` state cells, the submit handler, which checks
 * the trimmed question before handing it on, and the handlers that edit
 * the question.
 */
module QueryForm {
  import opened Wrappers
  import opened Text
  import opened Validation

  const EnterQuestionError := "Please enter a question"

  /** What a submit does with the current text: hand on a question, or show an error. */
  datatype SubmitOutcome = Submitted(question: string) | Rejected(error: string)

  /**
   * The decision of `handleSubmit`: the trimmed question is rejected when
   * empty, then when longer than 1000 UTF-16 code units; otherwise it is
   * submitted, trimmed.
   */
  function DecideSubmit(question: string): (r: SubmitOutcome)
    ensures r.Submitted? ==> r.question == JsTrim(question)
    ensures r == Rejected(EnterQuestionError) <==> JsTrim(question) == []
    ensures r == Rejected(TooLongQuestionError) <==> JsTrim(question) != [] && JsLength(JsTrim(question)) > 1000
    ensures r.Rejected? ==> r.error in {EnterQuestionError, TooLongQuestionError}
  {
    var trimmed := JsTrim(question);
    if trimmed == [] then Rejected(EnterQuestionError)
    else if JsLength(trimmed) > 1000 then Rejected(TooLongQuestionError)
    else Submitted(trimmed)
  }

  /** The submit button's `disabled` rule: the trimmed question is empty. */
  function SubmitDisabled(question: string): (r: bool)
    ensures r <==> AllIn(question, IsJsWhitespace)
  {
    JsTrim(question) == []
  }

  /**
   * Whatever the form submits passes `validateQuestion`, and the form
   * submits exactly when the trimmed question would pass it.
   */
  lemma SubmittedQuestionIsValid(question: string)
    ensures DecideSubmit(question).Submitted? ==> ValidateQuestion(DecideSubmit(question).question).valid
    ensures DecideSubmit(question).Submitted? <==> ValidateQuestion(JsTrim(question)).valid
  {
    var t := JsTrim(question);
    TrimIdempotent(question, IsJsWhitespace);
    assert JsTrim(t) == t;
    assert IsValidQuestion(t) <==> t != [];
  }

  /** A text that the button would not let through is also rejected by the handler. */
  lemma DisabledMeansRejected(question: string)
    requires SubmitDisabled(question)
    ensures DecideSubmit(question) == Rejected(EnterQuestionError)
  {
  }

  /** Surrounding whitespace does not count against the limit: the form checks the trimmed text. */
  lemma PaddingIsNotCounted(before: string, core: string, after: string)
    requires AllIn(before, IsJsWhitespace) && AllIn(after, IsJsWhitespace)
    requires core != [] && !IsJsWhitespace(core[0]) && !IsJsWhitespace(core[|core| - 1])
    requires JsLength(core) <= 1000
    ensures DecideSubmit(before + core + after) == Submitted(core)
  {
    TrimPadded(before, core, after, IsJsWhitespace);
  }

  class Form {
    var question: string
    var error: Option<string>

    /** The form as first shown: empty, without error. */
    constructor ()
      ensures question == "" && error == None
    {
      question := "";
      error := None;
    }

    /**
     * `handleSubmit`: clears the error, then rejects or hands on the
     * trimmed question. `submitted` is the argument given to `onSubmit`, if
     * it was called; the text in the input is left as typed.
     */
    method HandleSubmit() returns (submitted: Option<string>)
      modifies this
      ensures question == old(question)
      ensures DecideSubmit(question).Submitted? ==> submitted == Some(DecideSubmit(question).question) && error == None
      ensures DecideSubmit(question).Rejected? ==> submitted == None && error == Some(DecideSubmit(question).error)
    {
      error := None;
      var trimmedQuestion := JsTrim(question);
      if trimmedQuestion == [] {
        error := Some(EnterQuestionError);
        return None;
      }
      if JsLength(trimmedQuestion) > 1000 {
        error := Some(TooLongQuestionError);
        return None;
      }
      submitted := Some(trimmedQuestion);
    }

    /** The input's `onChange`: the new text replaces the question and the error is cleared. */
    method HandleChange(value: string)
      modifies this
      ensures question == value && error == None
    {
      question := value;
      error := None;
    }

    /** `handleExampleClick`: the example replaces the question and the error is cleared. */
    method HandleExampleClick(example: string)
      modifies this
      ensures question == example && error == None
    {
      question := example;
      error := None;
    }
  }
}
