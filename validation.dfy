/** Question validation of the frontend (frontend/src/utils/validation.ts). */
module Validation {
  import opened Wrappers
  import opened Text
  import opened Sequences

  const MaxQuestionLength: nat := 1000
  const EmptyQuestionError := "Question cannot be empty"
  const TooLongQuestionError := "Question is too long (max 1000 characters)"

  /** The `{ valid, error? }` record that `validateQuestion` returns. */
  datatype ValidationResult = ValidationResult(valid: bool, error: Option<string>)

  /** A question is usable when it holds some non-whitespace character. */
  predicate HasContent(question: string) {
    exists i :: 0 <= i < |question| && !IsJsWhitespace(question[i])
  }

  /** `isValidQuestion`: the trimmed question is not empty. */
  function IsValidQuestion(question: string): (r: bool)
    ensures r <==> HasContent(question)
  {
    |JsTrim(question)| > 0
  }

  /**
   * `isQuestionLengthValid`: the UNTRIMMED length, in UTF-16 code units, is
   * at most `maxLength` (1000 when not given).
   */
  function IsQuestionLengthValid(question: string, maxLength: nat := MaxQuestionLength): (r: bool)
    ensures r ==> |question| <= maxLength
    ensures (forall i :: 0 <= i < |question| ==> !IsAstral(question[i])) ==> (r <==> |question| <= maxLength)
    ensures r <==> |question| + |Filter(question, IsAstral)| <= maxLength
  {
    JsLengthCountsAstral(question);
    JsLength(question) <= maxLength
  }

  /** `validateQuestion`: the emptiness check first, then the length check. */
  function ValidateQuestion(question: string): (r: ValidationResult)
    ensures r.valid <==> HasContent(question) && JsLength(question) <= MaxQuestionLength
    ensures r.valid ==> r.error == None
    ensures !HasContent(question) ==> r.error == Some(EmptyQuestionError)
    ensures HasContent(question) && JsLength(question) > MaxQuestionLength ==> r.error == Some(TooLongQuestionError)
  {
    if !IsValidQuestion(question) then ValidationResult(false, Some(EmptyQuestionError))
    else if !IsQuestionLengthValid(question) then ValidationResult(false, Some(TooLongQuestionError))
    else ValidationResult(true, None)
  }

  /** Blankness wins over length: 1001 spaces are reported as empty, not as too long. */
  lemma BlankLongQuestionIsEmpty()
    ensures ValidateQuestion(seq(1001, _ => ' ')).error == Some(EmptyQuestionError)
  {
    var q := seq(1001, _ => ' ');
    assert !HasContent(q);
  }

  /**
   * The length limit applies to the untrimmed text: "a" followed by 1000
   * spaces trims to one character, yet is rejected as too long.
   */
  lemma PaddedQuestionIsTooLong()
    ensures var q := ['a'] + seq(1000, _ => ' ');
      |JsTrim(q)| == 1 && ValidateQuestion(q).error == Some(TooLongQuestionError)
  {
    var q := ['a'] + seq(1000, _ => ' ');
    assert HasContent(q) by { assert !IsJsWhitespace(q[0]); }
    var t := JsTrim(q);
    assert TrimStart(q, IsJsWhitespace) == q;
    assert t == q[..|t|];
    assert |t| >= 1;
    assert forall i :: 1 <= i < |q| ==> IsJsWhitespace(q[i]);
    assert JsLength(q) > MaxQuestionLength;
  }
}
