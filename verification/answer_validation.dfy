/**
 The validations of the Answer model. An answer needs a question id; for a
 question that is not an Autocomplete question it also needs a non-blank
 text of at most 255 characters and a correctness flag that is true or
 false. Answers of Autocomplete questions are exempt from the last three.
 */
module AnswerValidation {
  import opened Domain

  const MaxTextLength: nat := 255

  /** One failed validation, in the order the model declares them. */
  datatype AnswerError = QuestionIdBlank | TextBlank | CorrectNotBoolean | TextTooLong

  /** The ASCII whitespace characters. */
  predicate IsSpace(c: char) {
    c == ' ' || c == '\t' || c == '\n' || c == '\r' || c == '\U{000B}' || c == '\U{000C}'
  }

  /** Rails' `blank?` for a text column: nil, empty, or whitespace only. */
  predicate Blank(text: Option<string>) {
    match text
    case None => true
    case Some(s) => forall i :: 0 <= i < |s| ==> IsSpace(s[i])
  }

  /** The length the length validator measures: a nil text counts as empty. */
  function TextLength(text: Option<string>): nat {
    match text
    case None => 0
    case Some(s) => |s|
  }

  /** `autocomplete_question?`: the answer's question is loaded and is an Autocomplete question. */
  predicate IsAutocompleteQuestion(question: Option<QuestionType>) {
    question == Some(Autocomplete)
  }

  /** The errors `valid?` collects for `answer`, whose question has type `question` (if loaded). */
  function Errors(answer: Answer, question: Option<QuestionType>): (es: seq<AnswerError>)
    ensures |es| <= 4
    ensures QuestionIdBlank in es <==> answer.questionId.None?
    ensures IsAutocompleteQuestion(question) ==> es == [] || es == [QuestionIdBlank]
  {
    var checked := !IsAutocompleteQuestion(question);
    (if answer.questionId.None? then [QuestionIdBlank] else [])
    + (if checked && Blank(answer.text) then [TextBlank] else [])
    + (if checked && answer.correct.None? then [CorrectNotBoolean] else [])
    + (if checked && TextLength(answer.text) > MaxTextLength then [TextTooLong] else [])
  }

  predicate Valid(answer: Answer, question: Option<QuestionType>) {
    Errors(answer, question) == []
  }

  /**
   An answer is valid exactly when it has a question id and, unless its
   question is an Autocomplete question, a non-blank text of at most 255
   characters and a correctness flag.
   */
  lemma ValidIff(answer: Answer, question: Option<QuestionType>)
    ensures Valid(answer, question)
            <==> answer.questionId.Some?
                 && (IsAutocompleteQuestion(question)
                     || (answer.text.Some?
                         && (exists i :: 0 <= i < |answer.text.value| && !IsSpace(answer.text.value[i]))
                         && |answer.text.value| <= MaxTextLength
                         && answer.correct.Some?))
  {
  }

  /** An answer without a question id is invalid, whatever its question. */
  lemma MissingQuestionIdInvalid(answer: Answer, question: Option<QuestionType>)
    requires answer.questionId.None?
    ensures !Valid(answer, question)
  {
  }

  /** For other questions, a missing or blank text is an error. */
  lemma TextRequired(answer: Answer, question: Option<QuestionType>)
    requires !IsAutocompleteQuestion(question)
    ensures TextBlank in Errors(answer, question) <==> Blank(answer.text)
  {
  }

  /** For other questions, the correctness flag must be true or false; nil is an error. */
  lemma CorrectMustBeBoolean(answer: Answer, question: Option<QuestionType>)
    requires !IsAutocompleteQuestion(question)
    ensures CorrectNotBoolean in Errors(answer, question) <==> answer.correct.None?
  {
  }

  /** For other questions, a text longer than 255 characters is an error. */
  lemma TextLengthLimit(answer: Answer, question: Option<QuestionType>)
    requires !IsAutocompleteQuestion(question)
    ensures TextTooLong in Errors(answer, question) <==> TextLength(answer.text) > MaxTextLength
  {
  }

  /** For Autocomplete questions only the question id is checked. */
  lemma AutocompleteWaivesTextRules(answer: Answer, question: Option<QuestionType>)
    requires IsAutocompleteQuestion(question)
    ensures Valid(answer, question) <==> answer.questionId.Some?
  {
  }
}
