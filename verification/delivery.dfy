/**
 Question delivery, `fetch_question(index)` of the application server: the
 per-request decision whether the question at `index` of the active trivia
 may be shown, or the player is sent to the out-of-order error page or to
 the results.

 The time limits `TIME_BEGINNER` and `TIME_DIFFICULTY` come from a
 constants file that is not part of this model, so they are parameters.
 Completion is tested exactly as the server does: no question at `index`,
 or `index` at least `TIME_DIFFICULTY`.
 */
module Delivery {
  import opened Domain

  /** The values of `TIME_BEGINNER` and `TIME_DIFFICULTY`. */
  datatype TimeLimits = TimeLimits(beginner: nat, difficulty: nat)

  /** What the question page is rendered with. */
  datatype QuestionView = QuestionView(
    question: Question,
    answers: seq<Answer>,
    timeLimitSeconds: nat,
    questionIndex: nat,
    help: Option<string>)

  /** Redirect to the out-of-order error, redirect to the results, or show a question. */
  datatype Outcome = Unanswered | Results | Show(view: QuestionView)

  /** `Answer.where(question_id: questionId)`, in table order. */
  function AnswersFor(table: seq<Answer>, questionId: nat): (r: seq<Answer>)
    ensures |r| <= |table|
    ensures forall a :: a in r <==> a in table && a.questionId == Some(questionId)
    decreases |table|
  {
    if |table| == 0 then []
    else
      var rest := AnswersFor(table[1..], questionId);
      if table[0].questionId == Some(questionId) then [table[0]] + rest else rest
  }

  /** Index `index` may be requested: it is the first, or its predecessor was answered. */
  predicate Admissible(answered: seq<nat>, index: nat) {
    index == 0 || index - 1 in answered
  }

  /** `fetch_question(index)` for the trivia bound to the session. */
  function FetchQuestion(trivia: Trivia, answerTable: seq<Answer>, session: Session, index: nat, limits: TimeLimits): (o: Outcome)
    requires session.triviaId == Some(trivia.id)
    ensures o.Show? ==> index < |trivia.questions| && o.view.question == trivia.questions[index]
    ensures o.Show? ==> o.view.questionIndex == index && index < limits.difficulty
    ensures o.Show? ==> forall a :: a in o.view.answers <==> a in answerTable && a.questionId == Some(o.view.question.id)
  {
    var previousIndex := if index == 0 then 0 else index - 1;
    if index == 0 || previousIndex in session.answered then
      if index >= |trivia.questions| || index >= limits.difficulty then
        Results
      else
        var question := trivia.questions[index];
        var beginner := trivia.difficulty.level == Beginner;
        Show(QuestionView(
          question,
          AnswersFor(answerTable, question.id),
          if beginner then limits.beginner else limits.difficulty,
          index,
          if beginner then question.help else None))
    else
      Unanswered
  }

  /** The first question never needs anything answered before it. */
  lemma FirstQuestionAlwaysAdmissible(trivia: Trivia, answerTable: seq<Answer>, session: Session, limits: TimeLimits)
    requires session.triviaId == Some(trivia.id)
    ensures FetchQuestion(trivia, answerTable, session, 0, limits) != Unanswered
  {
  }

  /**
   The request is refused as out of order exactly when it is not the first
   question and its predecessor is not among the answered indices.
   */
  lemma UnansweredIffSkipping(trivia: Trivia, answerTable: seq<Answer>, session: Session, index: nat, limits: TimeLimits)
    requires session.triviaId == Some(trivia.id)
    ensures FetchQuestion(trivia, answerTable, session, index, limits) == Unanswered
            <==> index > 0 && index - 1 !in session.answered
  {
  }

  /**
   An admissible request goes to the results exactly when the trivia has no
   question at `index` or `index` has reached `TIME_DIFFICULTY`.
   */
  lemma ResultsIffExhausted(trivia: Trivia, answerTable: seq<Answer>, session: Session, index: nat, limits: TimeLimits)
    requires session.triviaId == Some(trivia.id)
    ensures FetchQuestion(trivia, answerTable, session, index, limits) == Results
            <==> Admissible(session.answered, index) && (index >= |trivia.questions| || index >= limits.difficulty)
  {
  }

  /** Requesting one past the last question of the trivia, in order, reaches the results. */
  lemma EndOfSequenceIsResults(trivia: Trivia, answerTable: seq<Answer>, session: Session, limits: TimeLimits)
    requires session.triviaId == Some(trivia.id)
    requires |trivia.questions| > 0 ==> |trivia.questions| - 1 in session.answered
    ensures FetchQuestion(trivia, answerTable, session, |trivia.questions|, limits) == Results
  {
  }

  /**
   The completion bound `TIME_DIFFICULTY` does not depend on the trivia: a
   question that exists at an index at or past it is never shown.
   */
  lemma CompletionBoundIgnoresLength(trivia: Trivia, answerTable: seq<Answer>, session: Session, index: nat, limits: TimeLimits)
    requires session.triviaId == Some(trivia.id)
    requires Admissible(session.answered, index)
    requires limits.difficulty <= index < |trivia.questions|
    ensures FetchQuestion(trivia, answerTable, session, index, limits) == Results
  {
  }

  /**
   When `TIME_DIFFICULTY` is at least the number of questions, the bound is
   inert: an admissible request reaches the results exactly past the last question.
   */
  lemma CompletionBoundInert(trivia: Trivia, answerTable: seq<Answer>, session: Session, index: nat, limits: TimeLimits)
    requires session.triviaId == Some(trivia.id)
    requires Admissible(session.answered, index)
    requires limits.difficulty >= |trivia.questions|
    ensures FetchQuestion(trivia, answerTable, session, index, limits) == Results <==> index >= |trivia.questions|
  {
  }

  /** Answering the predecessor unlocks the next question while the trivia lasts. */
  lemma AnsweringPredecessorUnlocks(trivia: Trivia, answerTable: seq<Answer>, session: Session, index: nat, limits: TimeLimits)
    requires session.triviaId == Some(trivia.id)
    requires index > 0 && index - 1 in session.answered
    requires index < |trivia.questions| && index < limits.difficulty
    ensures FetchQuestion(trivia, answerTable, session, index, limits).Show?
  {
  }

  /** The time limit is `TIME_BEGINNER` for the beginner tier and `TIME_DIFFICULTY` for every other. */
  lemma TimeLimitByTier(trivia: Trivia, answerTable: seq<Answer>, session: Session, index: nat, limits: TimeLimits)
    requires session.triviaId == Some(trivia.id)
    ensures var o := FetchQuestion(trivia, answerTable, session, index, limits);
            o.Show? ==> o.view.timeLimitSeconds
                        == (if trivia.difficulty.level == Beginner then limits.beginner else limits.difficulty)
  {
  }

  /** The hint is the question's own `help` for the beginner tier and absent for every other. */
  lemma HelpOnlyForBeginner(trivia: Trivia, answerTable: seq<Answer>, session: Session, index: nat, limits: TimeLimits)
    requires session.triviaId == Some(trivia.id)
    ensures var o := FetchQuestion(trivia, answerTable, session, index, limits);
            o.Show? ==> (o.view.help == if trivia.difficulty.level == Beginner then trivia.questions[index].help else None)
  {
  }
}
