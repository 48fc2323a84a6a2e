/**
 The validations of the QuestionAnswer link (question, answer, trivia):
 the triple is unique among stored links, question and trivia are present,
 and when both are present their difficulty levels agree.
 */
module QuestionAnswerValidation {
  import opened Domain

  /** A link row with its foreign keys and the records they load (if any). */
  datatype QuestionAnswer = QuestionAnswer(
    questionId: Option<nat>,
    answerId: Option<nat>,
    triviaId: Option<nat>,
    question: Option<Question>,
    trivia: Option<Trivia>)

  /** The scope of the uniqueness validation. */
  datatype Key = Key(questionId: Option<nat>, answerId: Option<nat>, triviaId: Option<nat>)

  /** One failed validation, in the order the model declares them. */
  datatype LinkError = TripleTaken | MissingQuestionOrTrivia | DifficultyMismatch

  function KeyOf(link: QuestionAnswer): Key {
    Key(link.questionId, link.answerId, link.triviaId)
  }

  /** Some stored link other than this one already has its triple. */
  predicate Taken(link: QuestionAnswer, others: seq<QuestionAnswer>) {
    exists i :: 0 <= i < |others| && KeyOf(others[i]) == KeyOf(link)
  }

  /** `consistent_combination`: question or trivia is absent. */
  predicate Incomplete(link: QuestionAnswer) {
    link.question.None? || link.trivia.None?
  }

  /** `consistent_difficulty`: both are present and their levels differ. */
  predicate LevelsDiffer(link: QuestionAnswer) {
    && link.question.Some? && link.trivia.Some?
    && link.question.value.difficulty.level != link.trivia.value.difficulty.level
  }

  /** The errors `valid?` collects for `link`, given the other stored links. */
  function Errors(link: QuestionAnswer, others: seq<QuestionAnswer>): (es: seq<LinkError>)
    ensures |es| <= 2
    ensures MissingQuestionOrTrivia in es ==> DifficultyMismatch !in es
  {
    (if Taken(link, others) then [TripleTaken] else [])
    + (if Incomplete(link) then [MissingQuestionOrTrivia] else [])
    + (if LevelsDiffer(link) then [DifficultyMismatch] else [])
  }

  predicate Valid(link: QuestionAnswer, others: seq<QuestionAnswer>) {
    Errors(link, others) == []
  }

  /**
   A link is valid exactly when its triple is new, question and trivia are
   both present, and their difficulty levels agree.
   */
  lemma ValidIff(link: QuestionAnswer, others: seq<QuestionAnswer>)
    ensures Valid(link, others)
            <==> && (forall i :: 0 <= i < |others| ==> KeyOf(others[i]) != KeyOf(link))
                 && link.question.Some? && link.trivia.Some?
                 && link.question.value.difficulty.level == link.trivia.value.difficulty.level
  {
  }

  /** A link missing its question or its trivia is invalid. */
  lemma MissingPartInvalid(link: QuestionAnswer, others: seq<QuestionAnswer>)
    requires link.question.None? || link.trivia.None?
    ensures MissingQuestionOrTrivia in Errors(link, others)
    ensures !Valid(link, others)
  {
  }

  /** With both present, differing levels are an error. */
  lemma DifferentLevelsInvalid(link: QuestionAnswer, others: seq<QuestionAnswer>)
    requires link.question.Some? && link.trivia.Some?
    ensures DifficultyMismatch in Errors(link, others)
            <==> link.question.value.difficulty.level != link.trivia.value.difficulty.level
  {
  }

  /** The difficulty check adds nothing when question or trivia is absent. */
  lemma DifficultyCheckNeedsBoth(link: QuestionAnswer, others: seq<QuestionAnswer>)
    requires link.question.None? || link.trivia.None?
    ensures DifficultyMismatch !in Errors(link, others)
  {
  }

  /**
   The presence check names the answer in its message but does not look at
   it: a link without an answer passes when the rest holds.
   */
  lemma AnswerNotRequired(link: QuestionAnswer, others: seq<QuestionAnswer>)
    requires link.answerId.None?
    requires !Taken(link, others)
    requires link.question.Some? && link.trivia.Some?
    requires link.question.value.difficulty.level == link.trivia.value.difficulty.level
    ensures Valid(link, others)
  {
  }

  /** No two stored links share a triple. */
  predicate UniqueKeys(stored: seq<QuestionAnswer>) {
    forall i, j :: 0 <= i < j < |stored| ==> KeyOf(stored[i]) != KeyOf(stored[j])
  }

  /** `save`: the link is stored when it validates against the stored links, and refused otherwise. */
  function Save(stored: seq<QuestionAnswer>, link: QuestionAnswer): (r: seq<QuestionAnswer>)
    ensures |stored| <= |r| && r[..|stored|] == stored
    ensures |r| == |stored| + 1 <==> Valid(link, stored)
    ensures |r| > |stored| ==> r[|stored|] == link
    ensures !Valid(link, stored) ==> r == stored
  {
    if Valid(link, stored) then stored + [link] else stored
  }

  /** Saving through validation never stores a second link with the same triple. */
  lemma SaveKeepsKeysUnique(stored: seq<QuestionAnswer>, link: QuestionAnswer)
    requires UniqueKeys(stored)
    ensures UniqueKeys(Save(stored, link))
  {
    var r := Save(stored, link);
    if Valid(link, stored) {
      forall i, j | 0 <= i < j < |r|
        ensures KeyOf(r[i]) != KeyOf(r[j])
      {
        if j == |stored| {
          assert r[i] == stored[i] && r[j] == link;
        } else {
          assert r[i] == stored[i] && r[j] == stored[j];
        }
      }
    }
  }
}
