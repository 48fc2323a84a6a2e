# Trivia session engine — a Dafny model

This project models the trivia engine of a Sinatra quiz application. It covers
the pure logic around one play-through:

- **Question-mix planner** (`MixPlanner`): how many choice, true/false and
  autocomplete questions a new trivia draws for its tier.
- **Question bank query** (`QuestionBank`): `random_questions`, which picks at
  most *n* questions of one type and difficulty in random order.
- **Shuffle** (`Shuffling`): `Array#shuffle` as Fisher–Yates from the end.
- **Trivia set-up** (`TriviaBuilder`): `get_questions`,
  `setup_standard_trivia`, `finalize_trivia_setup` and `setup_trivia`. They
  plan, draw, concatenate, shuffle, append to the trivia and seed the session.
- **Question delivery** (`Delivery`): the server's `fetch_question`. It
  chooses between the out-of-order error, the results, and a question view.
  The view carries the question, its answers, the time limit, the index and
  the beginner-only hint.
- **Error page messages** (`ErrorMessages`): resolves `(code, reason,
  error_message)` against the two-level message table.
- **Record validators** (`AnswerValidation`, `QuestionAnswerValidation`): the
  Answer model's rules and the QuestionAnswer link's rules. Saving a link
  keeps the stored triples unique.

Randomness is an input. A `rand(lo..hi)` call becomes `lo + draw % (hi-lo+1)`
for a caller-supplied draw. `ORDER BY RANDOM()` becomes the table in the order
the query saw it, which must be a permutation of the bank. `Array#shuffle`
takes a caller-supplied list of swap draws. Persistence is also an input: the
question table, the difficulty table, the answer table and the id that
`trivia.save` assigns are all parameters. `TIME_BEGINNER` and
`TIME_DIFFICULTY` are defined in `constants.rb`, which is not part of this
model, so they are a `TimeLimits` parameter.

Delivery follows the server code exactly. A request
reaches the results when there is no question at `index` **or**
`index >= TIME_DIFFICULTY`. That compares an index with a time constant.
`CompletionBoundIgnoresLength` and `CompletionBoundInert` show what this
means. Completing at `index >= length` alone would be the length-based
test. The two agree whenever `TIME_DIFFICULTY` is at least the number of
questions.

An unknown difficulty level makes the source fail: `Difficulty.find_by`
returns nil and `difficulty.level` raises. `SetupTrivia` models that as
`Failure(DifficultyNotFound)`.

## Model

| member | source | states |
|---|---|---|
| MixPlanner.RandIn | controllers/trivia_controller.rb:88-92 | each `rand(lo..hi)` draw lies in the inclusive range |
| MixPlanner.RandInReachesEveryValue | controllers/trivia_controller.rb:88-92 | every value of the range is produced by some draw |
| MixPlanner.AutocompleteCount | controllers/trivia_controller.rb:94-95 | the autocomplete count is never negative; it tops choice + true/false up to ten when they leave room, else it is zero |
| MixPlanner.GetQuestionsCount | controllers/trivia_controller.rb:86-97 | beginner: choice in [3,6], true/false in [3,4]; other tiers: choice in [2,5], true/false in [2,4]; the three counts always sum to 10 |
| MixPlanner.ClampNeverActive | controllers/trivia_controller.rb:82-96 | for every count pair either tier's ranges allow, ten minus choice and true/false is non-negative, so the clamp never fires and the total is ten |
| MixPlanner.ClampOverflowsTotal | controllers/trivia_controller.rb:94-95 | the total is ten exactly when choice + true/false is at most ten; wider ranges would overfill the trivia |
| MixPlanner.EveryMixInRangeIsPlanned | controllers/trivia_controller.rb:86-96 | every count pair the ranges allow is the plan for some pair of draws |
| QuestionBank.Select | controllers/trivia_controller.rb:130-131 | the rows kept are exactly the table's rows of that difficulty and type, no more than the table has |
| QuestionBank.RandomQuestions | controllers/trivia_controller.rb:129-134 | at most `count` questions, all of the type and difficulty, all from the table; fewer than `count` only when every matching row was taken; ids distinct when the table's are |
| QuestionBank.SelectCountPermutation | controllers/trivia_controller.rb:130-132 | the number of matching rows does not depend on the random order of the table |
| QuestionBank.RandomQuestionsCount | controllers/trivia_controller.rb:129-134 | whatever the random order, the query returns min(count, matching rows of the bank) questions |
| Shuffling.Shuffle | controllers/trivia_controller.rb:115 | the shuffled sequence is a permutation of the input (same length, same multiset) and keeps ids distinct |
| TriviaBuilder.GetQuestions | controllers/trivia_controller.rb:110-117 | the result is a permutation of choice ++ true/false ++ autocomplete; its length is the sum of min(planned, available) per type; each type occurs min(planned, available) times; every question is from the bank at the difficulty; no id repeats when the bank has none |
| TriviaBuilder.SetupStandardTrivia | controllers/trivia_controller.rb:57-61 | the existing questions stay in front and the assembled ones follow; id, owner and tier are unchanged; the added questions are, as a multiset, the three `random_questions` groups for the planned mix, so each type contributes min(planned, available) and the total is their sum; at most ten are added, all from the bank at the difficulty; exactly ten when the bank has six of each type |
| TriviaBuilder.FinalizeTriviaSetup | controllers/trivia_controller.rb:72-76 | the session then tracks this trivia's id with an empty answered list; the user is kept |
| TriviaBuilder.FreshSessionStartsAtFirstQuestion | controllers/trivia_controller.rb:72-76 | after seeding, delivery refuses exactly the indices above zero as out of order |
| TriviaBuilder.FindDifficulty | controllers/trivia_controller.rb:41 | the tier found has the requested level and is the first one in the table with it; none is found exactly when no tier has that level |
| TriviaBuilder.SetupTrivia | controllers/trivia_controller.rb:20-44 | fails exactly for an unknown level; otherwise the trivia has the new id, the session's user, the requested tier, and questions that are, as a multiset, the three `random_questions` groups for the planned mix: min(planned, available) of each type, at most ten in all and exactly ten when the tier has six of each type, all from that tier with distinct ids; the session is seeded for it |
| Delivery.AnswersFor | server.rb:158 | the answers returned are exactly the table's answers whose question id is the question's |
| Delivery.FetchQuestion | server.rb:150-166 | a shown question is `questions[index]`, carries `index` as its position, lies below `TIME_DIFFICULTY`, and comes with exactly its own answers |
| Delivery.FirstQuestionAlwaysAdmissible | server.rb:151-152 | index 0 is never refused as out of order, whatever the answered list |
| Delivery.UnansweredIffSkipping | server.rb:151-164 | the out-of-order error happens exactly when index > 0 and index − 1 is not answered |
| Delivery.ResultsIffExhausted | server.rb:152-155 | an admissible request goes to the results exactly when there is no question at the index or the index reaches `TIME_DIFFICULTY` |
| Delivery.EndOfSequenceIsResults | server.rb:153-155 | requesting one past the last question, in order, reaches the results |
| Delivery.CompletionBoundIgnoresLength | server.rb:154 | an existing question at an index at or past `TIME_DIFFICULTY` is never shown: the bound does not depend on the trivia's length |
| Delivery.CompletionBoundInert | server.rb:154 | when `TIME_DIFFICULTY` is at least the number of questions, completion is exactly index ≥ length |
| Delivery.AnsweringPredecessorUnlocks | server.rb:151-160 | once index − 1 is answered, the question at index is shown while it exists and is below the bound |
| Delivery.TimeLimitByTier | server.rb:159 | the time limit is `TIME_BEGINNER` for the beginner tier and `TIME_DIFFICULTY` otherwise |
| Delivery.HelpOnlyForBeginner | server.rb:161 | the hint is the question's `help` for the beginner tier and absent for every other tier |
| ErrorMessages.Resolve | controllers/error_controller.rb:39-45 | total: every (code, reason, message) yields either a text or one of the table's own entries |
| ErrorMessages.TableShape | controllers/error_controller.rb:19-37 | the table holds exactly the two flat codes (texts) and the three nested codes (sub-tables) |
| ErrorMessages.FlatCodeIgnoresReason | controllers/error_controller.rb:20-21 | `unanswered` and `answered` yield their fixed texts whatever the reason |
| ErrorMessages.DefaultIffUnknownCode | controllers/error_controller.rb:41 | the default text appears exactly when the code is missing or not in the table |
| ErrorMessages.NestedKnownReason | controllers/error_controller.rb:43-44 | a nested code with a reason its sub-table knows yields that reason's text |
| ErrorMessages.NestedUnknownReasonYieldsTable | controllers/error_controller.rb:41-44 | a nested code with a missing or unknown reason yields its whole sub-table, not the default text |
| ErrorMessages.RegistrationErrorEmbedsMessage | controllers/error_controller.rb:25 | `registration`/`registration_error` yields the fixed prefix followed by the request's `error_message` (empty when nil) |
| AnswerValidation.Errors | models/answer.rb:7-16 | the question-id error occurs exactly when the id is nil; for an autocomplete question it is the only possible error |
| AnswerValidation.ValidIff | models/answer.rb:7-16 | valid exactly when the question id is present and, unless the question is autocomplete, the text is present, not blank, at most 255 characters, and `correct` is true or false |
| AnswerValidation.MissingQuestionIdInvalid | models/answer.rb:7 | no question id means invalid, whatever the question type |
| AnswerValidation.TextRequired | models/answer.rb:8 | for other questions, the blank-text error occurs exactly when the text is nil or blank |
| AnswerValidation.CorrectMustBeBoolean | models/answer.rb:9 | for other questions, the flag error occurs exactly when `correct` is nil |
| AnswerValidation.TextLengthLimit | models/answer.rb:10 | for other questions, the length error occurs exactly when the text is longer than 255 characters |
| AnswerValidation.AutocompleteWaivesTextRules | models/answer.rb:8-16 | for autocomplete questions, validity depends on the question id alone |
| QuestionAnswerValidation.Errors | models/question_answer.rb:7-27 | the missing-part error and the difficulty error never occur together |
| QuestionAnswerValidation.ValidIff | models/question_answer.rb:7-27 | valid exactly when the triple is new, question and trivia are present, and their levels agree |
| QuestionAnswerValidation.MissingPartInvalid | models/question_answer.rb:23-27 | a link missing its question or its trivia is invalid |
| QuestionAnswerValidation.DifferentLevelsInvalid | models/question_answer.rb:13-19 | with both present, the difficulty error occurs exactly when the levels differ |
| QuestionAnswerValidation.DifficultyCheckNeedsBoth | models/question_answer.rb:14 | the difficulty check adds no error when question or trivia is absent |
| QuestionAnswerValidation.AnswerNotRequired | models/question_answer.rb:23-27 | the presence check does not look at the answer, although its message names it |
| QuestionAnswerValidation.Save | models/question_answer.rb:7-9 | saving keeps the stored links and appends the new one exactly when it validates; an invalid link leaves the stored links unchanged |
| QuestionAnswerValidation.SaveKeepsKeysUnique | models/question_answer.rb:7 | saving through validation never stores two links with the same (question, answer, trivia) triple |

## Left out

- Persistence (ActiveRecord, `trivia.save`, lookups by id) is left out. Tables and the id `save` assigns are parameters, and a failing save is not modelled. Reading `trivia.questions` back after `Trivia.find_by` (server.rb:63, server.rb:153) is assumed to return the questions in the order they were appended; the association declares no order.
- Randomness is left out as a distribution. `rand`, `ORDER BY RANDOM()` and `Array#shuffle` are caller-supplied draws and orders, so uniformity is not stated.
- The no-active-trivia case is left out. The server does not handle it: `@trivia` would be nil. `FetchQuestion` therefore requires that the session is bound to the trivia it is given.
- `fetch_question`'s index is a `nat`. `to_i` on the request path can give a negative index, which Ruby arrays read from the end; that is not modelled.
- Marking a question answered is left out. The answer-submission controller is not part of this model. The ordering invariant over reachable sessions is therefore not stated, only the per-request check.
- `fetch_question` reads the session and the trivia but never writes them. The model states this by its type: `FetchQuestion` returns no session.
- User lookup in `get_user_difficulty_trivia` is left out. The owner is the session's user id, taken as given.
- Rendering is left out: ERB templates, redirects as HTTP responses, CORS, mail settings, and the ranking queries of `/protected_page`.
- The claim controller is left out because it calls an external sanitiser and sends mail.
- AnswerValidation.Blank: treats only ASCII whitespace as blank. Rails' `blank?` also counts Unicode spaces, which the model does not enumerate.
- QuestionAnswerValidation.Errors: `belongs_to` presence checks are not modelled. Whether Rails adds them depends on application configuration that is not part of this model.
- QuestionAnswerValidation.SaveKeepsKeysUnique: holds for saves made one at a time. Rails checks uniqueness with a query, not a database constraint, so concurrent saves can still race.
