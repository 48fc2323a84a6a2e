/**
 Trivia set-up (`TriviaController`): plan the mix, draw each group from the
 bank, shuffle, append to the trivia, and seed the session.

 Persistence is left to the caller: `newId` is the identifier `trivia.save`
 assigns, and `bank` is the question table.
 */
module TriviaBuilder {
  import opened Domain
  import opened QuestionBank
  import opened MixPlanner
  import opened Shuffling
  import Delivery

  /**
   The random inputs of one set-up: the two `rand` draws of the planner, the
   order `ORDER BY RANDOM()` gave the table in each of the three queries, and
   the draws of `Array#shuffle`.
   */
  datatype Randomness = Randomness(
    choiceDraw: nat,
    trueFalseDraw: nat,
    choiceOrder: seq<Question>,
    trueFalseOrder: seq<Question>,
    autocompleteOrder: seq<Question>,
    shuffleDraws: seq<nat>)

  /** Each query saw every row of the bank, in some order. */
  predicate OrdersOf(rnd: Randomness, bank: seq<Question>) {
    && multiset(rnd.choiceOrder) == multiset(bank)
    && multiset(rnd.trueFalseOrder) == multiset(bank)
    && multiset(rnd.autocompleteOrder) == multiset(bank)
  }

  datatype SetupError = DifficultyNotFound

  datatype Result<+T> = Success(value: T) | Failure(error: SetupError)

  /** The trivia and session `setup_trivia` leaves behind. */
  datatype Started = Started(trivia: Trivia, session: Session)

  /** No identifier of `xs` occurs in `ys`. */
  predicate DisjointIds(xs: seq<Question>, ys: seq<Question>) {
    forall i, j :: 0 <= i < |xs| && 0 <= j < |ys| ==> xs[i].id != ys[j].id
  }

  lemma ConcatKeepsDistinctIds(xs: seq<Question>, ys: seq<Question>)
    requires DistinctIds(xs) && DistinctIds(ys) && DisjointIds(xs, ys)
    ensures DistinctIds(xs + ys)
  {
    var s := xs + ys;
    forall i, j | 0 <= i < j < |s|
      ensures s[i].id != s[j].id
    {
      if j < |xs| {
        assert s[i] == xs[i] && s[j] == xs[j];
      } else if i < |xs| {
        assert s[i] == xs[i] && s[j] == ys[j - |xs|];
      } else {
        assert s[i] == ys[i - |xs|] && s[j] == ys[j - |xs|];
      }
    }
  }

  /**
   Questions of two different types drawn from a bank with distinct
   identifiers never share an identifier.
   */
  lemma DifferentTypesDisjoint(bank: seq<Question>, xs: seq<Question>, ys: seq<Question>)
    requires DistinctIds(bank)
    requires forall q :: q in xs ==> q in bank
    requires forall q :: q in ys ==> q in bank
    requires forall p, q :: p in xs && q in ys ==> p.qtype != q.qtype
    ensures DisjointIds(xs, ys)
  {
    forall i, j | 0 <= i < |xs| && 0 <= j < |ys|
      ensures xs[i].id != ys[j].id
    {
      assert xs[i] in xs && ys[j] in ys;
      if xs[i].id == ys[j].id {
        SameIdSameQuestion(bank, xs[i], ys[j]);
      }
    }
  }

  /**
   In any order of three groups, each of a different type at difficulty `d`,
   each type occurs as often as its group is long.
   */
  lemma GroupCount(c: seq<Question>, t: seq<Question>, a: seq<Question>, qs: seq<Question>, d: Difficulty)
    requires forall q :: q in c ==> Matches(q, Choice, d)
    requires forall q :: q in t ==> Matches(q, TrueFalse, d)
    requires forall q :: q in a ==> Matches(q, Autocomplete, d)
    requires multiset(qs) == multiset(c + t + a)
    ensures Available(qs, Choice, d) == |c|
    ensures Available(qs, TrueFalse, d) == |t|
    ensures Available(qs, Autocomplete, d) == |a|
  {
    SelectCountPermutation(qs, c + t + a, Choice, d);
    SelectCountPermutation(qs, c + t + a, TrueFalse, d);
    SelectCountPermutation(qs, c + t + a, Autocomplete, d);
    SelectConcat(c + t, a, Choice, d);
    SelectConcat(c + t, a, TrueFalse, d);
    SelectConcat(c + t, a, Autocomplete, d);
    SelectConcat(c, t, Choice, d);
    SelectConcat(c, t, TrueFalse, d);
    SelectConcat(c, t, Autocomplete, d);
    SelectAllMatching(c, Choice, d);
    SelectNoneMatching(t, Choice, d);
    SelectNoneMatching(a, Choice, d);
    SelectNoneMatching(c, TrueFalse, d);
    SelectAllMatching(t, TrueFalse, d);
    SelectNoneMatching(a, TrueFalse, d);
    SelectNoneMatching(c, Autocomplete, d);
    SelectNoneMatching(t, Autocomplete, d);
    SelectAllMatching(a, Autocomplete, d);
  }

  /**
   The three groups drawn from orderings of a bank with distinct identifiers,
   one per type, together repeat no identifier.
   */
  lemma GroupsKeepDistinctIds(bank: seq<Question>, rnd: Randomness, c: seq<Question>, t: seq<Question>, a: seq<Question>)
    requires OrdersOf(rnd, bank) && DistinctIds(bank)
    requires forall q :: q in c ==> q in rnd.choiceOrder && q.qtype == Choice
    requires forall q :: q in t ==> q in rnd.trueFalseOrder && q.qtype == TrueFalse
    requires forall q :: q in a ==> q in rnd.autocompleteOrder && q.qtype == Autocomplete
    requires DistinctIds(rnd.choiceOrder) ==> DistinctIds(c)
    requires DistinctIds(rnd.trueFalseOrder) ==> DistinctIds(t)
    requires DistinctIds(rnd.autocompleteOrder) ==> DistinctIds(a)
    ensures DistinctIds(c + t + a)
  {
    assert forall q :: q in c ==> q in multiset(rnd.choiceOrder);
    assert forall q :: q in t ==> q in multiset(rnd.trueFalseOrder);
    assert forall q :: q in a ==> q in multiset(rnd.autocompleteOrder);
    DistinctIdsPermutation(rnd.choiceOrder, bank);
    DistinctIdsPermutation(rnd.trueFalseOrder, bank);
    DistinctIdsPermutation(rnd.autocompleteOrder, bank);
    DifferentTypesDisjoint(bank, c, t);
    ConcatKeepsDistinctIds(c, t);
    DifferentTypesDisjoint(bank, c + t, a);
    ConcatKeepsDistinctIds(c + t, a);
  }

  /** Every question of the three groups is a row of the bank at difficulty `d`. */
  lemma GroupsFromBank(bank: seq<Question>, rnd: Randomness, d: Difficulty, c: seq<Question>, t: seq<Question>, a: seq<Question>)
    requires OrdersOf(rnd, bank)
    requires forall q :: q in c ==> q in rnd.choiceOrder && Matches(q, Choice, d)
    requires forall q :: q in t ==> q in rnd.trueFalseOrder && Matches(q, TrueFalse, d)
    requires forall q :: q in a ==> q in rnd.autocompleteOrder && Matches(q, Autocomplete, d)
    ensures forall q :: q in c + t + a ==> q in bank && q.difficulty.id == d.id
  {
    assert forall q :: q in c ==> q in multiset(rnd.choiceOrder);
    assert forall q :: q in t ==> q in multiset(rnd.trueFalseOrder);
    assert forall q :: q in a ==> q in multiset(rnd.autocompleteOrder);
  }

  /** The three `random_questions` groups of the mix, concatenated before the shuffle. */
  function Groups(mix: Mix, d: Difficulty, rnd: Randomness): seq<Question> {
    RandomQuestions(rnd.choiceOrder, mix.choice, Choice, d)
    + RandomQuestions(rnd.trueFalseOrder, mix.trueFalse, TrueFalse, d)
    + RandomQuestions(rnd.autocompleteOrder, mix.autocomplete, Autocomplete, d)
  }

  /** Each type contributes `min(planned, available in the bank)` questions to `qs`. */
  predicate PlannedCounts(qs: seq<Question>, mix: Mix, bank: seq<Question>, d: Difficulty) {
    && Available(qs, Choice, d) == Min(mix.choice, Available(bank, Choice, d))
    && Available(qs, TrueFalse, d) == Min(mix.trueFalse, Available(bank, TrueFalse, d))
    && Available(qs, Autocomplete, d) == Min(mix.autocomplete, Available(bank, Autocomplete, d))
  }

  /**
   `get_questions(choice, trueFalse, autocomplete, d)`: the three groups,
   concatenated and shuffled.
   */
  method GetQuestions(mix: Mix, d: Difficulty, bank: seq<Question>, rnd: Randomness) returns (qs: seq<Question>)
    requires OrdersOf(rnd, bank)
    ensures multiset(qs) == multiset(Groups(mix, d, rnd))
    ensures |qs| == Min(mix.choice, Available(bank, Choice, d))
                    + Min(mix.trueFalse, Available(bank, TrueFalse, d))
                    + Min(mix.autocomplete, Available(bank, Autocomplete, d))
    ensures PlannedCounts(qs, mix, bank, d)
    ensures forall q :: q in qs ==> q in bank && q.difficulty.id == d.id
    ensures DistinctIds(bank) ==> DistinctIds(qs)
  {
    var choices := RandomQuestions(rnd.choiceOrder, mix.choice, Choice, d);
    var trueFalses := RandomQuestions(rnd.trueFalseOrder, mix.trueFalse, TrueFalse, d);
    var autocompletes := RandomQuestions(rnd.autocompleteOrder, mix.autocomplete, Autocomplete, d);
    var all := choices + trueFalses + autocompletes;
    RandomQuestionsCount(rnd.choiceOrder, bank, mix.choice, Choice, d);
    RandomQuestionsCount(rnd.trueFalseOrder, bank, mix.trueFalse, TrueFalse, d);
    RandomQuestionsCount(rnd.autocompleteOrder, bank, mix.autocomplete, Autocomplete, d);
    GroupsFromBank(bank, rnd, d, choices, trueFalses, autocompletes);
    if DistinctIds(bank) {
      GroupsKeepDistinctIds(bank, rnd, choices, trueFalses, autocompletes);
    }

    qs := Shuffle(all, rnd.shuffleDraws);

    GroupCount(choices, trueFalses, autocompletes, qs, d);
    assert forall q :: q in qs ==> q in multiset(all);
  }

  /** The questions `after` holds beyond its first `|before|`: what was appended to `before`. */
  function Appended(before: seq<Question>, after: seq<Question>): seq<Question> {
    if |before| <= |after| then after[|before|..] else []
  }

  /**
   `setup_standard_trivia(trivia, d)`: plan the mix for the tier, assemble the
   questions, and append them after the trivia's existing ones.
   */
  method SetupStandardTrivia(trivia: Trivia, d: Difficulty, bank: seq<Question>, rnd: Randomness) returns (t: Trivia)
    requires OrdersOf(rnd, bank)
    ensures t.id == trivia.id && t.userId == trivia.userId && t.difficulty == trivia.difficulty
    ensures trivia.questions <= t.questions
    ensures var added := Appended(trivia.questions, t.questions);
            && |added| <= TotalQuestions
            && (forall q :: q in added ==> q in bank && q.difficulty.id == d.id)
            && (DistinctIds(bank) ==> DistinctIds(added))
    ensures var m := GetQuestionsCount(d.level, rnd.choiceDraw, rnd.trueFalseDraw);
            |t.questions| - |trivia.questions|
            == Min(m.choice, Available(bank, Choice, d))
               + Min(m.trueFalse, Available(bank, TrueFalse, d))
               + Min(m.autocomplete, Available(bank, Autocomplete, d))
    ensures var m := GetQuestionsCount(d.level, rnd.choiceDraw, rnd.trueFalseDraw);
            var added := Appended(trivia.questions, t.questions);
            && multiset(added) == multiset(Groups(m, d, rnd))
            && PlannedCounts(added, m, bank, d)
    ensures (forall qt :: Available(bank, qt, d) >= 6) ==> |t.questions| == |trivia.questions| + TotalQuestions
  {
    var mix := GetQuestionsCount(d.level, rnd.choiceDraw, rnd.trueFalseDraw);
    var questions := GetQuestions(mix, d, bank, rnd);
    t := trivia.(questions := trivia.questions + questions);
    assert Appended(trivia.questions, t.questions) == questions;
  }

  /**
   `finalize_trivia_setup(trivia, session)`: the session now tracks this
   trivia, with nothing answered yet.
   */
  function FinalizeTriviaSetup(trivia: Trivia, session: Session): (s: Session)
    ensures s.triviaId == Some(trivia.id)
    ensures s.answered == []
    ensures s.userId == session.userId
  {
    session.(triviaId := Some(trivia.id), answered := [])
  }

  /**
   A freshly seeded session admits the first question and nothing else:
   every later index is refused as out of order.
   */
  lemma FreshSessionStartsAtFirstQuestion(trivia: Trivia, session: Session, answerTable: seq<Answer>, index: nat, limits: Delivery.TimeLimits)
    ensures var s := FinalizeTriviaSetup(trivia, session);
            Delivery.FetchQuestion(trivia, answerTable, s, index, limits) == Delivery.Unanswered <==> index > 0
  {
  }

  /** `Difficulty.find_by(level: level)`: the first tier with that level name. */
  function FindDifficulty(difficulties: seq<Difficulty>, level: string): (r: Option<Difficulty>)
    ensures r.Some? ==> r.value in difficulties && r.value.level == level
    ensures r.Some? ==> exists k :: 0 <= k < |difficulties| && difficulties[k] == r.value
                                    && forall j :: 0 <= j < k ==> difficulties[j].level != level
    ensures r.None? <==> forall d :: d in difficulties ==> d.level != level
    decreases |difficulties|
  {
    if |difficulties| == 0 then None
    else if difficulties[0].level == level then Some(difficulties[0])
    else FindDifficulty(difficulties[1..], level)
  }

  /**
   `setup_trivia`: a new trivia for the session's user at the requested
   level, filled with a fresh question set, and the session seeded for it.
   An unknown level is `DifficultyNotFound`.
   */
  method SetupTrivia(session: Session, level: string, difficulties: seq<Difficulty>, newId: nat, bank: seq<Question>, rnd: Randomness)
    returns (r: Result<Started>)
    requires OrdersOf(rnd, bank)
    ensures r.Failure? <==> forall d :: d in difficulties ==> d.level != level
    ensures r.Success? ==>
              var t := r.value.trivia;
              && t.id == newId
              && t.userId == session.userId
              && t.difficulty in difficulties
              && t.difficulty.level == level
              && |t.questions| <= TotalQuestions
              && (forall q :: q in t.questions ==> q in bank && q.difficulty.id == t.difficulty.id)
              && (DistinctIds(bank) ==> DistinctIds(t.questions))
    ensures r.Success? ==>
              var t := r.value.trivia;
              var d := t.difficulty;
              var m := GetQuestionsCount(level, rnd.choiceDraw, rnd.trueFalseDraw);
              && |t.questions| == Min(m.choice, Available(bank, Choice, d))
                                  + Min(m.trueFalse, Available(bank, TrueFalse, d))
                                  + Min(m.autocomplete, Available(bank, Autocomplete, d))
              && multiset(t.questions) == multiset(Groups(m, d, rnd))
              && PlannedCounts(t.questions, m, bank, d)
              && ((forall qt :: Available(bank, qt, d) >= 6) ==> |t.questions| == TotalQuestions)
    ensures r.Success? ==> r.value.session == FinalizeTriviaSetup(r.value.trivia, session)
  {
    var found := FindDifficulty(difficulties, level);
    if found.None? {
      return Failure(DifficultyNotFound);
    }
    var d := found.value;
    var trivia := Trivia(newId, session.userId, d, []);
    trivia := SetupStandardTrivia(trivia, d, bank, rnd);
    assert trivia.questions == trivia.questions[0..];
    r := Success(Started(trivia, FinalizeTriviaSetup(trivia, session)));
  }
}
