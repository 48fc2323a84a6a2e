/**
 Records of the trivia application that the session engine reads: difficulty
 tiers, questions and their answers, trivias and the per-user session.
 Identifiers are the database's primary keys; a nil column is `None`.
 */
module Domain {

  datatype Option<+T> = None | Some(value: T)

  /** The three single-table-inheritance subclasses of Question. */
  datatype QuestionType = Choice | TrueFalse | Autocomplete

  /** A difficulty tier, identified by its `level` name. */
  datatype Difficulty = Difficulty(id: nat, level: string)

  /** The level name of the easiest tier. */
  const Beginner: string := "beginner"

  datatype Question = Question(
    id: nat,
    qtype: QuestionType,
    difficulty: Difficulty,
    text: string,
    help: Option<string>)

  datatype Answer = Answer(
    id: nat,
    questionId: Option<nat>,
    text: Option<string>,
    correct: Option<bool>)

  /** One play-through: its owner (if any), its tier and its ordered questions. */
  datatype Trivia = Trivia(
    id: nat,
    userId: Option<nat>,
    difficulty: Difficulty,
    questions: seq<Question>)

  /** The server-side session: current user, active trivia and the answered indices. */
  datatype Session = Session(
    userId: Option<nat>,
    triviaId: Option<nat>,
    answered: seq<nat>)

  /** No question identifier occurs twice in `qs`. */
  predicate DistinctIds(qs: seq<Question>) {
    forall i, j :: 0 <= i < j < |qs| ==> qs[i].id != qs[j].id
  }

  function Min(a: int, b: int): int {
    if a <= b then a else b
  }

  function Max(a: int, b: int): int {
    if a >= b then a else b
  }

  /** In a sequence with distinct identifiers, an identifier names one question. */
  lemma SameIdSameQuestion(qs: seq<Question>, p: Question, q: Question)
    requires DistinctIds(qs)
    requires p in qs && q in qs
    requires p.id == q.id
    ensures p == q
  {
    var i :| 0 <= i < |qs| && qs[i] == p;
    var j :| 0 <= j < |qs| && qs[j] == q;
    assert i == j;
  }

  /** With distinct identifiers, no question occurs twice. */
  lemma {:induction false} DistinctIdsOccurOnce(qs: seq<Question>, x: Question)
    requires DistinctIds(qs)
    ensures multiset(qs)[x] <= 1
    decreases |qs|
  {
    if |qs| > 0 {
      var init := qs[..|qs| - 1];
      assert qs == init + [qs[|qs| - 1]];
      assert DistinctIds(init);
      DistinctIdsOccurOnce(init, x);
    }
  }

  /** Reordering a sequence keeps its identifiers distinct. */
  lemma DistinctIdsPermutation(a: seq<Question>, b: seq<Question>)
    requires multiset(a) == multiset(b)
    requires DistinctIds(b)
    ensures DistinctIds(a)
  {
    forall i, j | 0 <= i < j < |a|
      ensures a[i].id != a[j].id
    {
      if a[i].id == a[j].id {
        assert a[i] in multiset(b) && a[j] in multiset(b);
        SameIdSameQuestion(b, a[i], a[j]);
        var x := a[i];
        assert a == a[..j] + [x] + a[j + 1..];
        assert x in a[..j];
        assert multiset(a)[x] >= 2;
        DistinctIdsOccurOnce(b, x);
      }
    }
  }
}
