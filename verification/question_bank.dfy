/**
 The question bank query of `random_questions`:
 `difficulty.questions.where(type: t).order('RANDOM()').limit(n)`.

 The random order is an input: `ordered` is the question table in the order
 `ORDER BY RANDOM()` put it. Selection keeps that order, and `limit` keeps
 the first `n` rows.
 */
module QuestionBank {
  import opened Domain

  /** The row belongs to the given difficulty and has the given type. */
  predicate Matches(q: Question, qtype: QuestionType, d: Difficulty) {
    q.qtype == qtype && q.difficulty.id == d.id
  }

  /** The rows the `where` clauses keep, in the order of `rows`. */
  function Select(rows: seq<Question>, qtype: QuestionType, d: Difficulty): (r: seq<Question>)
    ensures |r| <= |rows|
    ensures forall q :: q in r ==> q in rows && Matches(q, qtype, d)
    ensures forall q :: q in rows && Matches(q, qtype, d) ==> q in r
    decreases |rows|
  {
    if |rows| == 0 then []
    else
      var rest := Select(rows[1..], qtype, d);
      if Matches(rows[0], qtype, d) then [rows[0]] + rest else rest
  }

  /** How many rows of the table match the type and difficulty. */
  function Available(rows: seq<Question>, qtype: QuestionType, d: Difficulty): nat {
    |Select(rows, qtype, d)|
  }

  /** `random_questions(count, qtype, d)` over the randomly ordered table. */
  function RandomQuestions(ordered: seq<Question>, count: nat, qtype: QuestionType, d: Difficulty): (r: seq<Question>)
    ensures |r| == Min(count, Available(ordered, qtype, d))
    ensures forall q :: q in r ==> q in ordered && Matches(q, qtype, d)
    ensures |r| < count ==> r == Select(ordered, qtype, d)
    ensures DistinctIds(ordered) ==> DistinctIds(r)
  {
    var all := Select(ordered, qtype, d);
    SelectKeepsDistinctIds(ordered, qtype, d);
    all[..Min(count, |all|)]
  }

  lemma {:induction false} SelectConcat(a: seq<Question>, b: seq<Question>, qtype: QuestionType, d: Difficulty)
    ensures Select(a + b, qtype, d) == Select(a, qtype, d) + Select(b, qtype, d)
    decreases |a|
  {
    if |a| == 0 {
      assert a + b == b;
    } else {
      assert (a + b)[1..] == a[1..] + b;
      SelectConcat(a[1..], b, qtype, d);
    }
  }

  /** Selection only drops rows, so it keeps identifiers distinct. */
  lemma {:induction false} SelectKeepsDistinctIds(rows: seq<Question>, qtype: QuestionType, d: Difficulty)
    ensures DistinctIds(rows) ==> DistinctIds(Select(rows, qtype, d))
    decreases |rows|
  {
    if |rows| > 0 && DistinctIds(rows) {
      var rest := Select(rows[1..], qtype, d);
      assert DistinctIds(rows[1..]);
      SelectKeepsDistinctIds(rows[1..], qtype, d);
      if Matches(rows[0], qtype, d) {
        var r := [rows[0]] + rest;
        forall i, j | 0 <= i < j < |r|
          ensures r[i].id != r[j].id
        {
          if i == 0 {
            assert r[j] in rows[1..];
            var k :| 0 <= k < |rows[1..]| && rows[1..][k] == r[j];
            assert rows[0].id != rows[k + 1].id;
          } else {
            assert r[i] == rest[i - 1] && r[j] == rest[j - 1];
          }
        }
      }
    }
  }

  /**
   The number of matching rows does not depend on the order of the table:
   any two orderings of the same rows select equally many.
   */
  lemma {:induction false} SelectCountPermutation(a: seq<Question>, b: seq<Question>, qtype: QuestionType, d: Difficulty)
    requires multiset(a) == multiset(b)
    ensures Available(a, qtype, d) == Available(b, qtype, d)
    decreases |a|
  {
    if |a| == 0 {
      assert |multiset(b)| == 0;
    } else {
      var x := a[0];
      assert x in multiset(b);
      var k :| 0 <= k < |b| && b[k] == x;
      var rest := RemoveAt(a, b, k);
      SelectCountPermutation(a[1..], rest, qtype, d);
      assert a == [x] + a[1..];
      SelectConcat([x], a[1..], qtype, d);
      SelectCountRemoveAt(b, k, qtype, d);
    }
  }

  /** Taking the first element off `a` and its copy at `k` off `b` keeps the multisets equal. */
  lemma RemoveAt(a: seq<Question>, b: seq<Question>, k: nat) returns (rest: seq<Question>)
    requires multiset(a) == multiset(b)
    requires 0 < |a| && k < |b| && b[k] == a[0]
    ensures rest == b[..k] + b[k + 1..]
    ensures multiset(a[1..]) == multiset(rest)
  {
    rest := b[..k] + b[k + 1..];
    assert a == [a[0]] + a[1..];
    assert b == b[..k] + [b[k]] + b[k + 1..];
    assert multiset(a[1..]) == multiset(a) - multiset{a[0]};
    assert multiset(rest) == multiset(b) - multiset{b[k]};
  }

  /** Removing the row at `k` removes its own contribution to the count and nothing else. */
  lemma SelectCountRemoveAt(b: seq<Question>, k: nat, qtype: QuestionType, d: Difficulty)
    requires k < |b|
    ensures Available(b, qtype, d) == Available([b[k]], qtype, d) + Available(b[..k] + b[k + 1..], qtype, d)
  {
    assert b == b[..k] + [b[k]] + b[k + 1..];
    SelectConcat(b[..k] + [b[k]], b[k + 1..], qtype, d);
    SelectConcat(b[..k], [b[k]], qtype, d);
    SelectConcat(b[..k], b[k + 1..], qtype, d);
  }

  /**
   Whatever order `ORDER BY RANDOM()` chose, the query returns
   `min(count, matching rows of the bank)` questions.
   */
  lemma RandomQuestionsCount(ordered: seq<Question>, bank: seq<Question>, count: nat, qtype: QuestionType, d: Difficulty)
    requires multiset(ordered) == multiset(bank)
    ensures |RandomQuestions(ordered, count, qtype, d)| == Min(count, Available(bank, qtype, d))
  {
    SelectCountPermutation(ordered, bank, qtype, d);
  }

  /** Rows that all match are all selected, in order. */
  lemma {:induction false} SelectAllMatching(rows: seq<Question>, qtype: QuestionType, d: Difficulty)
    requires forall q :: q in rows ==> Matches(q, qtype, d)
    ensures Select(rows, qtype, d) == rows
    decreases |rows|
  {
    if |rows| > 0 {
      assert forall q :: q in rows[1..] ==> q in rows;
      SelectAllMatching(rows[1..], qtype, d);
      assert rows == [rows[0]] + rows[1..];
    }
  }

  /** Rows none of which match select nothing. */
  lemma SelectNoneMatching(rows: seq<Question>, qtype: QuestionType, d: Difficulty)
    requires forall q :: q in rows ==> !Matches(q, qtype, d)
    ensures Select(rows, qtype, d) == []
  {
  }
}
