/**
 The question-mix planner `get_questions_count`: how many choice,
 true/false and autocomplete questions a new trivia draws.

 `rand(lo..hi)` is modelled by a caller-supplied raw draw reduced into the
 range, so every draw yields a value of the range and every value of the
 range is some draw's.
 */
module MixPlanner {
  import opened Domain

  /** The number of questions a trivia is meant to have. */
  const TotalQuestions: int := 10

  datatype Mix = Mix(choice: nat, trueFalse: nat, autocomplete: nat)

  /** The inclusive bounds `rand` draws the choice count from. */
  function ChoiceRange(level: string): (int, int) {
    if level == Beginner then (3, 6) else (2, 5)
  }

  /** The inclusive bounds `rand` draws the true/false count from. */
  function TrueFalseRange(level: string): (int, int) {
    if level == Beginner then (3, 4) else (2, 4)
  }

  /** `rand(lo..hi)` for the raw random draw `draw`. */
  function RandIn(lo: int, hi: int, draw: nat): (r: int)
    requires lo <= hi
    ensures lo <= r <= hi
  {
    lo + draw % (hi - lo + 1)
  }

  /** Every value of the range is produced by some draw. */
  lemma RandInReachesEveryValue(lo: int, hi: int, v: int)
    requires lo <= v <= hi
    ensures RandIn(lo, hi, v - lo) == v
  {
    assert (v - lo) % (hi - lo + 1) == v - lo;
  }

  /** The autocomplete count: what is left of ten, clamped at zero. */
  function AutocompleteCount(choice: int, trueFalse: int): (a: nat)
    ensures choice + trueFalse <= TotalQuestions ==> choice + trueFalse + a == TotalQuestions
    ensures choice + trueFalse > TotalQuestions ==> a == 0
  {
    Max(TotalQuestions - choice - trueFalse, 0)
  }

  /** `get_questions_count(level)` for the two raw draws of `rand`. */
  function GetQuestionsCount(level: string, choiceDraw: nat, trueFalseDraw: nat): (m: Mix)
    ensures level == Beginner ==> 3 <= m.choice <= 6 && 3 <= m.trueFalse <= 4
    ensures level != Beginner ==> 2 <= m.choice <= 5 && 2 <= m.trueFalse <= 4
    ensures m.choice + m.trueFalse + m.autocomplete == TotalQuestions
    ensures m.autocomplete <= 6
  {
    var (cLo, cHi) := ChoiceRange(level);
    var (tLo, tHi) := TrueFalseRange(level);
    var choice := RandIn(cLo, cHi, choiceDraw);
    var trueFalse := RandIn(tLo, tHi, trueFalseDraw);
    Mix(choice, trueFalse, AutocompleteCount(choice, trueFalse))
  }

  /**
   For every pair of counts the two ranges allow, choice and true/false leave
   a non-negative remainder, so the clamp at zero never fires and the three
   counts add up to ten.
   */
  lemma ClampNeverActive(level: string, choice: int, trueFalse: int)
    requires ChoiceRange(level).0 <= choice <= ChoiceRange(level).1
    requires TrueFalseRange(level).0 <= trueFalse <= TrueFalseRange(level).1
    ensures TotalQuestions - choice - trueFalse >= 0
    ensures choice + trueFalse + AutocompleteCount(choice, trueFalse) == TotalQuestions
  {
  }

  /**
   The clamp only keeps the count non-negative: were the ranges widened so
   that choice and true/false exceed ten, the mix would hold more than ten.
   */
  lemma ClampOverflowsTotal(choice: nat, trueFalse: nat)
    ensures choice + trueFalse + AutocompleteCount(choice, trueFalse) == TotalQuestions
            <==> choice + trueFalse <= TotalQuestions
  {
  }

  /** Every count the ranges allow is the outcome of some pair of draws. */
  lemma EveryMixInRangeIsPlanned(level: string, choice: int, trueFalse: int)
    requires ChoiceRange(level).0 <= choice <= ChoiceRange(level).1
    requires TrueFalseRange(level).0 <= trueFalse <= TrueFalseRange(level).1
    ensures GetQuestionsCount(level, choice - ChoiceRange(level).0, trueFalse - TrueFalseRange(level).0)
            == Mix(choice, trueFalse, TotalQuestions - choice - trueFalse)
  {
    if level == Beginner {
      RandInReachesEveryValue(3, 6, choice);
      RandInReachesEveryValue(3, 4, trueFalse);
    } else {
      RandInReachesEveryValue(2, 5, choice);
      RandInReachesEveryValue(2, 4, trueFalse);
    }
  }
}
