/**
 `Array#shuffle`, the last step of `get_questions`. Ruby shuffles by
 Fisher-Yates from the end: for i = n, n-1, ..., 1 it swaps position i-1
 with a position drawn uniformly from [0, i). The draws are supplied by the
 caller; a missing draw counts as zero.
 */
module Shuffling {
  import opened Domain

  function Swap(s: seq<Question>, i: nat, j: nat): (r: seq<Question>)
    requires i < |s| && j < |s|
    ensures |r| == |s|
    ensures multiset(r) == multiset(s)
    ensures r[i] == s[j] && r[j] == s[i]
    ensures forall k :: 0 <= k < |s| && k != i && k != j ==> r[k] == s[k]
  {
    s[i := s[j]][j := s[i]]
  }

  /** Exchanging two positions keeps identifiers distinct. */
  lemma SwapKeepsDistinctIds(s: seq<Question>, i: nat, j: nat)
    requires i < |s| && j < |s|
    requires DistinctIds(s)
    ensures DistinctIds(Swap(s, i, j))
  {
    var r := Swap(s, i, j);
    forall a, b | 0 <= a < b < |r|
      ensures r[a].id != r[b].id
    {
      var pa := if a == i then j else if a == j then i else a;
      var pb := if b == i then j else if b == j then i else b;
      assert r[a] == s[pa] && r[b] == s[pb];
      if pa < pb {
        assert s[pa].id != s[pb].id;
      } else {
        assert s[pb].id != s[pa].id;
      }
    }
  }

  /** The shuffled order of `xs` for the random draws `draws`. */
  method Shuffle(xs: seq<Question>, draws: seq<nat>) returns (r: seq<Question>)
    ensures |r| == |xs|
    ensures multiset(r) == multiset(xs)
    ensures DistinctIds(xs) ==> DistinctIds(r)
  {
    r := xs;
    var i := |r|;
    while i > 0
      invariant i <= |r| == |xs|
      invariant multiset(r) == multiset(xs)
      invariant DistinctIds(xs) ==> DistinctIds(r)
      decreases i
    {
      var step := |xs| - i;
      var draw := if step < |draws| then draws[step] else 0;
      var j := draw % i;
      if DistinctIds(r) {
        SwapKeepsDistinctIds(r, i - 1, j);
      }
      r := Swap(r, i - 1, j);
      i := i - 1;
    }
  }
}
