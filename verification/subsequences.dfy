/** Order-preserving selections from a list: what a filtering loop or comprehension returns. */
module Subsequences {

  /** `r` is `s` with some elements left out and the rest in their original order. */
  predicate IsSubseq<T(==)>(r: seq<T>, s: seq<T>)
    decreases |s|
  {
    if r == [] then true
    else if s == [] then false
    else (r[|r| - 1] == s[|s| - 1] && IsSubseq(r[..|r| - 1], s[..|s| - 1])) || IsSubseq(r, s[..|s| - 1])
  }

  /** One more step of a filter: the next element of `s` is kept or dropped. */
  lemma SubseqExtend<T>(r: seq<T>, s: seq<T>, x: T, keep: bool)
    requires IsSubseq(r, s)
    ensures IsSubseq(r + (if keep then [x] else []), s + [x])
  {
    var s' := s + [x];
    assert s'[..|s|] == s && s'[|s'| - 1] == x;
    if keep {
      var r' := r + [x];
      assert r'[..|r|] == r && r'[|r'| - 1] == x;
      assert IsSubseq(r', s');
    } else {
      assert r + [] == r;
      assert IsSubseq(r, s');
    }
  }

  /** Every element of a subsequence is an element of the whole. */
  lemma {:induction false} SubseqMembers<T>(r: seq<T>, s: seq<T>)
    requires IsSubseq(r, s)
    ensures forall x :: x in r ==> x in s
    decreases |s|
  {
    if r != [] && s != [] {
      var r', s' := r[..|r| - 1], s[..|s| - 1];
      if r[|r| - 1] == s[|s| - 1] && IsSubseq(r', s') {
        SubseqMembers(r', s');
        assert r == r' + [r[|r| - 1]] && s == s' + [s[|s| - 1]];
      } else {
        SubseqMembers(r, s');
        assert s == s' + [s[|s| - 1]];
      }
    }
  }
}
