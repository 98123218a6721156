/** Order-preserving filtering of sequences, the shape of every boolean-mask selection in the model. */
module Sequences {

  /** `a` can be obtained from `b` by deleting elements, keeping the order of the rest. */
  predicate IsSubsequence<T(==)>(a: seq<T>, b: seq<T>)
    decreases |b|
  {
    if |a| == 0 then true
    else if |b| == 0 then false
    else (a[0] == b[0] && IsSubsequence(a[1..], b[1..])) || IsSubsequence(a, b[1..])
  }

  /** The elements of `s` satisfying `p`, in their original order (a boolean row mask). */
  function Filter<T(==)>(p: T -> bool, s: seq<T>): (r: seq<T>)
    ensures |r| <= |s|
    ensures forall i :: 0 <= i < |r| ==> r[i] in s && p(r[i])
    ensures forall i :: 0 <= i < |s| && p(s[i]) ==> s[i] in r
    ensures IsSubsequence(r, s)
    decreases |s|
  {
    if |s| == 0 then []
    else if p(s[0]) then [s[0]] + Filter(p, s[1..])
    else Filter(p, s[1..])
  }

  /**
   * Filtering keeps every copy of a selected element and no copy of another: duplicates are
   * neither merged nor dropped.
   */
  lemma {:induction false} FilterCounts<T(!new)>(p: T -> bool, s: seq<T>)
    ensures forall x :: multiset(Filter(p, s))[x] == if p(x) then multiset(s)[x] else 0
    decreases |s|
  {
    if |s| > 0 {
      FilterCounts(p, s[1..]);
      assert s == [s[0]] + s[1..];
      if p(s[0]) {
        assert Filter(p, s) == [s[0]] + Filter(p, s[1..]);
      }
    }
  }

  /** Filtering by `p` and then by `q` is filtering once by their conjunction `both`. */
  lemma {:induction false} FilterOfFilter<T>(p: T -> bool, q: T -> bool, both: T -> bool, s: seq<T>)
    requires forall x :: both(x) == (p(x) && q(x))
    ensures Filter(q, Filter(p, s)) == Filter(both, s)
    decreases |s|
  {
    if |s| > 0 {
      FilterOfFilter(p, q, both, s[1..]);
      if p(s[0]) {
        assert Filter(p, s) == [s[0]] + Filter(p, s[1..]);
        assert (Filter(p, s))[1..] == Filter(p, s[1..]);
      }
    }
  }
}
