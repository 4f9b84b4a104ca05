/**
 * Sequence utilities shared by the model: `Array.prototype.filter` as a
 * function, and the order-preserving subsequence relation it establishes.
 */
module Seqs {

  /** `a` can be obtained from `b` by deleting elements, keeping the order of the rest. */
  predicate IsSubsequence<T(==)>(a: seq<T>, b: seq<T>)
    decreases |b|
  {
    if a == [] then true
    else if b == [] then false
    else (a[0] == b[0] && IsSubsequence(a[1..], b[1..])) || IsSubsequence(a, b[1..])
  }

  /** `s.filter(keep)`: the elements of `s` that satisfy `keep`, in their original order. */
  function Filter<T>(s: seq<T>, keep: T -> bool): (r: seq<T>)
    ensures |r| <= |s|
    ensures forall i :: 0 <= i < |r| ==> keep(r[i]) && r[i] in s
    ensures forall i :: 0 <= i < |s| && keep(s[i]) ==> s[i] in r
  {
    if s == [] then []
    else if keep(s[0]) then [s[0]] + Filter(s[1..], keep)
    else Filter(s[1..], keep)
  }

  /** What `filter` keeps is an order-preserving subsequence of its input. */
  lemma {:induction false} FilterIsSubsequence<T>(s: seq<T>, keep: T -> bool)
    ensures IsSubsequence(Filter(s, keep), s)
  {
    if s != [] {
      FilterIsSubsequence(s[1..], keep);
      var rest := Filter(s[1..], keep);
      if keep(s[0]) {
        assert Filter(s, keep) == [s[0]] + rest;
        assert ([s[0]] + rest)[1..] == rest;
      } else {
        assert Filter(s, keep) == rest;
      }
    }
  }

  /** When every element passes, `filter` changes nothing. */
  lemma {:induction false} FilterKeepsAll<T>(s: seq<T>, keep: T -> bool)
    requires forall i :: 0 <= i < |s| ==> keep(s[i])
    ensures Filter(s, keep) == s
  {
    if s != [] {
      FilterKeepsAll(s[1..], keep);
      assert [s[0]] + s[1..] == s;
    }
  }

  /** Two tests that agree on every element of `s` select the same sequence. */
  lemma {:induction false} FilterAgreeing<T>(s: seq<T>, p: T -> bool, q: T -> bool)
    requires forall i :: 0 <= i < |s| ==> p(s[i]) == q(s[i])
    ensures Filter(s, p) == Filter(s, q)
  {
    if s != [] {
      FilterAgreeing(s[1..], p, q);
    }
  }
}
