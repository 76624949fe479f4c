/**
 * Order-preserving selection over sequences: the model of JavaScript's
 * `Array.prototype.filter`, which every list view of the dashboard uses.
 */
module Seqs {

  /** `a` can be obtained from `b` by deleting elements; the survivors keep their order. */
  predicate IsSubsequence<T(==, !new)>(a: seq<T>, b: seq<T>)
    decreases |b|
  {
    a == [] ||
    (b != [] && ((a[0] == b[0] && IsSubsequence(a[1..], b[1..])) || IsSubsequence(a, b[1..])))
  }

  /**
   * The elements of `s` that satisfy `p`, in their original order. A fresh
   * sequence: `s` itself is a value and cannot change.
   */
  function Filter<T(==, !new)>(s: seq<T>, p: T -> bool): (r: seq<T>)
    ensures forall x {:trigger x in r} :: x in r <==> x in s && p(x)
  {
    if s == [] then []
    else
      var rest := Filter(s[1..], p);
      assert s == [s[0]] + s[1..];
      if p(s[0]) then [s[0]] + rest else rest
  }

  /** Each element that passes is kept as often as it occurs in `s`; the others not at all. */
  lemma {:induction false} FilterCount<T(!new)>(s: seq<T>, p: T -> bool)
    ensures forall x :: multiset(Filter(s, p))[x] == if p(x) then multiset(s)[x] else 0
  {
    if s != [] {
      FilterCount(s[1..], p);
      assert s == [s[0]] + s[1..];
    }
  }

  /** The survivors keep their relative order. */
  lemma {:induction false} FilterIsSubsequence<T(!new)>(s: seq<T>, p: T -> bool)
    ensures IsSubsequence(Filter(s, p), s)
  {
    if s != [] {
      FilterIsSubsequence(s[1..], p);
    }
  }

  /** One step of a filter over a suffix: the element at `i` is kept or dropped, then the rest follows. */
  lemma FilterStep<T(!new)>(s: seq<T>, p: T -> bool, i: nat)
    requires i < |s|
    ensures Filter(s[i..], p) == (if p(s[i]) then [s[i]] else []) + Filter(s[i + 1..], p)
  {
    assert s[i..][1..] == s[i + 1..];
  }

  /** A run of elements that all fail the predicate contributes nothing. */
  lemma {:induction false} FilterSkip<T(!new)>(s: seq<T>, p: T -> bool, i: nat, j: nat)
    requires i <= j <= |s|
    requires forall k :: i <= k < j ==> !p(s[k])
    ensures Filter(s[i..], p) == Filter(s[j..], p)
    decreases j - i
  {
    if i < j {
      FilterStep(s, p, i);
      FilterSkip(s, p, i + 1, j);
    }
  }

  /** A prefix whose elements all pass the predicate is kept whole, in front. */
  lemma {:induction false} FilterKeepsPrefix<T(!new)>(a: seq<T>, b: seq<T>, p: T -> bool)
    requires forall k :: 0 <= k < |a| ==> p(a[k])
    ensures Filter(a + b, p) == a + Filter(b, p)
  {
    if a != [] {
      assert (a + b)[0] == a[0] && (a + b)[1..] == a[1..] + b;
      FilterKeepsPrefix(a[1..], b, p);
      var rest := Filter(b, p);
      assert Filter(a + b, p) == [a[0]] + (a[1..] + rest);
      assert [a[0]] + (a[1..] + rest) == ([a[0]] + a[1..]) + rest;
      assert [a[0]] + a[1..] == a;
    } else {
      assert a + b == b;
    }
  }

  /**
   * A filter that fails before index `i`, passes on `[i, j)` and fails from
   * `j` on returns exactly the slice `s[i..j]`.
   */
  lemma {:induction false} FilterIsSlice<T(!new)>(s: seq<T>, p: T -> bool, i: nat, j: nat)
    requires i <= j <= |s|
    requires forall k :: 0 <= k < i ==> !p(s[k])
    requires forall k :: i <= k < j ==> p(s[k])
    requires forall k :: j <= k < |s| ==> !p(s[k])
    ensures Filter(s, p) == s[i..j]
  {
    if s != [] {
      var t := s[1..];
      if i > 0 {
        FilterIsSlice(t, p, i - 1, j - 1);
        assert t[i - 1..j - 1] == s[i..j];
      } else if j > 0 {
        FilterIsSlice(t, p, 0, j - 1);
        assert s[..j] == [s[0]] + t[..j - 1];
      } else {
        FilterIsSlice(t, p, 0, 0);
      }
    }
  }

  /** A filter whose predicate holds of every element keeps the whole sequence. */
  lemma {:induction false} FilterKeepsAll<T(!new)>(s: seq<T>, p: T -> bool)
    requires forall x :: x in s ==> p(x)
    ensures Filter(s, p) == s
  {
    if s != [] {
      FilterKeepsAll(s[1..], p);
    }
  }

  /** Filtering with two predicates that agree on the elements of `s` gives the same result. */
  lemma {:induction false} FilterCongruent<T(!new)>(s: seq<T>, p: T -> bool, q: T -> bool)
    requires forall x :: x in s ==> p(x) == q(x)
    ensures Filter(s, p) == Filter(s, q)
  {
    if s != [] {
      FilterCongruent(s[1..], p, q);
    }
  }

  /** The result is empty exactly when no element satisfies the predicate. */
  lemma FilterEmptyIff<T(!new)>(s: seq<T>, p: T -> bool)
    ensures Filter(s, p) == [] <==> forall x :: x in s ==> !p(x)
  {
    if Filter(s, p) != [] {
      assert Filter(s, p)[0] in Filter(s, p);
    }
  }
}
