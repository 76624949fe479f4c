/**
 * Ordering events by start instant: `sort((a, b) => start(a) - start(b))`.
 * JavaScript's sort is stable, so events with equal starts keep their
 * relative order; the model sorts by stable insertion.
 */
module EventOrder {
  import opened Seqs
  import opened Events
  import opened Time

  predicate SortedByStart(s: seq<Event>)
  {
    forall i, j :: 0 <= i < j < |s| ==> s[i].start <= s[j].start
  }

  /** The start-instant test as the callback handed to `filter`. */
  function StartsAt(k: Instant): Event -> bool
  {
    (e: Event) => e.start == k
  }

  /** The events of `s` that start at instant `k`, in their order in `s` and as often as they occur there. */
  function StartingAt(s: seq<Event>, k: Instant): (r: seq<Event>)
    ensures forall x :: x in r <==> x in s && x.start == k
    ensures forall x {:trigger multiset(r)[x]} :: multiset(r)[x] == if x.start == k then multiset(s)[x] else 0
    ensures IsSubsequence(r, s)
  {
    FilterCount(s, StartsAt(k));
    FilterIsSubsequence(s, StartsAt(k));
    Filter(s, StartsAt(k))
  }

  /** `x` placed before the first element of `s` that does not start earlier. */
  function Insert(x: Event, s: seq<Event>): (r: seq<Event>)
    ensures multiset(r) == multiset(s) + multiset{x}
    ensures forall y :: y in r <==> y == x || y in s
  {
    if s == [] || x.start <= s[0].start then [x] + s
    else
      assert s == [s[0]] + s[1..];
      [s[0]] + Insert(x, s[1..])
  }

  lemma {:induction false} InsertSorted(x: Event, s: seq<Event>)
    requires SortedByStart(s)
    ensures SortedByStart(Insert(x, s))
  {
    if s != [] && x.start > s[0].start {
      InsertSorted(x, s[1..]);
      var r := Insert(x, s[1..]);
      forall y | y in r
        ensures s[0].start <= y.start
      {
        if y != x {
          var j :| 0 <= j < |s[1..]| && s[1..][j] == y;
          assert s[j + 1] == y;
        }
      }
      assert Insert(x, s) == [s[0]] + r;
    }
  }

  lemma StartingAtCons(a: Event, t: seq<Event>, k: Instant)
    ensures StartingAt([a] + t, k) == (if a.start == k then [a] else []) + StartingAt(t, k)
  {
    var s := [a] + t;
    assert s[0] == a && s[1..] == t;
    assert Filter(s, StartsAt(k)) == (if StartsAt(k)(a) then [a] else []) + Filter(t, StartsAt(k));
  }

  /** Insertion puts `x` ahead of the events of `s` with the same start. */
  lemma {:induction false} InsertStable(x: Event, s: seq<Event>, k: Instant)
    ensures StartingAt(Insert(x, s), k) == (if x.start == k then [x] else []) + StartingAt(s, k)
  {
    if s == [] || x.start <= s[0].start {
      StartingAtCons(x, s, k);
    } else {
      var a, t := s[0], s[1..];
      var r := Insert(x, t);
      assert Insert(x, s) == [a] + r;
      assert s == [a] + t;
      InsertStable(x, t, k);
      StartingAtCons(a, r, k);
      StartingAtCons(a, t, k);
      var mine, head, rest := (if x.start == k then [x] else []), (if a.start == k then [a] else []), StartingAt(t, k);
      assert StartingAt(Insert(x, s), k) == head + (mine + rest);
      assert StartingAt(s, k) == head + rest;
      if x.start == k {
        assert head == [];
        assert head + (mine + rest) == mine + rest;
        assert head + rest == rest;
      } else {
        assert mine == [];
        assert mine + (head + rest) == head + rest;
        assert mine + rest == rest;
      }
    }
  }

  /** The events of `s`, ordered ascending by start, ties in input order. */
  function SortByStart(s: seq<Event>): (r: seq<Event>)
    ensures SortedByStart(r)
    ensures multiset(r) == multiset(s)
  {
    if s == [] then []
    else
      var rest := SortByStart(s[1..]);
      InsertSorted(s[0], rest);
      assert s == [s[0]] + s[1..];
      assert multiset(s) == multiset{s[0]} + multiset(s[1..]);
      Insert(s[0], rest)
  }

  /** Stability: for every start instant, the events starting then keep their input order. */
  lemma {:induction false} SortStable(s: seq<Event>, k: Instant)
    ensures StartingAt(SortByStart(s), k) == StartingAt(s, k)
  {
    if s != [] {
      SortStable(s[1..], k);
      InsertStable(s[0], SortByStart(s[1..]), k);
    }
  }

  /** An already-sorted sequence is returned unchanged. */
  lemma {:induction false} SortKeepsSorted(s: seq<Event>)
    requires SortedByStart(s)
    ensures SortByStart(s) == s
  {
    if s != [] {
      SortKeepsSorted(s[1..]);
    }
  }

  /** Sorting is idempotent. */
  lemma SortIdempotent(s: seq<Event>)
    ensures SortByStart(SortByStart(s)) == SortByStart(s)
  {
    SortKeepsSorted(SortByStart(s));
  }

  /** Sorting keeps the length and the members. */
  lemma SortSameMembers(s: seq<Event>)
    ensures |SortByStart(s)| == |s|
    ensures forall x :: x in SortByStart(s) <==> x in s
  {
    var r := SortByStart(s);
    assert |multiset(r)| == |r| && |multiset(s)| == |s|;
    assert forall x :: x in r <==> x in multiset(r);
    assert forall x :: x in s <==> x in multiset(s);
  }
}
