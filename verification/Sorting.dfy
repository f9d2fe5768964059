/** The stable insertion sort that stands for the source's library sorts, over
    any total order of keys. */
module Sorting {
  ghost predicate TotalOrder<T(!new)>(leq: (T, T) -> bool) {
    && (forall a, b :: leq(a, b) || leq(b, a))
    && (forall a, b, c :: leq(a, b) && leq(b, c) ==> leq(a, c))
  }

  predicate Sorted<T>(s: seq<T>, leq: (T, T) -> bool) {
    forall j, k :: 0 <= j < k < |s| ==> leq(s[j], s[k])
  }

  /** Inserting from the right puts an element behind its equals. */
  function Insert<T>(s: seq<T>, x: T, leq: (T, T) -> bool): (r: seq<T>)
    ensures |r| == |s| + 1
  {
    if s == [] || leq(s[|s| - 1], x) then s + [x]
    else Insert(s[..|s| - 1], x, leq) + [s[|s| - 1]]
  }

  function Sort<T>(s: seq<T>, leq: (T, T) -> bool): (r: seq<T>)
    ensures |r| == |s|
  {
    if s == [] then [] else Insert(Sort(s[..|s| - 1], leq), s[|s| - 1], leq)
  }

  /** The elements that a test keeps, in their order. */
  function Filter<T>(s: seq<T>, keep: T -> bool): seq<T> {
    if s == [] then []
    else Filter(s[..|s| - 1], keep) + (if keep(s[|s| - 1]) then [s[|s| - 1]] else [])
  }

  lemma FilterSnoc<T>(s: seq<T>, x: T, keep: T -> bool)
    ensures Filter(s + [x], keep) == Filter(s, keep) + (if keep(x) then [x] else [])
  {
    assert (s + [x])[..|s|] == s;
  }

  lemma {:induction false} InsertBounded<T>(s: seq<T>, x: T, leq: (T, T) -> bool, bound: T)
    requires leq(x, bound) && forall k :: 0 <= k < |s| ==> leq(s[k], bound)
    ensures forall k :: 0 <= k < |Insert(s, x, leq)| ==> leq(Insert(s, x, leq)[k], bound)
  {
    if s != [] && !leq(s[|s| - 1], x) {
      InsertBounded(s[..|s| - 1], x, leq, bound);
    }
  }

  lemma {:induction false} InsertSorts<T(!new)>(s: seq<T>, x: T, leq: (T, T) -> bool)
    requires TotalOrder(leq) && Sorted(s, leq)
    ensures Sorted(Insert(s, x, leq), leq)
  {
    if s != [] && !leq(s[|s| - 1], x) {
      InsertSorts(s[..|s| - 1], x, leq);
      InsertBounded(s[..|s| - 1], x, leq, s[|s| - 1]);
    }
  }

  lemma {:induction false} InsertKeeps<T>(s: seq<T>, x: T, leq: (T, T) -> bool)
    ensures multiset(Insert(s, x, leq)) == multiset(s) + multiset{x}
  {
    if s != [] && !leq(s[|s| - 1], x) {
      InsertKeeps(s[..|s| - 1], x, leq);
      assert s == s[..|s| - 1] + [s[|s| - 1]];
    }
  }

  /** Sorting keeps every element and puts them in order. */
  lemma {:induction false} SortSorts<T(!new)>(s: seq<T>, leq: (T, T) -> bool)
    requires TotalOrder(leq)
    ensures Sorted(Sort(s, leq), leq) && multiset(Sort(s, leq)) == multiset(s)
  {
    hide TotalOrder, Sorted, Insert;
    if s == [] {
      NothingSorted(leq);
    } else {
      var rest, last := s[..|s| - 1], s[|s| - 1];
      SortSorts(rest, leq);
      InsertSorts(Sort(rest, leq), last, leq);
      InsertKeeps(Sort(rest, leq), last, leq);
      assert s == rest + [last];
    }
  }

  lemma NothingSorted<T>(leq: (T, T) -> bool)
    ensures Sorted([], leq)
  {
  }

  /** A test whose passing elements are equals of each other. */
  ghost predicate OneClass<T(!new)>(keep: T -> bool, leq: (T, T) -> bool) {
    forall a, b :: keep(a) && keep(b) ==> leq(a, b)
  }

  lemma {:induction false} InsertIsStable<T(!new)>(s: seq<T>, x: T, leq: (T, T) -> bool, keep: T -> bool)
    requires OneClass(keep, leq)
    ensures Filter(Insert(s, x, leq), keep) == Filter(s + [x], keep)
  {
    hide Filter;
    if s != [] && !leq(s[|s| - 1], x) {
      var rest, last := s[..|s| - 1], s[|s| - 1];
      InsertIsStable(rest, x, leq, keep);
      FilterSnoc(Insert(rest, x, leq), last, keep);
      FilterSnoc(rest, x, keep);
      FilterSnoc(rest, last, keep);
      FilterSnoc(s, x, keep);
      assert s == rest + [last];
      assert !(keep(last) && keep(x));
    }
  }

  /** Equals keep their order. */
  lemma {:induction false} SortIsStable<T(!new)>(s: seq<T>, leq: (T, T) -> bool, keep: T -> bool)
    requires OneClass(keep, leq)
    ensures Filter(Sort(s, leq), keep) == Filter(s, keep)
  {
    hide Filter, OneClass, Insert;
    if s != [] {
      var rest, last := s[..|s| - 1], s[|s| - 1];
      SortIsStable(rest, leq, keep);
      InsertIsStable(Sort(rest, leq), last, leq, keep);
      FilterSnoc(Sort(rest, leq), last, keep);
      FilterSnoc(rest, last, keep);
      assert s == rest + [last];
    }
  }

  lemma {:induction false} SortedStays<T>(s: seq<T>, leq: (T, T) -> bool)
    requires Sorted(s, leq)
    ensures Sort(s, leq) == s
  {
    if s != [] {
      var rest, last := s[..|s| - 1], s[|s| - 1];
      SortedStays(rest, leq);
      assert Sort(s, leq) == Insert(rest, last, leq);
      assert rest == [] || leq(rest[|rest| - 1], last);
      assert s == rest + [last];
    }
  }
}
