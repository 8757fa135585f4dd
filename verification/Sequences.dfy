/** Filtering and sorting of finite sequences, with the laws the streaming components rely on. */
module Sequences {

  /** The elements that pass a test, in order. */
  function Filter<T>(s: seq<T>, keep: T -> bool): seq<T> {
    if s == [] then []
    else Filter(s[..|s| - 1], keep) + (if keep(s[|s| - 1]) then [s[|s| - 1]] else [])
  }

  lemma {:induction false} FilterConcat<T>(a: seq<T>, b: seq<T>, keep: T -> bool)
    ensures Filter(a + b, keep) == Filter(a, keep) + Filter(b, keep)
  {
    if b == [] {
      assert a + b == a;
    } else {
      assert (a + b)[..|a + b| - 1] == a + b[..|b| - 1];
      FilterConcat(a, b[..|b| - 1], keep);
    }
  }

  /** Two tests that agree on the elements keep the same ones. */
  lemma {:induction false} FilterAgree<T>(s: seq<T>, f: T -> bool, g: T -> bool)
    requires forall x :: x in s ==> f(x) == g(x)
    ensures Filter(s, f) == Filter(s, g)
  {
    if s != [] {
      FilterAgree(s[..|s| - 1], f, g);
    }
  }

  lemma {:induction false} FilterNone<T>(s: seq<T>, keep: T -> bool)
    requires forall x :: x in s ==> !keep(x)
    ensures Filter(s, keep) == []
  {
    if s != [] {
      FilterNone(s[..|s| - 1], keep);
    }
  }

  lemma {:induction false} FilterAll<T>(s: seq<T>, keep: T -> bool)
    requires forall x :: x in s ==> keep(x)
    ensures Filter(s, keep) == s
  {
    if s != [] {
      FilterAll(s[..|s| - 1], keep);
      assert s == s[..|s| - 1] + [s[|s| - 1]];
    }
  }

  lemma {:induction false} FilterMembers<T>(s: seq<T>, keep: T -> bool, x: T)
    ensures x in Filter(s, keep) <==> x in s && keep(x)
  {
    if s != [] {
      FilterMembers(s[..|s| - 1], keep, x);
      assert s == s[..|s| - 1] + [s[|s| - 1]];
    }
  }

  // ---- Stable sorting ----

  /** What sorting needs of an order: asymmetric, and not-before is transitive. */
  ghost predicate WeakOrder<T(!new)>(before: (T, T) -> bool) {
    && (forall a, b :: before(a, b) ==> !before(b, a))
    && (forall a, b, c :: !before(b, a) && !before(c, b) ==> !before(c, a))
  }

  /** No later element comes before an earlier one. */
  predicate InOrder<T>(s: seq<T>, before: (T, T) -> bool) {
    forall i, j :: 0 <= i < j < |s| ==> !before(s[j], s[i])
  }

  /** Insert after every element it does not come before. */
  function Insert<T>(s: seq<T>, x: T, before: (T, T) -> bool): seq<T> {
    if s == [] then [x]
    else if !before(x, s[|s| - 1]) then s + [x]
    else Insert(s[..|s| - 1], x, before) + [s[|s| - 1]]
  }

  /** Insertion sort, stable: elements neither of which comes first keep their order of arrival. */
  function SortedBy<T>(s: seq<T>, before: (T, T) -> bool): seq<T> {
    if s == [] then [] else Insert(SortedBy(s[..|s| - 1], before), s[|s| - 1], before)
  }

  lemma {:induction false} InsertIsPermutation<T>(s: seq<T>, x: T, before: (T, T) -> bool)
    ensures multiset(Insert(s, x, before)) == multiset(s) + multiset{x}
  {
    if s != [] {
      assert s == s[..|s| - 1] + [s[|s| - 1]];
      if before(x, s[|s| - 1]) {
        InsertIsPermutation(s[..|s| - 1], x, before);
      }
    }
  }

  lemma {:induction false} InsertMembers<T>(s: seq<T>, x: T, before: (T, T) -> bool, y: T)
    ensures y in Insert(s, x, before) <==> y in s || y == x
  {
    if s != [] {
      assert s == s[..|s| - 1] + [s[|s| - 1]];
      if before(x, s[|s| - 1]) {
        InsertMembers(s[..|s| - 1], x, before, y);
      }
    }
  }

  lemma {:induction false} SortedByIsPermutation<T>(s: seq<T>, before: (T, T) -> bool)
    ensures multiset(SortedBy(s, before)) == multiset(s)
  {
    if s != [] {
      var front, last := s[..|s| - 1], s[|s| - 1];
      assert s == front + [last];
      SortedByIsPermutation(front, before);
      InsertIsPermutation(SortedBy(front, before), last, before);
    }
  }

  lemma {:induction false} SortedByMembers<T>(s: seq<T>, before: (T, T) -> bool, y: T)
    ensures y in SortedBy(s, before) <==> y in s
  {
    if s != [] {
      assert s == s[..|s| - 1] + [s[|s| - 1]];
      SortedByMembers(s[..|s| - 1], before, y);
      InsertMembers(SortedBy(s[..|s| - 1], before), s[|s| - 1], before, y);
    }
  }

  lemma InOrderAppend<T>(s: seq<T>, x: T, before: (T, T) -> bool)
    requires InOrder(s, before) && forall y :: y in s ==> !before(x, y)
    ensures InOrder(s + [x], before)
  {
    var t := s + [x];
    forall i, j | 0 <= i < j < |t|
      ensures !before(t[j], t[i])
    {
      assert t[i] == s[i] && s[i] in s;
    }
  }

  lemma {:induction false} InsertIsInOrder<T(!new)>(s: seq<T>, x: T, before: (T, T) -> bool)
    requires WeakOrder(before) && InOrder(s, before)
    ensures InOrder(Insert(s, x, before), before)
  {
    if s != [] {
      var front, last := s[..|s| - 1], s[|s| - 1];
      if before(x, last) {
        InsertIsInOrder(front, x, before);
        forall y | y in Insert(front, x, before)
          ensures !before(last, y)
        {
          InsertMembers(front, x, before, y);
        }
        InOrderAppend(Insert(front, x, before), last, before);
      } else {
        forall y | y in s
          ensures !before(x, y)
        {
          var i :| 0 <= i < |s| && s[i] == y;
          assert i < |s| - 1 ==> !before(last, y);
        }
        InOrderAppend(s, x, before);
      }
    }
  }

  lemma {:induction false} SortedByIsInOrder<T(!new)>(s: seq<T>, before: (T, T) -> bool)
    requires WeakOrder(before)
    ensures InOrder(SortedBy(s, before), before)
  {
    if s != [] {
      SortedByIsInOrder(s[..|s| - 1], before);
      InsertIsInOrder(SortedBy(s[..|s| - 1], before), s[|s| - 1], before);
    }
  }

  /** Sorting what is in order changes nothing. */
  lemma {:induction false} SortOfOrdered<T>(s: seq<T>, before: (T, T) -> bool)
    requires InOrder(s, before)
    ensures SortedBy(s, before) == s
  {
    if s != [] {
      SortOfOrdered(s[..|s| - 1], before);
      assert s == s[..|s| - 1] + [s[|s| - 1]];
    }
  }

  /** Inserting above a block it does not come before leaves the block in front. */
  lemma {:induction false} InsertAbove<T>(low: seq<T>, s: seq<T>, x: T, before: (T, T) -> bool)
    requires forall y :: y in low ==> !before(x, y)
    ensures Insert(low + s, x, before) == low + Insert(s, x, before)
  {
    if s == [] {
      assert low + s == low;
    } else if before(x, s[|s| - 1]) {
      assert (low + s)[..|low + s| - 1] == low + s[..|s| - 1];
      InsertAbove(low, s[..|s| - 1], x, before);
    }
  }

  /** Two blocks, the second nowhere before the first, sort block by block. */
  lemma {:induction false} SortedBySplits<T>(low: seq<T>, high: seq<T>, before: (T, T) -> bool)
    requires forall x, y :: x in low && y in high ==> !before(y, x)
    ensures SortedBy(low + high, before) == SortedBy(low, before) + SortedBy(high, before)
  {
    if high == [] {
      assert low + high == low;
    } else {
      var front, last := high[..|high| - 1], high[|high| - 1];
      assert (low + high)[..|low + high| - 1] == low + front;
      SortedBySplits(low, front, before);
      forall y | y in SortedBy(low, before)
        ensures !before(last, y)
      {
        SortedByMembers(low, before, y);
      }
      InsertAbove(SortedBy(low, before), SortedBy(front, before), last, before);
    }
  }

  // ---- By an integer key ----

  function Smaller<T>(key: T -> int): (T, T) -> bool { (a: T, b: T) => key(a) < key(b) }

  predicate Ordered<T>(s: seq<T>, key: T -> int) {
    forall i, j :: 0 <= i < j < |s| ==> key(s[i]) <= key(s[j])
  }

  function Sorted<T>(s: seq<T>, key: T -> int): seq<T> { SortedBy(s, Smaller(key)) }

  lemma SortedIsOrdered<T(!new)>(s: seq<T>, key: T -> int)
    ensures Ordered(Sorted(s, key), key)
    ensures multiset(Sorted(s, key)) == multiset(s)
  {
    SortedByIsInOrder(s, Smaller(key));
    SortedByIsPermutation(s, Smaller(key));
    var sorted := Sorted(s, key);
    forall i, j | 0 <= i < j < |sorted|
      ensures key(sorted[i]) <= key(sorted[j])
    {
      assert !Smaller(key)(sorted[j], sorted[i]);
    }
  }

  /** A block of smaller keys followed by a block of larger ones sorts block by block. */
  lemma SortedSplits<T>(low: seq<T>, high: seq<T>, key: T -> int)
    requires forall x, y :: x in low && y in high ==> key(x) <= key(y)
    ensures Sorted(low + high, key) == Sorted(low, key) + Sorted(high, key)
  {
    SortedBySplits(low, high, Smaller(key));
  }

  predicate Distinct<T(==)>(s: seq<T>) {
    forall i, j :: 0 <= i < j < |s| ==> s[i] != s[j]
  }

  lemma {:induction false} DistinctAsMultiset<T>(s: seq<T>)
    ensures Distinct(s) <==> forall x :: multiset(s)[x] <= 1
  {
    if s != [] {
      var front, last := s[..|s| - 1], s[|s| - 1];
      assert s == front + [last];
      DistinctAsMultiset(front);
      if Distinct(s) {
        assert last !in front;
        assert multiset(front)[last] == 0;
      } else if Distinct(front) {
        var i :| 0 <= i < |front| && front[i] == last;
        assert last in multiset(front);
        assert multiset(s)[last] >= 2;
      } else {
        var x :| multiset(front)[x] > 1;
        assert multiset(s)[x] > 1;
      }
    }
  }

  /** Sorting keeps elements distinct. */
  lemma SortedIsDistinct<T>(s: seq<T>, key: T -> int)
    requires Distinct(s)
    ensures Distinct(Sorted(s, key))
  {
    SortedByIsPermutation(s, Smaller(key));
    DistinctAsMultiset(s);
    DistinctAsMultiset(Sorted(s, key));
  }

  lemma SortedMembers<T>(s: seq<T>, key: T -> int, x: T)
    ensures x in Sorted(s, key) <==> x in s
  {
    SortedByMembers(s, Smaller(key), x);
  }
}
