/** Sorting by a text key, as the canonical forms do, and what makes the result unique. */
module TextOrder {
  import opened Text
  import opened Sequences

  function Earlier<T>(key: T -> string): (T, T) -> bool { (a: T, b: T) => Less(key(a), key(b)) }

  /** No later key is smaller. */
  predicate InKeyOrder<T>(s: seq<T>, key: T -> string) { InOrder(s, Earlier(key)) }

  predicate Strictly<T>(s: seq<T>, key: T -> string) {
    forall i, j :: 0 <= i < j < |s| ==> Less(key(s[i]), key(s[j]))
  }

  predicate DistinctKeys<T>(s: seq<T>, key: T -> string) {
    forall i, j :: 0 <= i < j < |s| ==> key(s[i]) != key(s[j])
  }

  /** A text as its own key. */
  function Itself(): string -> string { (s: string) => s }

  /** Stable sort by the key. */
  function SortBy<T>(s: seq<T>, key: T -> string): seq<T> { SortedBy(s, Earlier(key)) }

  lemma SortMembers<T>(s: seq<T>, key: T -> string, y: T)
    ensures y in SortBy(s, key) <==> y in s
  {
    SortedByMembers(s, Earlier(key), y);
  }

  lemma NotLessTransitive(a: string, b: string, c: string)
    requires !Less(b, a) && !Less(c, b)
    ensures !Less(c, a)
  {
    LessTotal(a, b);
    LessTotal(b, c);
    LessTotal(a, c);
    if Less(a, b) && Less(b, c) {
      LessTransitive(a, b, c);
    }
  }

  lemma TextIsAWeakOrder<T(!new)>(key: T -> string)
    ensures WeakOrder(Earlier(key))
  {
    forall a: T, b: T
      ensures Earlier(key)(a, b) ==> !Earlier(key)(b, a)
    {
      LessTotal(key(a), key(b));
    }
    forall a: T, b: T, c: T | !Earlier(key)(b, a) && !Earlier(key)(c, b)
      ensures !Earlier(key)(c, a)
    {
      NotLessTransitive(key(a), key(b), key(c));
    }
  }

  lemma DistinctAppend<T>(s: seq<T>, x: T, key: T -> string)
    ensures DistinctKeys(s + [x], key) <==> DistinctKeys(s, key) && forall i :: 0 <= i < |s| ==> key(s[i]) != key(x)
  {
    var t := s + [x];
    assert forall i :: 0 <= i < |s| ==> t[i] == s[i];
    assert t[|s|] == x;
  }

  lemma {:induction false} InsertDistinct<T>(s: seq<T>, x: T, key: T -> string)
    requires DistinctKeys(s, key) && forall y :: y in s ==> key(y) != key(x)
    ensures DistinctKeys(Insert(s, x, Earlier(key)), key)
  {
    DistinctAppend(s, x, key);
    if s != [] && Less(key(x), key(s[|s| - 1])) {
      var front, last := s[..|s| - 1], s[|s| - 1];
      InsertDistinct(front, x, key);
      forall y | y in Insert(front, x, Earlier(key))
        ensures key(y) != key(last)
      {
        InsertMembers(front, x, Earlier(key), y);
        if y != x {
          var i :| 0 <= i < |front| && front[i] == y;
          assert s[i] == y;
        }
      }
      DistinctAppend(Insert(front, x, Earlier(key)), last, key);
    }
  }

  lemma {:induction false} SortIsDistinct<T>(s: seq<T>, key: T -> string)
    requires DistinctKeys(s, key)
    ensures DistinctKeys(SortBy(s, key), key)
  {
    if s != [] {
      var front, last := s[..|s| - 1], s[|s| - 1];
      SortIsDistinct(front, key);
      forall y | y in SortBy(front, key)
        ensures key(y) != key(last)
      {
        SortMembers(front, key, y);
        var i :| 0 <= i < |front| && front[i] == y;
        assert s[i] == y;
      }
      InsertDistinct(SortBy(front, key), last, key);
    }
  }

  /** Sorting distinct keys ascends strictly, over the same elements. */
  lemma SortIsStrict<T(!new)>(s: seq<T>, key: T -> string)
    requires DistinctKeys(s, key)
    ensures Strictly(SortBy(s, key), key)
    ensures forall x :: x in SortBy(s, key) <==> x in s
  {
    TextIsAWeakOrder(key);
    SortedByIsInOrder(s, Earlier(key));
    SortIsDistinct(s, key);
    StrictlyFrom(SortBy(s, key), key);
    forall x
      ensures x in SortBy(s, key) <==> x in s
    {
      SortMembers(s, key, x);
    }
  }

  lemma StrictlyFrom<T>(s: seq<T>, key: T -> string)
    requires InKeyOrder(s, key) && DistinctKeys(s, key)
    ensures Strictly(s, key)
  {
    forall i, j | 0 <= i < j < |s|
      ensures Less(key(s[i]), key(s[j]))
    {
      LessTotal(key(s[i]), key(s[j]));
    }
  }

  lemma StrictlyIs<T>(s: seq<T>, key: T -> string)
    requires Strictly(s, key)
    ensures InKeyOrder(s, key) && DistinctKeys(s, key)
  {
    forall i, j | 0 <= i < j < |s|
      ensures !Less(key(s[j]), key(s[i])) && key(s[i]) != key(s[j])
    {
      LessTotal(key(s[i]), key(s[j]));
    }
  }

  lemma HasAnElement<T>(s: seq<T>)
    requires s != []
    ensures exists x :: x in s
  {
    assert s[0] in s;
  }

  /** Strictly ascending sequences of the same elements are the same sequence. */
  lemma {:induction false} StrictlyIsUnique<T>(a: seq<T>, b: seq<T>, key: T -> string)
    requires Strictly(a, key) && Strictly(b, key)
    requires forall x :: x in a <==> x in b
    ensures a == b
    decreases |a|
  {
    if b != [] {
      HasAnElement(b);
    }
    if a != [] {
      assert a[0] in a && a[0] in b;
      assert b[0] in b && b[0] in a;
      FirstIsFirst(a, b, key);
      assert a == [a[0]] + a[1..] && b == [b[0]] + b[1..];
      HeadOnce(a, key);
      HeadOnce(b, key);
      StrictlyIsUnique(a[1..], b[1..], key);
    }
  }

  lemma FirstIsFirst<T>(a: seq<T>, b: seq<T>, key: T -> string)
    requires Strictly(a, key) && Strictly(b, key) && a != [] && b != [] && a[0] in b && b[0] in a
    ensures a[0] == b[0]
  {
    var i :| 0 <= i < |b| && b[i] == a[0];
    var j :| 0 <= j < |a| && a[j] == b[0];
    LessTotal(key(a[0]), key(b[0]));
  }

  lemma HeadOnce<T>(a: seq<T>, key: T -> string)
    requires Strictly(a, key) && a != []
    ensures Strictly(a[1..], key) && forall x :: x in a[1..] <==> x in a && x != a[0]
  {
    assert a == [a[0]] + a[1..];
    forall x | x in a[1..]
      ensures x != a[0]
    {
      var i :| 0 <= i < |a[1..]| && a[1..][i] == x;
      assert x == a[i + 1];
      LessTotal(key(a[0]), key(a[i + 1]));
    }
    forall i, j | 0 <= i < j < |a[1..]|
      ensures Less(key(a[1..][i]), key(a[1..][j]))
    {
      assert a[1..][i] == a[i + 1] && a[1..][j] == a[j + 1];
    }
  }
}
