/** Python's `sorted`: a stable insertion sort by a key order. */
module Sorting {

  /** Puts `x` after every element it does not come strictly before. */
  function Insert<T>(x: T, s: seq<T>, before: (T, T) -> bool): seq<T> {
    if s == [] || before(x, s[0]) then [x] + s else [s[0]] + Insert(x, s[1..], before)
  }

  function Sort<T>(s: seq<T>, before: (T, T) -> bool): seq<T> {
    if s == [] then [] else Insert(s[|s| - 1], Sort(s[..|s| - 1], before), before)
  }

  lemma {:induction false} InsertPermutes<T>(x: T, s: seq<T>, before: (T, T) -> bool)
    ensures multiset(Insert(x, s, before)) == multiset(s) + multiset{x}
  {
    if s != [] && !before(x, s[0]) {
      InsertPermutes(x, s[1..], before);
      assert s == [s[0]] + s[1..];
    }
  }

  /** Sorting keeps every element as often as it occurs. */
  lemma {:induction false} SortPermutes<T>(s: seq<T>, before: (T, T) -> bool)
    ensures multiset(Sort(s, before)) == multiset(s)
  {
    if s != [] {
      SortPermutes(s[..|s| - 1], before);
      InsertPermutes(s[|s| - 1], Sort(s[..|s| - 1], before), before);
      assert s == s[..|s| - 1] + [s[|s| - 1]];
    }
  }

  /** `before` compares keys: what does not come before one another is transitive, and nothing comes before what precedes it. */
  ghost predicate IsKeyOrder<T(!new)>(before: (T, T) -> bool) {
    && (forall a, b :: before(a, b) ==> !before(b, a))
    && forall a, b, c :: !before(b, a) && !before(c, b) ==> !before(c, a)
  }

  ghost predicate Ascends<T(!new)>(s: seq<T>, before: (T, T) -> bool) {
    forall i, j :: 0 <= i < j < |s| ==> !before(s[j], s[i])
  }

  lemma {:induction false} InsertAscends<T(!new)>(x: T, s: seq<T>, before: (T, T) -> bool)
    requires IsKeyOrder(before) && Ascends(s, before)
    ensures Ascends(Insert(x, s, before), before)
  {
    if s == [] {
    } else if before(x, s[0]) {
      assert forall j :: 0 <= j < |s| ==> !before(s[j], s[0]) || j == 0;
      assert forall j :: 0 <= j < |s| ==> !before(s[j], x);
    } else {
      var rest := Insert(x, s[1..], before);
      InsertAscends(x, s[1..], before);
      InsertPermutes(x, s[1..], before);
      forall j | 0 <= j < |rest|
        ensures !before(rest[j], s[0])
      {
        assert rest[j] in multiset(rest);
        assert rest[j] == x || rest[j] in s[1..];
      }
    }
  }

  /** What is sorted ascends. */
  lemma {:induction false} SortAscends<T(!new)>(s: seq<T>, before: (T, T) -> bool)
    requires IsKeyOrder(before)
    ensures Ascends(Sort(s, before), before)
  {
    if s != [] {
      SortAscends(s[..|s| - 1], before);
      InsertAscends(s[|s| - 1], Sort(s[..|s| - 1], before), before);
    }
  }

  predicate NoRepeats<T(==)>(s: seq<T>) {
    forall i, j :: 0 <= i < j < |s| ==> s[i] != s[j]
  }

  lemma NoRepeatsConcat<T>(a: seq<T>, b: seq<T>)
    requires NoRepeats(a) && NoRepeats(b) && forall x :: x in a ==> x !in b
    ensures NoRepeats(a + b)
  {
    var all := a + b;
    forall i, j | 0 <= i < j < |all|
      ensures all[i] != all[j]
    {
      if i < |a| && j >= |a| {
        assert a[i] in a && b[j - |a|] in b;
      }
    }
  }

  /** Having no repeats depends on the elements alone. */
  lemma NoRepeatsByCount<T>(s: seq<T>)
    ensures NoRepeats(s) <==> forall x :: multiset(s)[x] <= 1
  {
    if NoRepeats(s) {
      forall x
        ensures multiset(s)[x] <= 1
      {
        CountOnce(s, x);
      }
    } else {
      var i, j :| 0 <= i < j < |s| && s[i] == s[j];
      assert s == s[..j] + [s[j]] + s[j + 1..];
      assert s[i] in s[..j];
      assert multiset(s)[s[j]] >= 2;
    }
  }

  lemma {:induction false} CountOnce<T>(s: seq<T>, x: T)
    requires NoRepeats(s)
    ensures multiset(s)[x] <= 1
  {
    if s != [] {
      var last := s[|s| - 1];
      assert s == s[..|s| - 1] + [last];
      CountOnce(s[..|s| - 1], x);
      if x == last {
        assert x !in s[..|s| - 1];
      }
    }
  }

  /** A permutation has the same elements, and repeats none if the other repeats none. */
  lemma SamePermutation<T>(s: seq<T>, t: seq<T>)
    requires multiset(s) == multiset(t)
    ensures |s| == |t|
    ensures forall x :: x in s <==> x in t
    ensures NoRepeats(s) <==> NoRepeats(t)
  {
    assert |multiset(s)| == |s| && |multiset(t)| == |t|;
    forall x
      ensures x in s <==> x in t
    {
      assert x in s <==> x in multiset(s);
      assert x in t <==> x in multiset(t);
    }
    NoRepeatsByCount(s);
    NoRepeatsByCount(t);
  }
}
