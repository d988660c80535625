/** Sorting by a strict order, and why the sorted arrangement is unique: every `Array.prototype.sort` over
    distinct keys, whatever its algorithm, yields this one. */
module Ordering {
  ghost predicate StrictOrder<T(!new)>(before: (T, T) -> bool) {
    && (forall a :: !before(a, a))
    && (forall a, b, c :: before(a, b) && before(b, c) ==> before(a, c))
  }

  predicate Ascending(a: nat, b: nat) {
    a < b
  }

  predicate Comparable<T>(before: (T, T) -> bool, s: seq<T>) {
    forall i, j | 0 <= i < j < |s| :: before(s[i], s[j]) || before(s[j], s[i])
  }

  predicate Sorted<T>(before: (T, T) -> bool, s: seq<T>) {
    forall i, j | 0 <= i < j < |s| :: before(s[i], s[j])
  }

  function Insert<T>(before: (T, T) -> bool, x: T, s: seq<T>): seq<T> {
    if s == [] || before(x, s[0]) then [x] + s else [s[0]] + Insert(before, x, s[1..])
  }

  function Sort<T>(before: (T, T) -> bool, s: seq<T>): seq<T> {
    if s == [] then [] else Insert(before, s[0], Sort(before, s[1..]))
  }

  lemma {:induction false} InsertKeeps<T>(before: (T, T) -> bool, x: T, s: seq<T>)
    ensures multiset(Insert(before, x, s)) == multiset{x} + multiset(s)
  {
    if s != [] && !before(x, s[0]) {
      InsertKeeps(before, x, s[1..]);
      assert s == [s[0]] + s[1..];
    }
  }

  lemma {:induction false} SortKeeps<T>(before: (T, T) -> bool, s: seq<T>)
    ensures multiset(Sort(before, s)) == multiset(s)
  {
    if s != [] {
      SortKeeps(before, s[1..]);
      InsertKeeps(before, s[0], Sort(before, s[1..]));
      assert s == [s[0]] + s[1..];
    }
  }

  lemma SameMembers<T>(a: seq<T>, b: seq<T>, x: T)
    requires multiset(a) == multiset(b)
    ensures |a| == |b| && (x in a <==> x in b)
  {
    assert |a| == |multiset(a)| && |b| == |multiset(b)|;
    assert x in multiset(a) <==> x in multiset(b);
  }

  lemma {:induction false} InsertSorts<T(!new)>(before: (T, T) -> bool, x: T, s: seq<T>)
    requires StrictOrder(before) && Sorted(before, s)
    requires forall y | y in s :: before(x, y) || before(y, x)
    ensures Sorted(before, Insert(before, x, s))
  {
    var r := Insert(before, x, s);
    if s != [] && !before(x, s[0]) {
      InsertSorts(before, x, s[1..]);
      var tail := Insert(before, x, s[1..]);
      InsertKeeps(before, x, s[1..]);
      forall j | 0 <= j < |tail|
        ensures before(s[0], tail[j])
      {
        assert tail[j] in multiset(tail);
        assert tail[j] == x || tail[j] in s[1..];
      }
    } else if s != [] {
      forall j | 0 <= j < |s|
        ensures before(x, s[j])
      {
        assert j > 0 ==> before(s[0], s[j]);
      }
    }
  }

  lemma {:induction false} SortSorts<T(!new)>(before: (T, T) -> bool, s: seq<T>)
    requires StrictOrder(before) && Comparable(before, s)
    ensures Sorted(before, Sort(before, s))
  {
    if s != [] {
      SortSorts(before, s[1..]);
      var tail := Sort(before, s[1..]);
      forall y | y in tail
        ensures before(s[0], y) || before(y, s[0])
      {
        SortKeeps(before, s[1..]);
        SameMembers(tail, s[1..], y);
      }
      InsertSorts(before, s[0], tail);
    }
  }

  /** Two sorted arrangements of the same elements are the same sequence. */
  lemma {:induction false} SortedIsUnique<T(!new)>(before: (T, T) -> bool, a: seq<T>, b: seq<T>)
    requires StrictOrder(before) && Sorted(before, a) && Sorted(before, b)
    requires multiset(a) == multiset(b)
    ensures a == b
  {
    if a == [] {
      assert |multiset(a)| == 0;
    } else {
      SameHead(before, a, b);
      hide StrictOrder, Sorted;
      TailOf(before, a);
      TailOf(before, b);
      SortedIsUnique(before, a[1..], b[1..]);
    }
  }

  lemma TailOf<T>(before: (T, T) -> bool, s: seq<T>)
    requires s != [] && Sorted(before, s)
    ensures s == [s[0]] + s[1..] && multiset(s[1..]) == multiset(s) - multiset{s[0]} && Sorted(before, s[1..])
  {
    assert s == [s[0]] + s[1..];
  }

  lemma SameHead<T(!new)>(before: (T, T) -> bool, a: seq<T>, b: seq<T>)
    requires StrictOrder(before) && Sorted(before, a) && Sorted(before, b)
    requires multiset(a) == multiset(b) && a != []
    ensures |a| == |b| && a[0] == b[0]
  {
    SameMembers(a, b, a[0]);
    SameMembers(a, b, b[0]);
    HeadIsLeast(before, a, b[0]);
    HeadIsLeast(before, b, a[0]);
  }

  lemma HeadIsLeast<T(!new)>(before: (T, T) -> bool, s: seq<T>, x: T)
    requires StrictOrder(before) && Sorted(before, s) && x in s
    ensures x == s[0] || (before(s[0], x) && !before(x, s[0]))
  {
    if x != s[0] {
      var i :| 0 <= i < |s| && s[i] == x;
      assert before(s[0], s[i]);
    }
  }

  /** Sorting forgets the order it was given. */
  lemma SortForgetsOrder<T(!new)>(before: (T, T) -> bool, a: seq<T>, b: seq<T>)
    requires StrictOrder(before) && Comparable(before, a) && Comparable(before, b)
    ensures Sort(before, a) == Sort(before, b) <==> multiset(a) == multiset(b)
  {
    SortKeeps(before, a);
    SortKeeps(before, b);
    if multiset(a) == multiset(b) {
      SortSorts(before, a);
      SortSorts(before, b);
      SortedIsUnique(before, Sort(before, a), Sort(before, b));
    }
  }
}
