/** `sorted` with a key that orders every two elements, as insertion into a sorted sequence. */
module Sorting {

  /** Every two elements are ordered one way or the other, transitively; ties are possible. */
  ghost predicate TotalPreorder<T(!new)>(le: (T, T) -> bool) {
    && (forall x, y :: le(x, y) || le(y, x))
    && (forall x, y, z :: le(x, y) && le(y, z) ==> le(x, z))
  }

  ghost predicate Sorted<T>(s: seq<T>, le: (T, T) -> bool) {
    forall i, j :: 0 <= i < j < |s| ==> le(s[i], s[j])
  }

  function Insert<T>(x: T, s: seq<T>, le: (T, T) -> bool): (r: seq<T>)
    ensures multiset(r) == multiset(s) + multiset{x}
  {
    if |s| == 0 then [x]
    else if le(x, s[0]) then [x] + s
    else
      assert s == [s[0]] + s[1..];
      [s[0]] + Insert(x, s[1..], le)
  }

  function Sort<T>(s: seq<T>, le: (T, T) -> bool): (r: seq<T>)
    ensures multiset(r) == multiset(s)
    ensures |r| == |s|
  {
    if |s| == 0 then []
    else
      assert s == [s[0]] + s[1..];
      var r := Insert(s[0], Sort(s[1..], le), le);
      assert |multiset(r)| == |multiset(s)|;
      r
  }

  lemma InsertMembers<T>(x: T, s: seq<T>, le: (T, T) -> bool)
    ensures forall y :: y in Insert(x, s, le) <==> y == x || y in s
  {
    forall y
      ensures y in Insert(x, s, le) <==> y == x || y in s
    {
      assert y in Insert(x, s, le) <==> y in multiset(Insert(x, s, le));
      assert y in s <==> y in multiset(s);
    }
  }

  lemma {:induction false} InsertSorted<T(!new)>(x: T, s: seq<T>, le: (T, T) -> bool)
    requires TotalPreorder(le) && Sorted(s, le)
    ensures Sorted(Insert(x, s, le), le)
  {
    if |s| > 0 && !le(x, s[0]) {
      InsertSorted(x, s[1..], le);
      InsertMembers(x, s[1..], le);
      var r := Insert(x, s[1..], le);
      forall j | 0 <= j < |r|
        ensures le(s[0], r[j])
      {
        assert r[j] in r;
      }
    }
  }

  lemma {:induction false} SortSorted<T(!new)>(s: seq<T>, le: (T, T) -> bool)
    requires TotalPreorder(le)
    ensures Sorted(Sort(s, le), le)
  {
    if |s| > 0 {
      SortSorted(s[1..], le);
      InsertSorted(s[0], Sort(s[1..], le), le);
    }
  }

  lemma SortMembers<T>(s: seq<T>, le: (T, T) -> bool)
    ensures forall y :: y in Sort(s, le) <==> y in s
  {
    forall y
      ensures y in Sort(s, le) <==> y in s
    {
      assert y in Sort(s, le) <==> y in multiset(Sort(s, le));
      assert y in s <==> y in multiset(s);
    }
  }

  ghost predicate NoDuplicates<T>(s: seq<T>) {
    forall i, j :: 0 <= i < j < |s| ==> s[i] != s[j]
  }

  /** A sequence without duplicates has every element with multiplicity one, and the other way round. */
  lemma {:induction false} MultiplicityOne<T>(s: seq<T>)
    ensures NoDuplicates(s) <==> forall x :: x in multiset(s) ==> multiset(s)[x] == 1
  {
    if |s| == 0 {
      return;
    }
    var last, rest := s[|s| - 1], s[..|s| - 1];
    assert s == rest + [last];
    MultiplicityOne(rest);
    if NoDuplicates(s) {
      forall x | x in multiset(s)
        ensures multiset(s)[x] == 1
      {
        assert last in rest <==> last in multiset(rest);
      }
    }
    if forall x :: x in multiset(s) ==> multiset(s)[x] == 1 {
      forall x | x in multiset(rest)
        ensures multiset(rest)[x] == 1
      {
        assert x in multiset(s);
      }
      forall i | 0 <= i < |rest|
        ensures s[i] != last
      {
        assert rest[i] in multiset(rest);
        assert last in multiset(s);
      }
    }
  }

  lemma SortNoDuplicates<T>(s: seq<T>, le: (T, T) -> bool)
    requires NoDuplicates(s)
    ensures NoDuplicates(Sort(s, le))
  {
    MultiplicityOne(s);
    MultiplicityOne(Sort(s, le));
  }
}
