/** Sorting by an integer key, as the source's library sorts do. */
module Sorting {
  predicate Ascending<T>(s: seq<T>, key: T -> int) {
    forall i, j :: 0 <= i < j < |s| ==> key(s[i]) < key(s[j])
  }

  predicate DistinctKeys<T>(s: seq<T>, key: T -> int) {
    forall i, j :: 0 <= i < j < |s| ==> key(s[i]) != key(s[j])
  }

  function Insert<T>(x: T, s: seq<T>, key: T -> int): seq<T> {
    if s == [] || key(x) <= key(s[0]) then [x] + s else [s[0]] + Insert(x, s[1..], key)
  }

  /** sort.Slice by an integer key. */
  function SortBy<T>(s: seq<T>, key: T -> int): seq<T> {
    if s == [] then [] else Insert(s[0], SortBy(s[1..], key), key)
  }

  lemma {:induction false} InsertKeepsElements<T>(x: T, s: seq<T>, key: T -> int)
    ensures multiset(Insert(x, s, key)) == multiset{x} + multiset(s)
    ensures forall y :: y in Insert(x, s, key) <==> y == x || y in s
  {
    if s != [] && key(s[0]) < key(x) {
      InsertKeepsElements(x, s[1..], key);
      assert s == [s[0]] + s[1..];
    }
  }

  lemma PrependAscends<T>(x: T, s: seq<T>, key: T -> int)
    requires Ascending(s, key) && forall y :: y in s ==> key(x) < key(y)
    ensures Ascending([x] + s, key)
  {
    assert forall i :: 0 <= i < |s| ==> s[i] in s;
  }

  lemma FirstIsLeast<T>(s: seq<T>, key: T -> int, y: T)
    requires Ascending(s, key) && y in s
    ensures key(s[0]) <= key(y)
  {
  }

  lemma TailIndex<T>(s: seq<T>, y: T)
    requires s != [] && y in s[1..]
    ensures exists i :: 0 < i < |s| && s[i] == y
  {
    var t := s[1..];
    var i :| 0 <= i < |t| && t[i] == y;
    assert s[i + 1] == y;
  }

  lemma TailAscends<T>(s: seq<T>, key: T -> int)
    requires s != []
    ensures Ascending(s, key) ==> Ascending(s[1..], key)
    ensures DistinctKeys(s, key) ==> DistinctKeys(s[1..], key)
  {
    assert forall i :: 0 <= i < |s[1..]| ==> s[1..][i] == s[i + 1];
  }

  lemma {:induction false} InsertAscends<T>(x: T, s: seq<T>, key: T -> int)
    requires Ascending(s, key) && forall y :: y in s ==> key(y) != key(x)
    ensures Ascending(Insert(x, s, key), key)
  {
    if s == [] {
    } else if key(x) <= key(s[0]) {
      assert s[0] in s;
      forall y | y in s ensures key(x) < key(y) {
        FirstIsLeast(s, key, y);
      }
      PrependAscends(x, s, key);
    } else {
      assert forall y :: y in s[1..] ==> y in s;
      TailAscends(s, key);
      InsertAscends(x, s[1..], key);
      InsertKeepsElements(x, s[1..], key);
      forall y | y in Insert(x, s[1..], key) ensures key(s[0]) < key(y) {
        if y != x {
          assert y in multiset(Insert(x, s[1..], key));
          assert y in multiset(s[1..]);
          TailIndex(s, y);
        }
      }
      PrependAscends(s[0], Insert(x, s[1..], key), key);
    }
  }

  lemma {:induction false} SortByKeepsElements<T>(s: seq<T>, key: T -> int)
    ensures multiset(SortBy(s, key)) == multiset(s)
    ensures forall y :: y in SortBy(s, key) <==> y in s
  {
    if s != [] {
      SortByKeepsElements(s[1..], key);
      assert s == [s[0]] + s[1..];
      InsertKeepsElements(s[0], SortBy(s[1..], key), key);
    }
  }

  lemma {:induction false} SortByAscends<T>(s: seq<T>, key: T -> int)
    requires DistinctKeys(s, key)
    ensures Ascending(SortBy(s, key), key)
  {
    if s != [] {
      TailAscends(s, key);
      SortByAscends(s[1..], key);
      SortByKeepsElements(s[1..], key);
      forall y | y in SortBy(s[1..], key) ensures key(y) != key(s[0]) {
        assert y in multiset(SortBy(s[1..], key));
        assert y in multiset(s[1..]);
        TailIndex(s, y);
      }
      InsertAscends(s[0], SortBy(s[1..], key), key);
    }
  }
}
