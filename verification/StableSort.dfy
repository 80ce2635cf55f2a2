/** `sorted` by a numeric key: ascending, and equal keys keep the order they came in. */
module StableSort {
  /** Put an element that came before all others in front of the first that is not smaller. */
  function Insert<T>(x: T, s: seq<T>, key: T -> real): seq<T> {
    if s == [] || key(x) <= key(s[0]) then [x] + s else [s[0]] + Insert(x, s[1..], key)
  }

  function SortBy<T>(s: seq<T>, key: T -> real): seq<T> {
    if s == [] then [] else Insert(s[0], SortBy(s[1..], key), key)
  }

  ghost predicate Ascending<T>(s: seq<T>, key: T -> real) {
    forall i, j :: 0 <= i < j < |s| ==> key(s[i]) <= key(s[j])
  }

  /** Some occurrence of x is ahead of some occurrence of y. */
  ghost predicate Before<T(!new)>(s: seq<T>, x: T, y: T) {
    exists i, j :: 0 <= i < j < |s| && s[i] == x && s[j] == y
  }

  lemma {:induction false} InsertPermutes<T>(x: T, s: seq<T>, key: T -> real)
    ensures multiset(Insert(x, s, key)) == multiset(s) + multiset{x}
    ensures |Insert(x, s, key)| == |s| + 1
  {
    if !(s == [] || key(x) <= key(s[0])) {
      InsertPermutes(x, s[1..], key);
      assert s == [s[0]] + s[1..];
    }
  }

  lemma {:induction false} InsertAscends<T>(x: T, s: seq<T>, key: T -> real)
    requires Ascending(s, key)
    ensures Ascending(Insert(x, s, key), key)
  {
    if !(s == [] || key(x) <= key(s[0])) {
      InsertAscends(x, s[1..], key);
      InsertPermutes(x, s[1..], key);
      var rest := Insert(x, s[1..], key);
      forall j | 0 <= j < |rest| ensures key(s[0]) <= key(rest[j]) {
        assert rest[j] in multiset(rest);
      }
    }
  }

  lemma SameElements<T(!new)>(a: seq<T>, b: seq<T>)
    requires multiset(a) == multiset(b)
    ensures forall x :: x in a <==> x in b
  {
    forall x ensures x in a <==> x in b {
      assert x in a <==> x in multiset(a);
      assert x in b <==> x in multiset(b);
    }
  }

  lemma {:induction false} SortPermutes<T(!new)>(s: seq<T>, key: T -> real)
    ensures multiset(SortBy(s, key)) == multiset(s)
    ensures |SortBy(s, key)| == |s|
    ensures forall x :: x in SortBy(s, key) <==> x in s
  {
    if s != [] {
      SortPermutes(s[1..], key);
      InsertPermutes(s[0], SortBy(s[1..], key), key);
      assert s == [s[0]] + s[1..];
    }
    SameElements(SortBy(s, key), s);
  }

  lemma {:induction false} SortAscends<T>(s: seq<T>, key: T -> real)
    ensures Ascending(SortBy(s, key), key)
  {
    if s != [] {
      SortAscends(s[1..], key);
      InsertAscends(s[0], SortBy(s[1..], key), key);
    }
  }

  lemma {:induction false} InsertKeepsOrder<T(!new)>(z: T, s: seq<T>, key: T -> real, x: T, y: T)
    requires Before(s, x, y)
    ensures Before(Insert(z, s, key), x, y)
  {
    var i, j :| 0 <= i < j < |s| && s[i] == x && s[j] == y;
    var r := Insert(z, s, key);
    if s == [] || key(z) <= key(s[0]) {
      assert r[i + 1] == x && r[j + 1] == y;
    } else if i == 0 {
      InsertPermutes(z, s[1..], key);
      assert y in multiset(s[1..]) by { assert s[1..][j - 1] == y; }
      var rest := Insert(z, s[1..], key);
      assert y in multiset(rest);
      var n :| 0 <= n < |rest| && rest[n] == y;
      assert r == [s[0]] + rest && r[0] == x && r[n + 1] == y;
    } else {
      assert s[1..][i - 1] == x && s[1..][j - 1] == y;
      InsertKeepsOrder(z, s[1..], key, x, y);
      var m, n :| 0 <= m < n < |r[1..]| && r[1..][m] == x && r[1..][n] == y;
      assert r[m + 1] == x && r[n + 1] == y;
    }
  }

  lemma {:induction false} InsertGoesAhead<T(!new)>(x: T, s: seq<T>, key: T -> real, y: T)
    requires y in s && key(x) <= key(y) && Ascending(s, key)
    ensures Before(Insert(x, s, key), x, y)
  {
    var r := Insert(x, s, key);
    if key(x) <= key(s[0]) {
      var j :| 0 <= j < |s| && s[j] == y;
      assert r[0] == x && r[j + 1] == y;
    } else {
      InsertGoesAhead(x, s[1..], key, y);
      var m, n :| 0 <= m < n < |r[1..]| && r[1..][m] == x && r[1..][n] == y;
      assert r[m + 1] == x && r[n + 1] == y;
    }
  }

  /** Two elements change places only when the later one's key is strictly smaller. */
  lemma {:induction false} SortIsStable<T(!new)>(s: seq<T>, key: T -> real, x: T, y: T)
    requires Before(s, x, y) && key(x) <= key(y)
    ensures Before(SortBy(s, key), x, y)
  {
    var i, j :| 0 <= i < j < |s| && s[i] == x && s[j] == y;
    if i == 0 {
      assert s[1..][j - 1] == y;
      SortPermutes(s[1..], key);
      SortAscends(s[1..], key);
      InsertGoesAhead(x, SortBy(s[1..], key), key, y);
    } else {
      assert s[1..][i - 1] == x && s[1..][j - 1] == y;
      SortIsStable(s[1..], key, x, y);
      InsertKeepsOrder(s[0], SortBy(s[1..], key), key, x, y);
    }
  }

  /** Sorting what is in order already changes nothing. */
  lemma {:induction false} SortOfSorted<T>(s: seq<T>, key: T -> real)
    requires Ascending(s, key)
    ensures SortBy(s, key) == s
  {
    if s != [] {
      SortOfSorted(s[1..], key);
    }
  }
}
