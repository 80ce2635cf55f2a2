/** Paths compared and sorted the way the source language sorts strings: by code point. */
module Paths {

  predicate Leq(a: string, b: string) {
    a == "" || (b != "" && (a[0] < b[0] || (a[0] == b[0] && Leq(a[1..], b[1..]))))
  }

  lemma {:induction false} LeqTotal(a: string, b: string)
    ensures Leq(a, b) || Leq(b, a)
    ensures Leq(a, b) && Leq(b, a) ==> a == b
  {
    if a != "" && b != "" && a[0] == b[0] {
      LeqTotal(a[1..], b[1..]);
      assert a == [a[0]] + a[1..] && b == [b[0]] + b[1..];
    }
  }

  lemma {:induction false} LeqTransitive(a: string, b: string, c: string)
    requires Leq(a, b) && Leq(b, c)
    ensures Leq(a, c)
  {
    if a != "" && a[0] == b[0] && b[0] == c[0] {
      LeqTransitive(a[1..], b[1..], c[1..]);
    }
  }

  /** The first difference decides, and a prefix comes first. */
  lemma {:induction false} FirstDifferenceDecides(prefix: string, a: char, u: string, b: char, v: string)
    requires a != b
    ensures Leq(prefix + [a] + u, prefix + [b] + v) <==> a < b
    ensures Leq(prefix, prefix + [a] + u) && !Leq(prefix + [a] + u, prefix)
  {
    if prefix != "" {
      FirstDifferenceDecides(prefix[1..], a, u, b, v);
      assert (prefix + [a] + u)[1..] == prefix[1..] + [a] + u && (prefix + [b] + v)[1..] == prefix[1..] + [b] + v;
    }
  }

  predicate Least(m: string, s: set<string>) {
    m in s && forall x :: x in s ==> Leq(m, x)
  }

  lemma {:induction false} LeastExists(s: set<string>)
    requires s != {}
    ensures exists m :: Least(m, s)
  {
    var x :| x in s;
    LeqTotal(x, x);
    if s == {x} {
      assert Least(x, s);
    } else {
      LeastExists(s - {x});
      var m :| Least(m, s - {x});
      LeqTotal(x, m);
      if Leq(x, m) {
        forall y | y in s ensures Leq(x, y) {
          if y != x { LeqTransitive(x, m, y); }
        }
        assert Least(x, s);
      } else {
        assert Least(m, s);
      }
    }
  }

  lemma LeastUnique(s: set<string>, m: string, n: string)
    requires Least(m, s) && Least(n, s)
    ensures m == n
  {
    LeqTotal(m, n);
  }

  /** The least element of a non-empty set. */
  function First(s: set<string>): (m: string)
    requires s != {}
    ensures Least(m, s)
  {
    LeastExists(s);
    assert forall m, n :: Least(m, s) && Least(n, s) ==> m == n by {
      forall m, n | Least(m, s) && Least(n, s) ensures m == n { LeastUnique(s, m, n); }
    }
    var m :| m in s && Least(m, s);
    m
  }

  /** `sorted` of a set. */
  function Sorted(s: set<string>): seq<string>
    decreases s
  {
    if s == {} then [] else [First(s)] + Sorted(s - {First(s)})
  }

  ghost predicate Increasing(r: seq<string>) {
    forall i, j :: 0 <= i < j < |r| ==> r[i] != r[j] && Leq(r[i], r[j])
  }

  lemma IncreasingCons(m: string, rest: seq<string>)
    requires Increasing(rest) && forall x :: x in rest ==> x != m && Leq(m, x)
    ensures Increasing([m] + rest)
  {
    forall i, j | 0 <= i < j < |rest| + 1 ensures ([m] + rest)[i] != ([m] + rest)[j] && Leq(([m] + rest)[i], ([m] + rest)[j]) {
      assert rest[j - 1] in rest;
    }
  }

  /** A sorted set lists exactly its elements, in increasing order. */
  lemma {:induction false} SortedLists(s: set<string>)
    ensures |Sorted(s)| == |s|
    ensures forall x :: x in Sorted(s) <==> x in s
    ensures Increasing(Sorted(s))
    decreases s
  {
    if s != {} {
      SortedLists(s - {First(s)});
      IncreasingCons(First(s), Sorted(s - {First(s)}));
    }
  }
}
