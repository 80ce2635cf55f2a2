/** What fusing ranks does to the order of the items. */
module RankFusionTheorems {
  import opened Sequences
  import opened StableSort
  import opened RankFusion

  /** Some list holds the id. */
  ghost predicate Found(lists: seq<Hits>, id: Id) {
    exists n :: 0 <= n < |lists| && id in IdsOf(lists[n])
  }

  lemma {:induction false} MetIsFound(lists: seq<Hits>, id: Id)
    ensures id in Met(lists) <==> Found(lists, id)
  {
    if lists != [] {
      var last := |lists| - 1;
      MetIsFound(lists[..last], id);
      if Found(lists, id) && id !in IdsOf(lists[last]) {
        var n :| 0 <= n < |lists| && id in IdsOf(lists[n]);
        assert id in IdsOf(lists[..last][n]);
      }
      if id in Met(lists[..last]) {
        var n :| 0 <= n < last && id in IdsOf(lists[..last][n]);
        assert id in IdsOf(lists[n]);
      }
    }
  }

  function Entry(lists: seq<Hits>, k: int, id: Id): (Id, real) {
    (id, Score(lists, k, id))
  }

  lemma ScoredHolds(lists: seq<Hits>, k: int, hit: (Id, real))
    ensures hit in Scored(lists, k) <==> Found(lists, hit.0) && hit == Entry(lists, k, hit.0)
  {
    MetIsFound(lists, hit.0);
    var ids := Dedupe(Met(lists));
    if hit.0 in ids {
      var n :| 0 <= n < |ids| && ids[n] == hit.0;
      assert Scored(lists, k)[n] == Entry(lists, k, hit.0);
    }
  }

  /** The result is the union of the lists, each id once with the sum of its occurrences, and the
      scores descend. */
  lemma RankedIsTheUnion(lists: seq<Hits>, k: int)
    ensures forall hit :: hit in Ranked(lists, k) <==> Found(lists, hit.0) && hit == Entry(lists, k, hit.0)
    ensures Distinct(Ranked(lists, k))
    ensures forall i, j :: 0 <= i < j < |Ranked(lists, k)| ==> Ranked(lists, k)[i].1 >= Ranked(lists, k)[j].1
  {
    var items, r := Scored(lists, k), Ranked(lists, k);
    SortPermutes(items, Descending);
    SortAscends(items, Descending);
    DedupeIsDistinct(Met(lists));
    forall hit ensures hit in r <==> Found(lists, hit.0) && hit == Entry(lists, k, hit.0) {
      ScoredHolds(lists, k, hit);
    }
    forall i, j | 0 <= i < j < |r| ensures r[i].1 >= r[j].1 {
      assert Descending(r[i]) <= Descending(r[j]);
    }
    assert Distinct(items);
    DistinctByCount(items, r);
  }

  lemma {:induction false} CountOfDistinct<T>(s: seq<T>, x: T)
    requires Distinct(s)
    ensures multiset(s)[x] <= 1
  {
    if s != [] {
      CountOfDistinct(s[1..], x);
      assert s == [s[0]] + s[1..];
      if x == s[0] {
        assert x !in s[1..];
      }
    }
  }

  lemma DistinctByCount<T>(s: seq<T>, r: seq<T>)
    requires Distinct(s) && multiset(r) == multiset(s)
    ensures Distinct(r)
  {
    forall i, j | 0 <= i < j < |r| ensures r[i] != r[j] {
      assert r == r[..j] + [r[j]] + r[j + 1..];
      assert r[i] == r[..j][i] && r[i] in multiset(r[..j]);
      CountOfDistinct(s, r[i]);
    }
  }

  /** One id comes before another in the merged list. */
  ghost predicate Outranks(lists: seq<Hits>, k: int, x: Id, y: Id) {
    Before(Ranked(lists, k), Entry(lists, k, x), Entry(lists, k, y))
  }

  lemma HigherScoreOutranks(lists: seq<Hits>, k: int, x: Id, y: Id)
    requires Found(lists, x) && Found(lists, y) && Score(lists, k, x) > Score(lists, k, y)
    ensures Outranks(lists, k, x, y)
  {
    RankedIsTheUnion(lists, k);
    var r, ex, ey := Ranked(lists, k), Entry(lists, k, x), Entry(lists, k, y);
    assert ex in r && ey in r;
    var i :| 0 <= i < |r| && r[i] == ex;
    var j :| 0 <= j < |r| && r[j] == ey;
  }

  /** Equal scores keep the order in which the ids were first seen. */
  lemma TiesKeepFirstSeen(lists: seq<Hits>, k: int, x: Id, y: Id)
    requires Before(Dedupe(Met(lists)), x, y) && Score(lists, k, x) == Score(lists, k, y)
    ensures Outranks(lists, k, x, y)
  {
    var ids := Dedupe(Met(lists));
    var i, j :| 0 <= i < j < |ids| && ids[i] == x && ids[j] == y;
    var items := Scored(lists, k);
    assert items[i] == Entry(lists, k, x) && items[j] == Entry(lists, k, y);
    SortIsStable(items, Descending, Entry(lists, k, x), Entry(lists, k, y));
  }

  // ---------------------------------------------------------------------------
  // Ranks
  // ---------------------------------------------------------------------------

  ghost predicate AtRank(hits: Hits, rank: nat, id: Id) {
    rank < |hits| && hits[rank].0 == id
  }

  lemma {:induction false} AbsentScoresNothing(hits: Hits, k: int, id: Id)
    requires id !in IdsOf(hits)
    ensures ListScore(hits, k, id) == 0.0
  {
    if hits != [] {
      var last := |hits| - 1;
      forall i | 0 <= i < |hits| ensures hits[i].0 != id {
        assert IdsOf(hits)[i] == hits[i].0;
      }
      AbsentScoresNothing(hits[..last], k, id);
    }
  }

  lemma {:induction false} RankScores(hits: Hits, k: int, rank: nat, id: Id)
    requires Distinct(IdsOf(hits)) && AtRank(hits, rank, id)
    ensures ListScore(hits, k, id) == Worth(k, rank)
  {
    var last := |hits| - 1;
    var init := hits[..last];
    forall i, j | 0 <= i < j < |hits| ensures hits[i].0 != hits[j].0 {
      assert IdsOf(hits)[i] != IdsOf(hits)[j];
    }
    if rank < last {
      RankScores(init, k, rank, id);
    } else {
      AbsentScoresNothing(init, k, id);
    }
  }

  /** A better rank is worth more. */
  lemma WorthFalls(k: int, a: nat, b: nat)
    requires 0 <= k && a < b
    ensures Worth(k, a) > Worth(k, b) > 0.0
  {
    Reciprocal((k + a + 1) as real, (k + b + 1) as real);
  }

  lemma Reciprocal(x: real, y: real)
    requires 0.0 < x < y
    ensures 1.0 / x > 1.0 / y > 0.0
  {
    assert 1.0 / x - 1.0 / y == (y - x) / (x * y);
  }

  // ---------------------------------------------------------------------------
  // What that does to the order
  // ---------------------------------------------------------------------------

  /** A single duplicate-free list is scored by its ranks. */
  lemma SingleListScores(hits: Hits, k: int)
    requires Distinct(IdsOf(hits))
    ensures Scored([hits], k) == seq(|hits|, i requires 0 <= i < |hits| => (hits[i].0, Worth(k, i)))
  {
    var ids := IdsOf(hits);
    assert [hits][..0] == [];
    assert Met([hits]) == ids;
    DedupeOfDistinct(ids);
    forall i | 0 <= i < |hits| ensures Score([hits], k, hits[i].0) == Worth(k, i) {
      RankScores(hits, k, i, hits[i].0);
    }
  }

  /** So it keeps its order, whatever the k. */
  lemma SingleListKeepsItsOrder(hits: Hits, k: int)
    requires 0 <= k && Distinct(IdsOf(hits))
    ensures IdsOf(Ranked([hits], k)) == IdsOf(hits)
  {
    SingleListScores(hits, k);
    var items := Scored([hits], k);
    forall i, j | 0 <= i < j < |items| ensures Descending(items[i]) <= Descending(items[j]) {
      WorthFalls(k, i, j);
    }
    SortOfSorted(items, Descending);
  }

  ghost predicate Ahead(hits: Hits, x: Id, y: Id) {
    exists i: nat, j: nat :: i < j && AtRank(hits, i, x) && AtRank(hits, j, y)
  }

  lemma AheadScoresMore(hits: Hits, k: int, x: Id, y: Id)
    requires 0 <= k && Distinct(IdsOf(hits))
    requires y in IdsOf(hits) ==> Ahead(hits, x, y)
    ensures ListScore(hits, k, x) >= ListScore(hits, k, y)
    ensures y in IdsOf(hits) ==> ListScore(hits, k, x) > ListScore(hits, k, y)
  {
    if y in IdsOf(hits) {
      var i: nat, j: nat :| i < j && AtRank(hits, i, x) && AtRank(hits, j, y);
      RankScores(hits, k, i, x);
      RankScores(hits, k, j, y);
      WorthFalls(k, i, j);
    } else {
      AbsentScoresNothing(hits, k, y);
      NeverNegative(hits, k, x);
    }
  }

  lemma {:induction false} NeverNegative(hits: Hits, k: int, id: Id)
    requires 0 <= k
    ensures ListScore(hits, k, id) >= 0.0
  {
    if hits != [] {
      NeverNegative(hits[..|hits| - 1], k, id);
      WorthFalls(k, |hits| - 1, |hits|);
    }
  }

  lemma {:induction false} DominanceAddsUp(lists: seq<Hits>, k: int, x: Id, y: Id)
    requires 0 <= k
    requires forall n :: 0 <= n < |lists| ==> Distinct(IdsOf(lists[n]))
    requires forall n :: 0 <= n < |lists| ==> y in IdsOf(lists[n]) ==> Ahead(lists[n], x, y)
    ensures Score(lists, k, x) >= Score(lists, k, y)
    ensures Found(lists, y) ==> Score(lists, k, x) > Score(lists, k, y) && Found(lists, x)
  {
    if lists != [] {
      var last := |lists| - 1;
      DominanceAddsUp(lists[..last], k, x, y);
      AheadScoresMore(lists[last], k, x, y);
      if Found(lists, y) {
        var n :| 0 <= n < |lists| && y in IdsOf(lists[n]);
        var i: nat, j: nat :| i < j && AtRank(lists[n], i, x) && AtRank(lists[n], j, y);
        assert IdsOf(lists[n])[i] == x;
        assert n < last ==> y in IdsOf(lists[..last][n]);
      }
    }
  }

  /** Ahead in every duplicate-free list that holds the other means ahead in the result. */
  lemma AheadEverywhereOutranks(lists: seq<Hits>, k: int, x: Id, y: Id)
    requires 0 <= k && Found(lists, y)
    requires forall n :: 0 <= n < |lists| ==> Distinct(IdsOf(lists[n]))
    requires forall n :: 0 <= n < |lists| ==> y in IdsOf(lists[n]) ==> Ahead(lists[n], x, y)
    ensures Outranks(lists, k, x, y)
  {
    DominanceAddsUp(lists, k, x, y);
    HigherScoreOutranks(lists, k, x, y);
  }

  lemma OneOverTwo(p: real, q: real)
    requires 0.0 < p && 0.0 < q
    ensures 1.0 / p > 1.0 / q + 1.0 / q <==> q > 2.0 * p
  {
    assert 1.0 / p - (1.0 / q + 1.0 / q) == (q - 2.0 * p) / (p * q);
    assert p * q > 0.0;
  }

  /** The balance k sets: rank a in one list beats rank b in two lists for small k only. */
  lemma OneListBeatsTwo(f: Hits, g: Hits, k: int, x: Id, y: Id, a: nat, b: nat)
    requires 0 <= k && Distinct(IdsOf(f)) && Distinct(IdsOf(g))
    requires (AtRank(f, a, x) && x !in IdsOf(g)) || (AtRank(g, a, x) && x !in IdsOf(f))
    requires AtRank(f, b, y) && AtRank(g, b, y)
    ensures Score([f, g], k, x) > Score([f, g], k, y) <==> k < b - 2 * a - 1
    ensures k < b - 2 * a - 1 ==> Outranks([f, g], k, x, y)
  {
    assert [f, g][..1] == [f] && [f][..0] == [];
    forall id ensures Score([f, g], k, id) == ListScore(f, k, id) + ListScore(g, k, id) {
      assert Score([f], k, id) == ListScore(f, k, id);
    }
    RankScores(f, k, b, y);
    RankScores(g, k, b, y);
    if AtRank(f, a, x) && x !in IdsOf(g) {
      RankScores(f, k, a, x);
      AbsentScoresNothing(g, k, x);
    } else {
      RankScores(g, k, a, x);
      AbsentScoresNothing(f, k, x);
    }
    OneOverTwo((k + a + 1) as real, (k + b + 1) as real);
    if k < b - 2 * a - 1 {
      assert [f, g][0] == f && [f, g][1] == g && IdsOf(f)[b] == y;
      assert (AtRank(f, a, x) ==> IdsOf(f)[a] == x) && (AtRank(g, a, x) ==> IdsOf(g)[a] == x);
      HigherScoreOutranks([f, g], k, x, y);
    }
  }
}
