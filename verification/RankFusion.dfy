/** Reciprocal rank fusion, with exact fractions for the scores. */
module RankFusion {
  import opened Wrappers
  import opened Sequences
  import opened StableSort

  type Id = int
  type Hits = seq<(Id, real)>

  datatype Error = DivisionByZero

  /** What an occurrence at a rank is worth. */
  function Worth(k: int, rank: nat): real {
    if k + rank + 1 == 0 then 0.0 else 1.0 / ((k + rank + 1) as real)
  }

  /** The worth of every occurrence of an id in a list. */
  function ListScore(hits: Hits, k: int, id: Id): real {
    if hits == [] then 0.0
    else
      var last := |hits| - 1;
      ListScore(hits[..last], k, id) + if hits[last].0 == id then Worth(k, last) else 0.0
  }

  function Score(lists: seq<Hits>, k: int, id: Id): real {
    if lists == [] then 0.0
    else Score(lists[..|lists| - 1], k, id) + ListScore(lists[|lists| - 1], k, id)
  }

  function IdsOf(hits: Hits): seq<Id> {
    seq(|hits|, i requires 0 <= i < |hits| => hits[i].0)
  }

  /** All ids in the order they are met. */
  function Met(lists: seq<Hits>): seq<Id> {
    if lists == [] then [] else Met(lists[..|lists| - 1]) + IdsOf(lists[|lists| - 1])
  }

  /** Every id with its score, in first-seen order. */
  function Scored(lists: seq<Hits>, k: int): Hits {
    var ids := Dedupe(Met(lists));
    seq(|ids|, i requires 0 <= i < |ids| => (ids[i], Score(lists, k, ids[i])))
  }

  function Descending(hit: (Id, real)): real {
    -hit.1
  }

  function Ranked(lists: seq<Hits>, k: int): Hits {
    SortBy(Scored(lists, k), Descending)
  }

  // ---------------------------------------------------------------------------
  // The merge
  // ---------------------------------------------------------------------------

  function Get(scores: map<Id, real>, id: Id): real {
    if id in scores then scores[id] else 0.0
  }

  /** A negative k divides by zero just when some list is long enough to have that rank. */
  predicate HasZeroRank(lists: seq<Hits>, k: int) {
    k < 0 && exists hits :: hits in lists && |hits| >= -k
  }

  /** The scores after the first ranks of a list. */
  ghost predicate Adds(before: map<Id, real>, scores: map<Id, real>, hits: Hits, k: int, rank: nat)
    requires rank <= |hits|
  {
    forall id :: Get(scores, id) == Get(before, id) + ListScore(hits[..rank], k, id)
  }

  lemma AddsNext(before: map<Id, real>, scores: map<Id, real>, hits: Hits, k: int, rank: nat)
    requires rank < |hits| && Adds(before, scores, hits, k, rank)
    ensures Adds(before, scores[hits[rank].0 := Get(scores, hits[rank].0) + Worth(k, rank)], hits, k, rank + 1)
  {
    assert hits[..rank + 1][..rank] == hits[..rank];
  }

  lemma IdsNext(met: seq<Id>, hits: Hits, rank: nat)
    requires rank < |hits|
    ensures var before := met + IdsOf(hits[..rank]); var id := hits[rank].0;
      Dedupe(met + IdsOf(hits[..rank + 1])) == if id in Dedupe(before) then Dedupe(before) else Dedupe(before) + [id]
  {
    assert met + IdsOf(hits[..rank + 1]) == (met + IdsOf(hits[..rank])) + [hits[rank].0];
    DedupeNext(met + IdsOf(hits[..rank]), hits[rank].0);
  }

  method AddList(hits: Hits, k: int, scores0: map<Id, real>, ids0: seq<Id>, ghost met: seq<Id>)
    returns (scores: map<Id, real>, ids: seq<Id>, zero: bool)
    requires ids0 == Dedupe(met) && (forall id :: id in scores0 <==> id in ids0)
    ensures zero <==> k < 0 && |hits| >= -k
    ensures !zero ==> ids == Dedupe(met + IdsOf(hits)) && (forall id :: id in scores <==> id in ids)
    ensures !zero ==> Adds(scores0, scores, hits, k, |hits|)
  {
    scores, ids, zero := scores0, ids0, false;
    assert met + IdsOf(hits[..0]) == met;
    for rank := 0 to |hits|
      invariant k < 0 ==> rank < -k
      invariant ids == Dedupe(met + IdsOf(hits[..rank])) && (forall id :: id in scores <==> id in ids)
      invariant Adds(scores0, scores, hits, k, rank)
    {
      if k + rank + 1 == 0 {
        zero := true;
        return;
      }
      var id := hits[rank].0;
      IdsNext(met, hits, rank);
      AddsNext(scores0, scores, hits, k, rank);
      if id !in scores {
        ids := ids + [id];
      }
      scores := scores[id := Get(scores, id) + Worth(k, rank)];
    }
    assert hits[..|hits|] == hits;
  }

  /** Add up the worth of every occurrence and sort, largest first. */
  method RrfMerge(lists: seq<Hits>, k: int) returns (merged: Result<Hits, Error>)
    ensures merged == if HasZeroRank(lists, k) then Err(DivisionByZero) else Ok(Ranked(lists, k))
  {
    var scores: map<Id, real>, ids: seq<Id> := map[], [];
    for i := 0 to |lists|
      invariant !HasZeroRank(lists[..i], k)
      invariant ids == Dedupe(Met(lists[..i])) && (forall id :: id in scores <==> id in ids)
      invariant forall id :: Get(scores, id) == Score(lists[..i], k, id)
    {
      ghost var before := scores;
      var zero;
      assert lists[..i + 1][..i] == lists[..i];
      scores, ids, zero := AddList(lists[i], k, scores, ids, Met(lists[..i]));
      if zero {
        assert lists[i] in lists;
        return Err(DivisionByZero);
      }
      assert lists[i][..|lists[i]|] == lists[i];
    }
    assert lists[..|lists|] == lists;
    var items := seq(|ids|, i requires 0 <= i < |ids| => (ids[i], Get(scores, ids[i])));
    assert items == Scored(lists, k);
    merged := Ok(SortBy(items, Descending));
  }
}
