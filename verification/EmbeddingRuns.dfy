/** Whole runs, each scan and each window by a provider object of its own: which partition is found
    next follows from how many rows there are under each key. */
module EmbeddingRuns {
  import opened Wrappers
  import opened IdentitySuffixes
  import opened OpenAiProvider
  import opened ProviderKeys
  import opened EmbeddingStore
  import opened EmbeddingScan

  // ---------------------------------------------------------------------------
  // Row counts after a pass
  // ---------------------------------------------------------------------------

  /** What writing items under one key adds to a partition. */
  function Added(items: seq<Work>, written: string, key: string): set<(string, string)> {
    if key == written then set i: nat | i < |items| :: (items[i].name, key) else {}
  }

  /** The rows a partition would have, counted before the pass. */
  function SizeWith(rows: Rows, items: seq<Work>, written: string, key: string): nat {
    |Partition(rows, key) + Added(items, written, key)|
  }

  lemma {:induction false} PutKeys(rows: Rows, key: string, items: seq<Work>, vectors: seq<Vector>)
    requires |items| == |vectors|
    ensures Put(rows, key, items, vectors).Keys == rows.Keys + set i: nat | i < |items| :: (items[i].name, key)
  {
    if items != [] {
      var last := |items| - 1;
      PutKeys(rows, key, items[..last], vectors[..last]);
      assert (set i: nat | i < |items| :: (items[i].name, key)) ==
        (set i: nat | i < last :: (items[..last][i].name, key)) + {(items[last].name, key)};
    }
  }

  lemma PartitionAfter(rows: Rows, written: string, items: seq<Work>, meaning: string -> Vector, key: string)
    ensures Partition(Embedded(rows, written, items, meaning), key) == Partition(rows, key) + Added(items, written, key)
  {
    var after := Embedded(rows, written, items, meaning);
    PutKeys(rows, written, items, Meanings(TextsOf(items), meaning));
    assert after.Keys == rows.Keys + set i: nat | i < |items| :: (items[i].name, written);
  }

  lemma SizeAfter(rows: Rows, written: string, items: seq<Work>, meaning: string -> Vector, key: string)
    ensures Size(Embedded(rows, written, items, meaning), key) == SizeWith(rows, items, written, key)
  {
    PartitionAfter(rows, written, items, meaning, key);
  }

  lemma StoredHasSize(rows: Rows, key: string)
    ensures HasPartition(rows, key) <==> Size(rows, key) > 0
  {
    if HasPartition(rows, key) {
      var k :| k in rows && k.1 == key;
      assert k in Partition(rows, key);
    }
    if Size(rows, key) > 0 {
      var k :| k in Partition(rows, key);
      assert k in rows && k.1 == key;
    }
  }

  /** Of the model's partitions none would have more rows. */
  ghost predicate WouldBeLargest(rows: Rows, n: Naming, items: seq<Work>, written: string, key: string) {
    && n.Owns(key) && SizeWith(rows, items, written, key) > 0
    && forall other :: n.Owns(other) ==> SizeWith(rows, items, written, other) <= SizeWith(rows, items, written, key)
  }

  lemma LargestBySize(rows: Rows, n: Naming, key: string)
    ensures Largest(rows, n, key) <==>
      n.Owns(key) && Size(rows, key) > 0 && forall other :: n.Owns(other) ==> Size(rows, other) <= Size(rows, key)
  {
    StoredHasSize(rows, key);
    forall other | n.Owns(other)
      ensures HasPartition(rows, other) <==> Size(rows, other) > 0
    {
      StoredHasSize(rows, other);
    }
  }

  lemma LargestAfter(rows: Rows, n: Naming, written: string, items: seq<Work>, meaning: string -> Vector, key: string)
    ensures Largest(Embedded(rows, written, items, meaning), n, key) <==> WouldBeLargest(rows, n, items, written, key)
  {
    LargestBySize(Embedded(rows, written, items, meaning), n, key);
    forall other ensures Size(Embedded(rows, written, items, meaning), other) == SizeWith(rows, items, written, other) {
      SizeAfter(rows, written, items, meaning, other);
    }
  }

  lemma WellSpelledAfter(rows: Rows, n: Naming, dim: Option<nat>, items: seq<Work>, meaning: string -> Vector)
    requires n.WellNamed() && WellSpelled(rows, n)
    ensures WellSpelled(Embedded(rows, n.keyOf(dim), items, meaning), n)
  {
    forall key | HasPartition(Embedded(rows, n.keyOf(dim), items, meaning), key)
      ensures n.Owns(key) ==> key == n.keyOf(n.dimOf(key))
      ensures forall d :: n.fold(key) == n.fold(n.keyOf(d)) ==> key == n.keyOf(d)
    {
      PartitionsAfter(rows, n.keyOf(dim), items, meaning, key);
    }
  }

  // ---------------------------------------------------------------------------
  // The scan of the next run
  // ---------------------------------------------------------------------------

  /** Whatever the database makes of partitions with equally many rows, a scan by a provider object
      that knows no dimension finds nothing. */
  ghost predicate Settled(rows: Rows, n: Naming, nodes: seq<Node>, hash: string -> string) {
    forall dim, key :: LooksUnder(rows, n, None, dim, key) ==> Needed(rows, key, nodes, hash) == []
  }

  /** Every partition that would be largest covers all nodes. */
  ghost predicate CoveredByLargest(rows: Rows, n: Naming, first: string, written: string, nodes: seq<Node>,
    hash: string -> string)
  {
    forall key :: WouldBeLargest(rows, n, Needed(rows, first, nodes, hash), written, key) ==>
      Covered(rows, first, written, key, nodes, hash)
  }

  lemma WrittenIsStored(rows: Rows, n: Naming, dim: Option<nat>, items: seq<Work>, meaning: string -> Vector)
    requires n.WellNamed() && (items != [] || !Unstored(rows, n))
    ensures !Unstored(Embedded(rows, n.keyOf(dim), items, meaning), n)
  {
    PartitionsAfter(rows, n.keyOf(dim), items, meaning, n.keyOf(dim));
    if items == [] {
      var key :| n.Owns(key) && HasPartition(rows, key);
      PartitionsAfter(rows, n.keyOf(dim), items, meaning, key);
    }
  }

  /** Exactly then the next run finds nothing, and both sides of it can be told before this one: row
      counts and hashes of the present rows. */
  lemma SettledExactly(rows: Rows, n: Naming, first: string, dim: Option<nat>, nodes: seq<Node>, hash: string -> string,
    meaning: string -> Vector)
    requires n.WellNamed() && WellSpelled(rows, n) && DistinctNodes(nodes)
    requires Needed(rows, first, nodes, hash) != [] || !Unstored(rows, n)
    ensures Settled(AfterPass(rows, first, n.keyOf(dim), nodes, hash, meaning), n, nodes, hash) <==>
      CoveredByLargest(rows, n, first, n.keyOf(dim), nodes, hash)
  {
    var work, written := Needed(rows, first, nodes, hash), n.keyOf(dim);
    var after := AfterPass(rows, first, written, nodes, hash, meaning);
    WellSpelledAfter(rows, n, dim, work, meaning);
    WrittenIsStored(rows, n, dim, work, meaning);
    forall key
      ensures Largest(after, n, key) <==> WouldBeLargest(rows, n, work, written, key)
      ensures Needed(after, key, nodes, hash) == [] <==> Covered(rows, first, written, key, nodes, hash)
    {
      LargestAfter(rows, n, written, work, meaning, key);
      FollowingScan(rows, first, written, key, nodes, hash, meaning);
    }
    SettledByLargest(after, n, nodes, hash);
  }

  lemma SettledByLargest(rows: Rows, n: Naming, nodes: seq<Node>, hash: string -> string)
    requires n.WellNamed() && WellSpelled(rows, n) && !Unstored(rows, n)
    ensures Settled(rows, n, nodes, hash) <==>
      forall key :: Largest(rows, n, key) ==> Needed(rows, key, nodes, hash) == []
  {
    forall dim, key
      ensures LooksUnder(rows, n, None, dim, key) <==> Largest(rows, n, key) && dim == n.dimOf(key)
    {
      LooksUnderLargest(rows, n, dim, key);
    }
    forall key | Largest(rows, n, key) ensures LooksUnder(rows, n, None, n.dimOf(key), key) {
    }
  }

  // ---------------------------------------------------------------------------
  // A store with rows from before the dimension was known
  // ---------------------------------------------------------------------------

  /** Every partition of the model is the one without a dimension or that with the one there is. */
  lemma OnlyTwo(rows: Rows, n: Naming, dim: nat, items: seq<Work>, key: string)
    requires n.WellNamed() && WellSpelled(rows, n) && OneDimension(rows, n, dim) && n.Owns(key)
    requires SizeWith(rows, items, n.keyOf(Some(dim)), key) > 0
    ensures key == n.keyOf(None) || key == n.keyOf(Some(dim))
  {
    if key != n.keyOf(Some(dim)) {
      assert Partition(rows, key) + {} == Partition(rows, key);
      StoredHasSize(rows, key);
    }
  }

  lemma SizesOfTwo(rows: Rows, n: Naming, dim: nat, items: seq<Work>)
    requires n.WellNamed() && WellSpelled(rows, n) && OneDimension(rows, n, dim)
    ensures NoOthers(rows, n, dim, items)
  {
    var bare, sized := n.keyOf(None), n.keyOf(Some(dim));
    assert bare != sized by {
      assert n.dimOf(bare) != n.dimOf(sized);
    }
    assert Partition(rows, bare) + {} == Partition(rows, bare);
    forall other | n.Owns(other) ensures SizeWith(rows, items, sized, other) == 0 || other == bare || other == sized {
      if SizeWith(rows, items, sized, other) > 0 {
        OnlyTwo(rows, n, dim, items, other);
      }
    }
  }

  ghost predicate NoOthers(rows: Rows, n: Naming, dim: nat, items: seq<Work>) {
    var bare, sized := n.keyOf(None), n.keyOf(Some(dim));
    && bare != sized && n.Owns(bare) && n.Owns(sized)
    && SizeWith(rows, items, sized, bare) == Size(rows, bare)
    && forall other :: n.Owns(other) ==> SizeWith(rows, items, sized, other) == 0 || other == bare || other == sized
  }

  /** Which of the two would be larger after a pass that writes with the dimension. */
  ghost predicate LargerOfTwo(rows: Rows, n: Naming, dim: nat, items: seq<Work>, key: string) {
    var bare, sized := n.keyOf(None), n.keyOf(Some(dim));
    var grown := SizeWith(rows, items, sized, sized);
    || (key == bare && Size(rows, bare) > 0 && grown <= Size(rows, bare))
    || (key == sized && grown > 0 && Size(rows, bare) <= grown)
  }

  lemma LargestOfTwo(rows: Rows, n: Naming, dim: nat, items: seq<Work>, key: string)
    requires NoOthers(rows, n, dim, items)
    ensures WouldBeLargest(rows, n, items, n.keyOf(Some(dim)), key) <==> LargerOfTwo(rows, n, dim, items, key)
  {
  }

  /** The partition without a dimension is found again when it stays the larger one. */
  ghost predicate StaysLarger(rows: Rows, n: Naming, dim: nat, items: seq<Work>) {
    Size(rows, n.keyOf(None)) > SizeWith(rows, items, n.keyOf(Some(dim)), n.keyOf(Some(dim)))
  }

  ghost predicate BecomesLarger(rows: Rows, n: Naming, dim: nat, items: seq<Work>) {
    Size(rows, n.keyOf(None)) < SizeWith(rows, items, n.keyOf(Some(dim)), n.keyOf(Some(dim)))
  }

  lemma GrownHasWork(rows: Rows, items: seq<Work>, key: string)
    requires items != []
    ensures SizeWith(rows, items, key, key) > 0
  {
    assert (items[0].name, key) in Partition(rows, key) + Added(items, key, key);
  }

  lemma NotCoveredThere(rows: Rows, key: string, written: string, nodes: seq<Node>, hash: string -> string)
    requires DistinctNodes(nodes) && key != written && Needed(rows, key, nodes, hash) != []
    ensures !Covered(rows, key, written, key, nodes, hash)
  {
    SameKeyScan(rows, key, written, nodes, hash, _ => []);
    FollowingScan(rows, key, written, key, nodes, hash, _ => []);
  }

  lemma CoveredByTheLarger(rows: Rows, n: Naming, dim: nat, nodes: seq<Node>, hash: string -> string)
    requires DistinctNodes(nodes) && NoOthers(rows, n, dim, Needed(rows, n.keyOf(None), nodes, hash))
    requires Needed(rows, n.keyOf(None), nodes, hash) != []
    ensures var bare, sized := n.keyOf(None), n.keyOf(Some(dim));
      CoveredByLargest(rows, n, bare, sized, nodes, hash) <==>
        BecomesLarger(rows, n, dim, Needed(rows, bare, nodes, hash)) && Behind(rows, bare, sized, nodes, hash)
  {
    var bare, sized := n.keyOf(None), n.keyOf(Some(dim));
    var work := Needed(rows, bare, nodes, hash);
    LargestOfTwo(rows, n, dim, work, bare);
    LargestOfTwo(rows, n, dim, work, sized);
    GrownHasWork(rows, work, sized);
    CoveredWhenWritten(rows, bare, sized, nodes, hash);
    NotCoveredThere(rows, bare, sized, nodes, hash);
  }

  /** A run that looks under the partition without a dimension and writes with one leaves nothing for
      the next run, however that breaks ties, if and only if the written partition becomes the larger
      one and what was passed over is up to date there. */
  lemma NewDimensionSettlesExactly(rows: Rows, n: Naming, dim: nat, nodes: seq<Node>, hash: string -> string,
    meaning: string -> Vector)
    requires n.WellNamed() && WellSpelled(rows, n) && OneDimension(rows, n, dim) && DistinctNodes(nodes)
    requires Needed(rows, n.keyOf(None), nodes, hash) != []
    ensures var bare, sized := n.keyOf(None), n.keyOf(Some(dim));
      Settled(AfterPass(rows, bare, sized, nodes, hash, meaning), n, nodes, hash) <==>
        BecomesLarger(rows, n, dim, Needed(rows, bare, nodes, hash)) && Behind(rows, bare, sized, nodes, hash)
  {
    SettledExactly(rows, n, n.keyOf(None), Some(dim), nodes, hash, meaning);
    SizesOfTwo(rows, n, dim, Needed(rows, n.keyOf(None), nodes, hash));
    CoveredByTheLarger(rows, n, dim, nodes, hash);
  }

  // ---------------------------------------------------------------------------
  // Run after run
  // ---------------------------------------------------------------------------

  /** Every scan that knows no dimension looks under that key. */
  ghost predicate AlwaysFinds(rows: Rows, n: Naming, key: string) {
    forall dim, found :: LooksUnder(rows, n, None, dim, found) ==> found == key
  }

  lemma FoundIsLarger(rows: Rows, n: Naming, dim: nat, later: Option<nat>, found: string, key: string)
    requires n.WellNamed() && WellSpelled(rows, n) && OneDimension(rows, n, dim)
    requires LooksUnder(rows, n, None, later, found) && n.Owns(key) && HasPartition(rows, key)
    ensures found == n.keyOf(None) || found == n.keyOf(Some(dim))
    ensures Size(rows, key) <= Size(rows, found)
  {
    LooksUnderLargest(rows, n, later, found);
    assert found == n.keyOf(n.dimOf(found));
  }

  /** Of the two it is the strictly larger one that is found. */
  lemma LargerIsFound(rows: Rows, n: Naming, dim: nat)
    requires n.WellNamed() && WellSpelled(rows, n) && OneDimension(rows, n, dim)
    ensures Size(rows, n.keyOf(None)) > Size(rows, n.keyOf(Some(dim))) ==> AlwaysFinds(rows, n, n.keyOf(None))
    ensures Size(rows, n.keyOf(None)) < Size(rows, n.keyOf(Some(dim))) ==> AlwaysFinds(rows, n, n.keyOf(Some(dim)))
  {
    var bare, sized := n.keyOf(None), n.keyOf(Some(dim));
    StoredHasSize(rows, bare);
    StoredHasSize(rows, sized);
    forall later, found | LooksUnder(rows, n, None, later, found) && Size(rows, bare) != Size(rows, sized)
      ensures found == if Size(rows, bare) > Size(rows, sized) then bare else sized
    {
      FoundIsLarger(rows, n, dim, later, found, if Size(rows, bare) > Size(rows, sized) then bare else sized);
    }
  }

  /** Writing the same items again changes no row count, and none is changed elsewhere. */
  lemma SizesAfterPass(rows: Rows, bare: string, sized: string, work: seq<Work>, meaning: string -> Vector)
    requires bare != sized
    ensures var after := Embedded(rows, sized, work, meaning);
      && Size(after, bare) == Size(rows, bare)
      && SizeWith(after, work, sized, sized) == SizeWith(rows, work, sized, sized) == Size(after, sized)
  {
    var after := Embedded(rows, sized, work, meaning);
    SizeAfter(rows, sized, work, meaning, bare);
    assert Partition(rows, bare) + {} == Partition(rows, bare);
    PartitionAfter(rows, sized, work, meaning, sized);
    assert Partition(after, sized) + Added(work, sized, sized) == Partition(after, sized);
  }

  /** The partition without a dimension is the larger, that is the work it leaves, and writing that
      under the other one does not change which is larger. */
  ghost predicate Outnumbered(rows: Rows, n: Naming, dim: nat, nodes: seq<Node>, hash: string -> string,
    work: seq<Work>)
  {
    && WellSpelled(rows, n) && OneDimension(rows, n, dim)
    && Needed(rows, n.keyOf(None), nodes, hash) == work && StaysLarger(rows, n, dim, work)
  }

  /** One run of such a store leaves it such a store. */
  lemma OutnumberedStays(rows: Rows, n: Naming, dim: nat, nodes: seq<Node>, hash: string -> string,
    meaning: string -> Vector, work: seq<Work>)
    requires n.WellNamed() && DistinctNodes(nodes) && Outnumbered(rows, n, dim, nodes, hash, work)
    ensures Outnumbered(AfterPass(rows, n.keyOf(None), n.keyOf(Some(dim)), nodes, hash, meaning), n, dim, nodes, hash, work)
  {
    var bare, sized := n.keyOf(None), n.keyOf(Some(dim));
    assert bare != sized by {
      assert n.dimOf(bare) != n.dimOf(sized);
    }
    WellSpelledAfter(rows, n, Some(dim), work, meaning);
    KeepsOneDimension(rows, n, dim, work, Meanings(TextsOf(work), meaning));
    SameKeyScan(rows, bare, sized, nodes, hash, meaning);
    SizesAfterPass(rows, bare, sized, work, meaning);
  }

  lemma OutnumberedFinds(rows: Rows, n: Naming, dim: nat, nodes: seq<Node>, hash: string -> string, work: seq<Work>)
    requires n.WellNamed() && Outnumbered(rows, n, dim, nodes, hash, work)
    ensures AlwaysFinds(rows, n, n.keyOf(None))
  {
    GrowsBy(rows, work, n.keyOf(Some(dim)));
    LargerIsFound(rows, n, dim);
  }

  /** What every pass keeps holds after any number of them. */
  lemma {:induction false} PassesKeep(keeps: Rows -> bool, rows: Rows, key: string, computed: string, nodes: seq<Node>,
    hash: string -> string, meaning: string -> Vector, times: nat)
    requires keeps(rows) && forall r :: keeps(r) ==> keeps(AfterPass(r, key, computed, nodes, hash, meaning))
    ensures keeps(Passes(rows, key, computed, nodes, hash, meaning, times))
  {
    if times > 0 {
      PassesKeep(keeps, rows, key, computed, nodes, hash, meaning, times - 1);
    }
  }

  lemma OutnumberedForEver(rows: Rows, n: Naming, dim: nat, nodes: seq<Node>, hash: string -> string,
    meaning: string -> Vector, work: seq<Work>, times: nat)
    requires n.WellNamed() && DistinctNodes(nodes) && Outnumbered(rows, n, dim, nodes, hash, work)
    ensures Outnumbered(Passes(rows, n.keyOf(None), n.keyOf(Some(dim)), nodes, hash, meaning, times), n, dim, nodes, hash,
      work)
  {
    ghost var keeps := (r: Rows) => Outnumbered(r, n, dim, nodes, hash, work);
    forall r: Rows | keeps(r) ensures keeps(AfterPass(r, n.keyOf(None), n.keyOf(Some(dim)), nodes, hash, meaning)) {
      OutnumberedStays(r, n, dim, nodes, hash, meaning, work);
    }
    PassesKeep(keeps, rows, n.keyOf(None), n.keyOf(Some(dim)), nodes, hash, meaning, times);
  }

  /** Then it never settles: while rows without a dimension outnumber those with one, each run finds
      them again, and all of the work. */
  lemma LargerPartitionNeverSettles(rows: Rows, n: Naming, dim: nat, nodes: seq<Node>, hash: string -> string,
    meaning: string -> Vector, times: nat)
    requires n.WellNamed() && WellSpelled(rows, n) && OneDimension(rows, n, dim) && DistinctNodes(nodes)
    requires StaysLarger(rows, n, dim, Needed(rows, n.keyOf(None), nodes, hash))
    ensures var after := Passes(rows, n.keyOf(None), n.keyOf(Some(dim)), nodes, hash, meaning, times);
      && AlwaysFinds(after, n, n.keyOf(None))
      && Needed(after, n.keyOf(None), nodes, hash) == Needed(rows, n.keyOf(None), nodes, hash)
  {
    var work := Needed(rows, n.keyOf(None), nodes, hash);
    OutnumberedForEver(rows, n, dim, nodes, hash, meaning, work, times);
    OutnumberedFinds(Passes(rows, n.keyOf(None), n.keyOf(Some(dim)), nodes, hash, meaning, times), n, dim, nodes, hash,
      work);
  }

  lemma GrowsBy(rows: Rows, items: seq<Work>, key: string)
    ensures Size(rows, key) <= SizeWith(rows, items, key, key)
  {
    SubsetIsSmaller(Partition(rows, key), Partition(rows, key) + Added(items, key, key));
  }

  /** Otherwise, ties aside, two runs settle it: the second finds the written partition and what was
      passed over there. */
  lemma SmallerPartitionSettlesInTwo(rows: Rows, n: Naming, dim: nat, nodes: seq<Node>, hash: string -> string,
    meaning: string -> Vector)
    requires n.WellNamed() && WellSpelled(rows, n) && OneDimension(rows, n, dim) && DistinctNodes(nodes)
    requires BecomesLarger(rows, n, dim, Needed(rows, n.keyOf(None), nodes, hash))
    ensures var bare, sized := n.keyOf(None), n.keyOf(Some(dim));
      var once := AfterPass(rows, bare, sized, nodes, hash, meaning);
      AlwaysFinds(once, n, sized) && Settled(AfterPass(once, sized, sized, nodes, hash, meaning), n, nodes, hash)
  {
    var bare, sized := n.keyOf(None), n.keyOf(Some(dim));
    var once := AfterPass(rows, bare, sized, nodes, hash, meaning);
    PassFindsSized(rows, n, dim, Needed(rows, bare, nodes, hash), meaning);
    GrowsBy(once, Needed(once, sized, nodes, hash), sized);
    PassFindsSized(once, n, dim, Needed(once, sized, nodes, hash), meaning);
    SameKeyScan(once, sized, sized, nodes, hash, meaning);
  }

  lemma PassFindsSized(rows: Rows, n: Naming, dim: nat, work: seq<Work>, meaning: string -> Vector)
    requires n.WellNamed() && WellSpelled(rows, n) && OneDimension(rows, n, dim) && BecomesLarger(rows, n, dim, work)
    ensures var after := Embedded(rows, n.keyOf(Some(dim)), work, meaning);
      && WellSpelled(after, n) && OneDimension(after, n, dim) && AlwaysFinds(after, n, n.keyOf(Some(dim)))
      && Size(after, n.keyOf(None)) < Size(after, n.keyOf(Some(dim)))
  {
    var bare, sized := n.keyOf(None), n.keyOf(Some(dim));
    assert bare != sized by {
      assert n.dimOf(bare) != n.dimOf(sized);
    }
    WellSpelledAfter(rows, n, Some(dim), work, meaning);
    KeepsOneDimension(rows, n, dim, work, Meanings(TextsOf(work), meaning));
    SizesAfterPass(rows, bare, sized, work, meaning);
    LargerIsFound(Embedded(rows, sized, work, meaning), n, dim);
  }

  lemma SubsetIsSmaller<T>(a: set<T>, b: set<T>)
    requires a <= b
    ensures |a| <= |b|
  {
    assert b == a + (b - a);
  }

  // ---------------------------------------------------------------------------
  // An instance
  // ---------------------------------------------------------------------------

  function PlainKey(dim: Option<nat>): string {
    if dim.None? then "P" else "P#dim=" + Digits(dim.value)
  }

  function PlainDim(key: string): Option<nat> {
    if "P#dim=" <= key then Number(key[6..]) else None
  }

  /** A model of that name. */
  const PLAIN := Naming(PlainKey, PlainKey, (s: string) => s, (s: string) => if "P#dim=" <= s then "P" else s, PlainDim)

  lemma PlainIsWellNamed()
    ensures PLAIN.WellNamed()
  {
    forall d ensures PLAIN.keyOf(d) != "" && PLAIN.dimOf(PLAIN.keyOf(d)) == d && PLAIN.Owns(PLAIN.keyOf(d)) {
      if d.Some? {
        NumberOfDigits(d.value);
        assert PlainKey(d)[6..] == Digits(d.value) && "P#dim=" <= PlainKey(d);
      }
    }
  }

  const A := ("a", "P")
  const B := ("b", "P")

  /** Two rows without a dimension, one of them outdated: it is work in every run. */
  lemma OneOfTwoNeverSettles(hash: string -> string, meaning: string -> Vector, times: nat)
    requires hash("new") != hash("old")
    ensures var rows: Rows := map[A := Row([], hash("old")), B := Row([], hash("old"))];
      var nodes := [Node("a", false, "new"), Node("b", false, "old")];
      var after := Passes(rows, "P", PlainKey(Some(4)), nodes, hash, meaning, times);
      AlwaysFinds(after, PLAIN, "P") && Needed(after, "P", nodes, hash) == [Work("a", "new", hash("new"))]
  {
    var rows: Rows := map[A := Row([], hash("old")), B := Row([], hash("old"))];
    var nodes := [Node("a", false, "new"), Node("b", false, "old")];
    assert nodes[..1] == [nodes[0]];
    NeededOne(rows, "P", nodes[0], hash);
    assert Needed(rows, "P", nodes, hash) == [Work("a", "new", hash("new"))];
    PlainIsWellNamed();
    TwoRows(rows, hash("new"));
    LargerPartitionNeverSettles(rows, PLAIN, 4, nodes, hash, meaning, times);
  }

  lemma TwoRows(rows: Rows, textHash: string)
    requires rows.Keys == {A, B}
    ensures WellSpelled(rows, PLAIN) && OneDimension(rows, PLAIN, 4)
    ensures StaysLarger(rows, PLAIN, 4, [Work("a", "new", textHash)])
  {
    var items, sized := [Work("a", "new", textHash)], PlainKey(Some(4));
    assert PlainKey(Some(4)) != "P";
    assert Partition(rows, "P") == {A, B};
    assert Partition(rows, sized) == {};
    assert (items[0].name, sized) in Added(items, sized, sized);
    assert Added(items, sized, sized) == {("a", sized)};
  }

  // ---------------------------------------------------------------------------
  // One run
  // ---------------------------------------------------------------------------

  /** Scan once and write in windows. With a truthful server and but one dimension, a run that gets to
      the end leaves the rows of the pass that all of this is about. */
  method EmbedInWindows(store: EmbeddingStore, nodes: seq<Node>, hash: string -> string, deadline: nat -> nat -> bool,
    passOver: nat -> bool, ghost dim: nat, ghost meaning: string -> Vector)
    returns (r: Result<nat, Failure>, work: seq<Work>, ghost known: Option<nat>, ghost key: string)
    requires store.provider.Valid() && store.provider.batchSize > 0 && forall d :: store.naming.keyOf(d) != ""
    modifies store, store.provider
    ensures LooksUnder(old(store.rows), store.naming, store.provider.pinned, known, key)
    ensures work == Needed(old(store.rows), key, nodes, hash)
    ensures r.Ok? && r.value == |work| && Honest(store.provider.serve, meaning)
      && store.OnlyDimension(old(store.rows), Meanings(TextsOf(work), meaning), dim)
      ==> store.rows == AfterPass(old(store.rows), key, store.naming.keyOf(Some(dim)), nodes, hash, meaning)
  {
    ghost var before := store.rows;
    store.Reopen();
    work, key := PrepareEmbedWork(store, nodes, hash);
    known := store.provider.dimension;
    ghost var first, done, keys, vectors := store.provider.calls, [], [], [];
    var slices;
    r, slices, done, keys, vectors := store.EmbedInSlices(work, deadline, passOver, dim);
    if r.Ok? && r.value == |work| && Honest(store.provider.serve, meaning)
       && store.OnlyDimension(before, Meanings(TextsOf(work), meaning), dim) {
      assert work[..|work|] == work;
      store.SlicedHonestly(before, first, work, keys, vectors, dim, meaning);
    }
  }
}
