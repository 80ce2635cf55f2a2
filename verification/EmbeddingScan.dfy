/** The scan for work, before and after an embedding run. */
module EmbeddingScan {
  import opened Wrappers
  import opened Sequences
  import opened OpenAiProvider
  import opened ProviderKeys
  import opened EmbeddingStore

  predicate UpToDate(rows: Rows, key: string, node: Node, hash: string -> string) {
    (node.name, key) in rows && rows[(node.name, key)].textHash == hash(node.text)
  }

  /** One item for every node but files whose row is missing or of another text, in order. */
  function Needed(rows: Rows, key: string, nodes: seq<Node>, hash: string -> string): seq<Work> {
    if nodes == [] then []
    else
      var last := nodes[|nodes| - 1];
      Needed(rows, key, nodes[..|nodes| - 1], hash) +
      if last.isFile || UpToDate(rows, key, last, hash) then [] else [Work(last.name, last.text, hash(last.text))]
  }

  /** The scan under one key: one query for the hashes, then one look at every node. */
  method ScanUnder(rows: Rows, key: string, nodes: seq<Node>, hash: string -> string) returns (work: seq<Work>)
    ensures work == Needed(rows, key, nodes, hash)
  {
    var existing: map<string, string> := map[];
    for i := 0 to |nodes|
      invariant forall name :: name in existing ==> (name, key) in rows && existing[name] == rows[(name, key)].textHash
      invariant forall n :: 0 <= n < i && (nodes[n].name, key) in rows && !nodes[n].isFile ==> nodes[n].name in existing
    {
      if !nodes[i].isFile && (nodes[i].name, key) in rows {
        existing := existing[nodes[i].name := rows[(nodes[i].name, key)].textHash];
      }
    }
    work := [];
    for i := 0 to |nodes|
      invariant work == Needed(rows, key, nodes[..i], hash)
    {
      var node := nodes[i];
      assert nodes[..i + 1][..i] == nodes[..i];
      if !node.isFile && !(node.name in existing && existing[node.name] == hash(node.text)) {
        work := work + [Work(node.name, node.text, hash(node.text))];
      }
    }
    assert nodes[..|nodes|] == nodes;
  }

  /** Look up the key of the store's provider and scan under it. */
  method PrepareEmbedWork(store: EmbeddingStore, nodes: seq<Node>, hash: string -> string)
    returns (work: seq<Work>, ghost key: string)
    requires forall d :: store.naming.keyOf(d) != ""
    modifies store.provider`dimension
    ensures LooksUnder(store.rows, store.naming, old(store.provider.dimension), store.provider.dimension, key)
    ensures work == Needed(store.rows, key, nodes, hash)
  {
    var lookupKey := store.ProviderKeyForLookup();
    key := lookupKey;
    work := ScanUnder(store.rows, lookupKey, nodes, hash);
  }

  lemma {:induction false} NeededIsDistinct(rows: Rows, key: string, nodes: seq<Node>, hash: string -> string)
    requires DistinctNodes(nodes)
    ensures DistinctNames(Needed(rows, key, nodes, hash))
    ensures forall i :: 0 <= i < |Needed(rows, key, nodes, hash)| ==>
      exists n :: 0 <= n < |nodes| && nodes[n].name == Needed(rows, key, nodes, hash)[i].name
  {
    if nodes != [] {
      NeededIsDistinct(rows, key, nodes[..|nodes| - 1], hash);
    }
  }

  ghost predicate DistinctNodes(nodes: seq<Node>) {
    forall i, j :: 0 <= i < j < |nodes| ==> nodes[i].name != nodes[j].name
  }

  lemma {:induction false} NeededHolds(rows: Rows, key: string, nodes: seq<Node>, hash: string -> string, n: nat)
    requires n < |nodes| && !nodes[n].isFile && !UpToDate(rows, key, nodes[n], hash)
    ensures Work(nodes[n].name, nodes[n].text, hash(nodes[n].text)) in Needed(rows, key, nodes, hash)
  {
    if n < |nodes| - 1 {
      NeededHolds(rows, key, nodes[..|nodes| - 1], hash, n);
    }
  }

  lemma {:induction false} NeededOnlyOutdated(rows: Rows, key: string, nodes: seq<Node>, hash: string -> string, name: string)
    requires forall n :: 0 <= n < |nodes| && nodes[n].name == name ==> nodes[n].isFile || UpToDate(rows, key, nodes[n], hash)
    ensures forall i :: 0 <= i < |Needed(rows, key, nodes, hash)| ==> Needed(rows, key, nodes, hash)[i].name != name
  {
    if nodes != [] {
      NeededOnlyOutdated(rows, key, nodes[..|nodes| - 1], hash, name);
    }
  }

  lemma {:induction false} NothingNeeded(rows: Rows, key: string, nodes: seq<Node>, hash: string -> string)
    requires forall n :: 0 <= n < |nodes| ==> nodes[n].isFile || UpToDate(rows, key, nodes[n], hash)
    ensures Needed(rows, key, nodes, hash) == []
  {
    if nodes != [] {
      NothingNeeded(rows, key, nodes[..|nodes| - 1], hash);
    }
  }

  /** Two scans of the same nodes that find the same ones up to date find the same work. */
  lemma {:induction false} SameNeeded(rows: Rows, key: string, others: Rows, otherKey: string, nodes: seq<Node>,
    hash: string -> string)
    requires forall n :: 0 <= n < |nodes| && !nodes[n].isFile ==>
      (UpToDate(rows, key, nodes[n], hash) <==> UpToDate(others, otherKey, nodes[n], hash))
    ensures Needed(rows, key, nodes, hash) == Needed(others, otherKey, nodes, hash)
  {
    if nodes != [] {
      var last := |nodes| - 1;
      SameNeeded(rows, key, others, otherKey, nodes[..last], hash);
      assert !nodes[last].isFile ==>
        (UpToDate(rows, key, nodes[last], hash) <==> UpToDate(others, otherKey, nodes[last], hash));
    }
  }

  // ---------------------------------------------------------------------------
  // A following scan, whatever the keys
  // ---------------------------------------------------------------------------

  /** The rows after everything that a scan under `key` found was embedded under `computed`. */
  function AfterPass(rows: Rows, key: string, computed: string, nodes: seq<Node>, hash: string -> string,
    meaning: string -> Vector): Rows
  {
    Embedded(rows, computed, Needed(rows, key, nodes, hash), meaning)
  }

  lemma EmbeddedHolds(rows: Rows, key: string, items: seq<Work>, meaning: string -> Vector)
    requires DistinctNames(items)
    ensures forall i :: 0 <= i < |items| ==>
      (items[i].name, key) in Embedded(rows, key, items, meaning) &&
      Embedded(rows, key, items, meaning)[(items[i].name, key)] == Row(meaning(items[i].text), items[i].textHash)
    ensures forall name, k :: (k != key || forall i :: 0 <= i < |items| ==> items[i].name != name) ==>
      ((name, k) in Embedded(rows, key, items, meaning) <==> (name, k) in rows) &&
      ((name, k) in rows ==> Embedded(rows, key, items, meaning)[(name, k)] == rows[(name, k)])
  {
    PutHolds(rows, key, items, Meanings(TextsOf(items), meaning));
  }

  /** A node is up to date under a key if it was before, or if the pass found and wrote it there. */
  lemma UpToDateAfter(rows: Rows, key: string, computed: string, nodes: seq<Node>, hash: string -> string,
    meaning: string -> Vector, second: string, n: nat)
    requires DistinctNodes(nodes) && n < |nodes| && !nodes[n].isFile
    ensures UpToDate(AfterPass(rows, key, computed, nodes, hash, meaning), second, nodes[n], hash) <==>
      UpToDate(rows, second, nodes[n], hash) || (second == computed && !UpToDate(rows, key, nodes[n], hash))
  {
    var work := Needed(rows, key, nodes, hash);
    NeededIsDistinct(rows, key, nodes, hash);
    EmbeddedHolds(rows, computed, work, meaning);
    if UpToDate(rows, key, nodes[n], hash) {
      NeededOnlyOutdated(rows, key, nodes, hash, nodes[n].name);
    } else {
      NeededHolds(rows, key, nodes, hash, n);
      var i :| 0 <= i < |work| && work[i] == Work(nodes[n].name, nodes[n].text, hash(nodes[n].text));
    }
  }

  /** Every node but files was up to date where the second scan looks, or was found by the first and
      written where the second looks. */
  ghost predicate Covered(rows: Rows, key: string, computed: string, second: string, nodes: seq<Node>,
    hash: string -> string)
  {
    forall n :: 0 <= n < |nodes| && !nodes[n].isFile ==>
      UpToDate(rows, second, nodes[n], hash) || (second == computed && !UpToDate(rows, key, nodes[n], hash))
  }

  /** Exactly then a following scan finds nothing. */
  lemma FollowingScan(rows: Rows, key: string, computed: string, second: string, nodes: seq<Node>,
    hash: string -> string, meaning: string -> Vector)
    requires DistinctNodes(nodes)
    ensures Needed(AfterPass(rows, key, computed, nodes, hash, meaning), second, nodes, hash) == [] <==>
      Covered(rows, key, computed, second, nodes, hash)
  {
    var after := AfterPass(rows, key, computed, nodes, hash, meaning);
    forall n | 0 <= n < |nodes| && !nodes[n].isFile
      ensures UpToDate(after, second, nodes[n], hash) <==>
        UpToDate(rows, second, nodes[n], hash) || (second == computed && !UpToDate(rows, key, nodes[n], hash))
    {
      UpToDateAfter(rows, key, computed, nodes, hash, meaning, second, n);
    }
    if Covered(rows, key, computed, second, nodes, hash) {
      NothingNeeded(after, second, nodes, hash);
    } else {
      var n: nat :| n < |nodes| && !nodes[n].isFile &&
        !(UpToDate(rows, second, nodes[n], hash) || (second == computed && !UpToDate(rows, key, nodes[n], hash)));
      NeededHolds(after, second, nodes, hash, n);
    }
  }

  /** Under the same key again: it finds nothing just when rows are written where it looks, or there
      was nothing to do; otherwise it finds all of the work again. */
  lemma SameKeyScan(rows: Rows, key: string, computed: string, nodes: seq<Node>, hash: string -> string,
    meaning: string -> Vector)
    requires DistinctNodes(nodes)
    ensures var work := Needed(rows, key, nodes, hash);
      var again := Needed(AfterPass(rows, key, computed, nodes, hash, meaning), key, nodes, hash);
      && (again == [] <==> key == computed || work == [])
      && (key != computed ==> again == work)
  {
    var after := AfterPass(rows, key, computed, nodes, hash, meaning);
    forall n | 0 <= n < |nodes| && !nodes[n].isFile
      ensures UpToDate(after, key, nodes[n], hash) <==> UpToDate(rows, key, nodes[n], hash) || key == computed
    {
      UpToDateAfter(rows, key, computed, nodes, hash, meaning, key, n);
    }
    if key == computed {
      NothingNeeded(after, key, nodes, hash);
    } else {
      SameNeeded(after, key, rows, key, nodes, hash);
    }
  }

  // ---------------------------------------------------------------------------
  // The partitions after a pass
  // ---------------------------------------------------------------------------

  lemma PartitionsStay(rows: Rows, key: string, items: seq<Work>, meaning: string -> Vector, other: string)
    requires HasPartition(rows, other)
    ensures HasPartition(Embedded(rows, key, items, meaning), other)
  {
    PutKeeps(rows, key, items, Meanings(TextsOf(items), meaning));
    var k :| k in rows && k.1 == other;
    assert k in Embedded(rows, key, items, meaning);
  }

  /** A pass adds no partition but the one it writes, and that one if it writes anything. */
  lemma PartitionsAfter(rows: Rows, key: string, items: seq<Work>, meaning: string -> Vector, other: string)
    ensures HasPartition(Embedded(rows, key, items, meaning), other) <==>
      HasPartition(rows, other) || (other == key && items != [])
  {
    var vectors := Meanings(TextsOf(items), meaning);
    var after := Embedded(rows, key, items, meaning);
    if HasPartition(rows, other) {
      PartitionsStay(rows, key, items, meaning, other);
    }
    if items != [] {
      var last := (items[|items| - 1].name, key);
      assert last in after && last.1 == key;
    }
    if HasPartition(after, other) {
      var k :| k in after && k.1 == other;
      PutOnlyStores(rows, key, items, vectors, k);
    }
  }

  // ---------------------------------------------------------------------------
  // The following scan of a store
  // ---------------------------------------------------------------------------

  /** A partition under another spelling of the computed key stays what is looked up. */
  lemma RespelledStaysLookup(rows: Rows, fold: string -> string, candidates: seq<string>, key: string,
    items: seq<Work>, meaning: string -> Vector)
    requires candidates != [] && Matches(rows, fold, candidates[0], key)
    ensures IsLookupKey(Embedded(rows, candidates[0], items, meaning), fold, candidates, key)
  {
    PartitionsStay(rows, candidates[0], items, meaning, key);
    assert FirstMatch(Embedded(rows, candidates[0], items, meaning), fold, candidates, 0, key);
  }

  /** The rows after so many passes that all look under the same key. */
  function Passes(rows: Rows, key: string, computed: string, nodes: seq<Node>, hash: string -> string,
    meaning: string -> Vector, times: nat): Rows
  {
    if times == 0 then rows
    else AfterPass(Passes(rows, key, computed, nodes, hash, meaning, times - 1), key, computed, nodes, hash, meaning)
  }

  lemma RespelledPass(rows: Rows, fold: string -> string, candidates: seq<string>, key: string, nodes: seq<Node>,
    hash: string -> string, meaning: string -> Vector)
    requires candidates != [] && Matches(rows, fold, candidates[0], key) && key != candidates[0] && DistinctNodes(nodes)
    ensures var after := AfterPass(rows, key, candidates[0], nodes, hash, meaning);
      && Matches(after, fold, candidates[0], key) && IsLookupKey(after, fold, candidates, key)
      && Needed(after, key, nodes, hash) == Needed(rows, key, nodes, hash)
  {
    var work := Needed(rows, key, nodes, hash);
    SameKeyScan(rows, key, candidates[0], nodes, hash, meaning);
    RespelledStaysLookup(rows, fold, candidates, key, work, meaning);
    PartitionsStay(rows, candidates[0], work, meaning, key);
  }

  /** So it is for every run: a partition under another spelling can always be looked up, is never
      written, and all that had changed is embedded again. */
  lemma {:induction false} RespelledNeverSettles(rows: Rows, fold: string -> string, candidates: seq<string>, key: string,
    nodes: seq<Node>, hash: string -> string, meaning: string -> Vector, times: nat)
    requires candidates != [] && Matches(rows, fold, candidates[0], key) && key != candidates[0] && DistinctNodes(nodes)
    ensures var after := Passes(rows, key, candidates[0], nodes, hash, meaning, times);
      && Matches(after, fold, candidates[0], key) && IsLookupKey(after, fold, candidates, key)
      && Needed(after, key, nodes, hash) == Needed(rows, key, nodes, hash)
  {
    if times == 0 {
      assert FirstMatch(rows, fold, candidates, 0, key);
    } else {
      RespelledNeverSettles(rows, fold, candidates, key, nodes, hash, meaning, times - 1);
      RespelledPass(Passes(rows, key, candidates[0], nodes, hash, meaning, times - 1), fold, candidates, key, nodes, hash,
        meaning);
    }
  }

  /** No other spelling of the computed key is stored. */
  ghost predicate OneSpelling(rows: Rows, fold: string -> string, computed: string) {
    forall key :: Matches(rows, fold, computed, key) ==> key == computed
  }

  /** Without another spelling, whatever was written is looked up next: legacy partitions stay
      behind it. */
  lemma WrittenIsLookedUp(rows: Rows, fold: string -> string, candidates: seq<string>, items: seq<Work>,
    meaning: string -> Vector, second: string)
    requires candidates != [] && OneSpelling(rows, fold, candidates[0])
    requires items != [] || HasPartition(rows, candidates[0])
    requires IsLookupKey(Embedded(rows, candidates[0], items, meaning), fold, candidates, second)
    ensures second == candidates[0]
  {
    var after := Embedded(rows, candidates[0], items, meaning);
    PartitionsAfter(rows, candidates[0], items, meaning, candidates[0]);
    PartitionsAfter(rows, candidates[0], items, meaning, second);
    assert Matches(after, fold, candidates[0], candidates[0]);
    if second != candidates[0] {
      var n: nat :| n < |candidates| && FirstMatch(after, fold, candidates, n, second);
      assert n == 0;
      assert Matches(rows, fold, candidates[0], second);
    }
  }

  /** A scan that looks where rows are written, with no other spelling stored, leaves nothing for the
      following one, whatever legacy partitions there are. */
  lemma FollowingScanFindsNothing(rows: Rows, fold: string -> string, candidates: seq<string>, nodes: seq<Node>,
    hash: string -> string, meaning: string -> Vector, second: string)
    requires DistinctNodes(nodes) && candidates != [] && OneSpelling(rows, fold, candidates[0])
    requires IsLookupKey(rows, fold, candidates, candidates[0])
    requires IsLookupKey(AfterPass(rows, candidates[0], candidates[0], nodes, hash, meaning), fold, candidates, second)
    ensures Needed(AfterPass(rows, candidates[0], candidates[0], nodes, hash, meaning), second, nodes, hash) == []
  {
    var work := Needed(rows, candidates[0], nodes, hash);
    SameKeyScan(rows, candidates[0], candidates[0], nodes, hash, meaning);
    if work != [] || HasPartition(rows, candidates[0]) {
      WrittenIsLookedUp(rows, fold, candidates, work, meaning, second);
    }
  }

  /** A pass and the scan after it by one provider object, with the dimension that was adopted or
      learnt on the way. The scan finds nothing exactly when everything is covered; and when no other
      spelling of the key that was written is stored, exactly when all that the first scan passed over
      was already up to date there. */
  lemma ScanAfterPass(rows: Rows, n: Naming, pinned: Option<nat>, known: Option<nat>, later: Option<nat>,
    nodes: seq<Node>, hash: string -> string, meaning: string -> Vector, first: string, second: string)
    requires DistinctNodes(nodes) && LooksUnder(rows, n, pinned, known, first)
    requires var work := Needed(rows, first, nodes, hash);
      var dim := Learnt(known, Meanings(TextsOf(work), meaning));
      LooksUnder(Embedded(rows, n.keyOf(dim), work, meaning), n, dim, later, second)
    ensures var work := Needed(rows, first, nodes, hash);
      var computed := n.keyOf(Learnt(known, Meanings(TextsOf(work), meaning)));
      var again := Needed(Embedded(rows, computed, work, meaning), second, nodes, hash);
      && (again == [] <==> Covered(rows, first, computed, second, nodes, hash))
      && (work != [] && OneSpelling(rows, n.fold, computed) ==>
            second == computed && (again == [] <==> Behind(rows, first, computed, nodes, hash)))
  {
    var work := Needed(rows, first, nodes, hash);
    var dim := Learnt(known, Meanings(TextsOf(work), meaning));
    FollowingScan(rows, first, n.keyOf(dim), second, nodes, hash, meaning);
    if work != [] && OneSpelling(rows, n.fold, n.keyOf(dim)) {
      WrittenIsLookedUp(rows, n.fold, Candidates(n.keyOf, n.nameOf, dim), work, meaning, second);
      CoveredWhenWritten(rows, first, n.keyOf(dim), nodes, hash);
    }
  }

  /** What a scan under one key passes over is up to date under another. */
  ghost predicate Behind(rows: Rows, key: string, other: string, nodes: seq<Node>, hash: string -> string) {
    forall n :: 0 <= n < |nodes| && !nodes[n].isFile && UpToDate(rows, key, nodes[n], hash) ==>
      UpToDate(rows, other, nodes[n], hash)
  }

  lemma CoveredWhenWritten(rows: Rows, key: string, computed: string, nodes: seq<Node>, hash: string -> string)
    ensures Covered(rows, key, computed, computed, nodes, hash) <==> Behind(rows, key, computed, nodes, hash)
  {
  }

  /** In particular when an object first learns a dimension: rows of the same texts that were stored
      without one, and only those, are found again by the same object. */
  lemma FirstDimensionFindsOldRows(rows: Rows, n: Naming, later: Option<nat>, nodes: seq<Node>, hash: string -> string,
    meaning: string -> Vector, first: string, second: string)
    requires DistinctNodes(nodes) && LooksUnder(rows, n, None, None, first)
    requires Needed(rows, first, nodes, hash) != []
    requires var work := Needed(rows, first, nodes, hash);
      var dim := Some(|meaning(work[0].text)|);
      && Unmatched(rows, n.fold, n.keyOf(dim))
      && LooksUnder(Embedded(rows, n.keyOf(dim), work, meaning), n, dim, later, second)
    ensures var work := Needed(rows, first, nodes, hash);
      var computed := n.keyOf(Some(|meaning(work[0].text)|));
      Needed(Embedded(rows, computed, work, meaning), second, nodes, hash) == [] <==>
        forall i :: 0 <= i < |nodes| && !nodes[i].isFile ==> !UpToDate(rows, first, nodes[i], hash)
  {
    var work := Needed(rows, first, nodes, hash);
    var computed := n.keyOf(Some(|meaning(work[0].text)|));
    assert Learnt(None, Meanings(TextsOf(work), meaning)) == Some(|meaning(work[0].text)|);
    ScanAfterPass(rows, n, None, None, later, nodes, hash, meaning, first, second);
    NothingUnderUnmatched(rows, n.fold, computed, nodes, hash);
  }

  lemma NothingUnderUnmatched(rows: Rows, fold: string -> string, key: string, nodes: seq<Node>, hash: string -> string)
    requires Unmatched(rows, fold, key)
    ensures forall i :: 0 <= i < |nodes| ==> !UpToDate(rows, key, nodes[i], hash)
  {
    forall i | 0 <= i < |nodes| ensures !UpToDate(rows, key, nodes[i], hash) {
      var k := (nodes[i].name, key);
      assert k in rows ==> k.1 == key && Matches(rows, fold, key, key);
    }
  }

  lemma NeededOne(rows: Rows, key: string, node: Node, hash: string -> string)
    requires !node.isFile && !UpToDate(rows, key, node, hash)
    ensures Needed(rows, key, [node], hash) == [Work(node.name, node.text, hash(node.text))]
  {
    assert [node][..0] == [];
  }

  /** For instance a model that was once spelled with a capital: one changed node is work for ever. */
  lemma AnotherSpellingNeverSettles(hash: string -> string, meaning: string -> Vector, times: nat)
    requires hash("new") != hash("old")
    ensures var rows: Rows := map[("f", "Qwen") := Row([], hash("old"))];
      Needed(Passes(rows, "Qwen", "qwen", [Node("f", false, "new")], hash, meaning, times), "Qwen",
        [Node("f", false, "new")], hash) == [Work("f", "new", hash("new"))]
  {
    var rows: Rows := map[("f", "Qwen") := Row([], hash("old"))];
    var fold := (s: string) => if s == "Qwen" then "qwen" else s;
    var node := Node("f", false, "new");
    NeededOne(rows, "Qwen", node, hash);
    var k := ("f", "Qwen");
    assert k in rows && k.1 == "Qwen" && Matches(rows, fold, ["qwen"][0], "Qwen");
    RespelledNeverSettles(rows, fold, ["qwen"], "Qwen", [node], hash, meaning, times);
  }
}
