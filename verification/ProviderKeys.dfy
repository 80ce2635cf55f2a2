/** Embedding rows, the keys they are stored under, and the key that a provider object looks under. */
module ProviderKeys {
  import opened Wrappers
  import opened Sequences
  import opened OpenAiProvider

  datatype Row = Row(vector: Vector, textHash: string)

  /** Rows by qualified name and provider key. */
  type Rows = map<(string, string), Row>

  /** How one model is named: its key and its bare name by dimension, what the database's comparison
      makes of a spelling, what is left of a key without its dimension and case, and the dimension
      written in a key. */
  datatype Naming = Naming(keyOf: Option<nat> -> string, nameOf: Option<nat> -> string, fold: string -> string,
    identity: string -> string, dimOf: string -> Option<nat>)
  {
    /** A key of this model, with or without a dimension, in whatever spelling. */
    predicate Owns(key: string) {
      key != "" && identity(key) == identity(keyOf(None))
    }

    /** The keys of a model whose name holds no marker: each tells its dimension, and two of them
        differ by more than case. */
    ghost predicate WellNamed() {
      && (forall d :: keyOf(d) != "" && dimOf(keyOf(d)) == d && Owns(keyOf(d)))
      && (forall d, e :: fold(keyOf(d)) == fold(keyOf(e)) ==> d == e)
    }
  }

  predicate HasPartition(rows: Rows, key: string) {
    exists k :: k in rows && k.1 == key
  }

  function Keys(rows: Rows): (keys: set<string>)
    ensures forall key :: key in keys <==> HasPartition(rows, key)
  {
    set k | k in rows :: k.1
  }

  function Partition(rows: Rows, key: string): set<(string, string)> {
    set k | k in rows && k.1 == key
  }

  function Size(rows: Rows, key: string): nat {
    |Partition(rows, key)|
  }

  // ---------------------------------------------------------------------------
  // The dimension of a provider object
  // ---------------------------------------------------------------------------

  function OwnKeys(rows: Rows, n: Naming): (keys: set<string>)
    ensures forall key :: key in keys <==> n.Owns(key) && HasPartition(rows, key)
  {
    set key | key in Keys(rows) && n.Owns(key)
  }

  /** A partition of the model, and none of its partitions has more rows. */
  ghost predicate Largest(rows: Rows, n: Naming, key: string) {
    && n.Owns(key) && HasPartition(rows, key)
    && forall other :: n.Owns(other) && HasPartition(rows, other) ==> Size(rows, other) <= Size(rows, key)
  }

  /** A partition of the model with the most rows. */
  method PersistedKeyForSameIdentity(rows: Rows, n: Naming) returns (persisted: Option<string>)
    ensures persisted.Some? ==> Largest(rows, n, persisted.value)
    ensures persisted.None? ==> Unstored(rows, n)
  {
    var left := OwnKeys(rows, n);
    persisted := None;
    while left != {}
      invariant forall key :: key in left ==> key in OwnKeys(rows, n)
      invariant persisted.Some? ==> persisted.value in OwnKeys(rows, n)
      invariant forall key :: key in OwnKeys(rows, n) ==>
        key in left || (persisted.Some? && Size(rows, key) <= Size(rows, persisted.value))
      decreases left
    {
      var key :| key in left;
      if persisted.None? || Size(rows, key) > Size(rows, persisted.value) {
        persisted := Some(key);
      }
      left := left - {key};
    }
    assert forall key :: n.Owns(key) && HasPartition(rows, key) ==> key in OwnKeys(rows, n);
  }

  ghost predicate Unstored(rows: Rows, n: Naming) {
    forall key :: n.Owns(key) ==> !HasPartition(rows, key)
  }

  /** A dimension found in the store: that of some largest partition, which may have none. */
  ghost predicate Seeds(rows: Rows, n: Naming, dim: Option<nat>) {
    (exists key :: Largest(rows, n, key) && dim == n.dimOf(key)) || (Unstored(rows, n) && dim.None?)
  }

  /** What a provider takes its dimension to be once it looked: a known one stays. */
  ghost predicate Adopts(rows: Rows, n: Naming, known: Option<nat>, dim: Option<nat>) {
    if known.Some? then dim == known else Seeds(rows, n, dim)
  }

  // ---------------------------------------------------------------------------
  // The key looked under
  // ---------------------------------------------------------------------------

  /** A partition stored under the candidate, in whatever spelling. */
  predicate Matches(rows: Rows, fold: string -> string, candidate: string, key: string) {
    HasPartition(rows, key) && fold(key) == fold(candidate)
  }

  /** The spellings of the candidate that have a partition. */
  function Spellings(rows: Rows, fold: string -> string, candidate: string): (keys: set<string>)
    ensures forall key :: key in keys <==> Matches(rows, fold, candidate, key)
  {
    set key | key in Keys(rows) && fold(key) == fold(candidate)
  }

  ghost predicate Unmatched(rows: Rows, fold: string -> string, candidate: string) {
    forall key :: !Matches(rows, fold, candidate, key)
  }

  ghost predicate FirstMatch(rows: Rows, fold: string -> string, candidates: seq<string>, n: nat, key: string)
    requires n < |candidates|
  {
    Matches(rows, fold, candidates[n], key) && forall m :: 0 <= m < n ==> Unmatched(rows, fold, candidates[m])
  }

  /** The first candidate that has a partition decides, and some spelling of it is taken; without
      one it is the computed key, which is the first candidate. */
  ghost predicate IsLookupKey(rows: Rows, fold: string -> string, candidates: seq<string>, key: string)
    requires candidates != []
  {
    || (exists n: nat :: n < |candidates| && FirstMatch(rows, fold, candidates, n, key))
    || (key == candidates[0] && forall n :: 0 <= n < |candidates| ==> Unmatched(rows, fold, candidates[n]))
  }

  method LookUp(rows: Rows, fold: string -> string, candidates: seq<string>) returns (key: string)
    requires candidates != []
    ensures IsLookupKey(rows, fold, candidates, key)
  {
    for i := 0 to |candidates|
      invariant forall n :: 0 <= n < i ==> Unmatched(rows, fold, candidates[n])
    {
      var spellings := Spellings(rows, fold, candidates[i]);
      if spellings != {} {
        key :| key in spellings;
        assert FirstMatch(rows, fold, candidates, i, key);
        return;
      }
    }
    key := candidates[0];
  }

  /** The computed key and the bare provider name, each with its dimension and without. */
  function Candidates(keyOf: Option<nat> -> string, nameOf: Option<nat> -> string, dim: Option<nat>): (c: seq<string>)
    requires keyOf(dim) != ""
    ensures c != [] && c[0] == keyOf(dim)
  {
    [keyOf(dim)] + Filter(k => k != "" && k != keyOf(dim), Dedupe([keyOf(None), nameOf(dim), nameOf(None)]))
  }

  /** The forms a key is looked up in: with and without its dimension, then the bare name so. */
  function Forms(n: Naming, dim: Option<nat>): seq<string> {
    [n.keyOf(dim), n.keyOf(None), n.nameOf(dim), n.nameOf(None)]
  }

  lemma CandidatesAreForms(n: Naming, dim: Option<nat>, c: string)
    requires n.keyOf(dim) != ""
    ensures c in Candidates(n.keyOf, n.nameOf, dim) <==> c != "" && c in Forms(n, dim)
  {
  }

  /** Rows under any of the four forms, in whatever spelling, are found: what is looked under is stored
      in one of them whenever anything is, and is the computed key otherwise. */
  lemma LegacyRowsAreFound(rows: Rows, n: Naming, dim: Option<nat>, key: string)
    requires n.keyOf(dim) != "" && IsLookupKey(rows, n.fold, Candidates(n.keyOf, n.nameOf, dim), key)
    ensures if exists form, other :: form in Forms(n, dim) && form != "" && Matches(rows, n.fold, form, other)
            then exists form :: form in Forms(n, dim) && Matches(rows, n.fold, form, key)
            else key == n.keyOf(dim)
  {
    var candidates := Candidates(n.keyOf, n.nameOf, dim);
    forall c ensures c in candidates <==> c != "" && c in Forms(n, dim) {
      CandidatesAreForms(n, dim, c);
    }
    if form, other :| form in Forms(n, dim) && form != "" && Matches(rows, n.fold, form, other) {
      var i :| 0 <= i < |candidates| && candidates[i] == form;
      assert !Unmatched(rows, n.fold, candidates[i]);
      var m: nat :| m < |candidates| && FirstMatch(rows, n.fold, candidates, m, key);
      assert candidates[m] in candidates;
    } else {
      forall m | 0 <= m < |candidates| ensures Unmatched(rows, n.fold, candidates[m]) {
        assert candidates[m] in candidates;
      }
    }
  }

  /** A provider that knew that much, or nothing, takes its dimension to be `dim` and looks under
      `key`. */
  ghost predicate LooksUnder(rows: Rows, n: Naming, known: Option<nat>, dim: Option<nat>, key: string) {
    && Adopts(rows, n, known, dim)
    && n.keyOf(dim) != "" && IsLookupKey(rows, n.fold, Candidates(n.keyOf, n.nameOf, dim), key)
  }

  // ---------------------------------------------------------------------------
  // Stores without other spellings
  // ---------------------------------------------------------------------------

  /** Every partition of the model is under a key as it would be computed. */
  ghost predicate WellSpelled(rows: Rows, n: Naming) {
    forall key :: HasPartition(rows, key) ==>
      && (n.Owns(key) ==> key == n.keyOf(n.dimOf(key)))
      && (forall d :: n.fold(key) == n.fold(n.keyOf(d)) ==> key == n.keyOf(d))
  }

  /** In such a store a provider that knows no dimension looks under a partition with the most rows,
      and under any of those. */
  lemma LooksUnderLargest(rows: Rows, n: Naming, dim: Option<nat>, key: string)
    requires n.WellNamed() && WellSpelled(rows, n) && !Unstored(rows, n)
    ensures LooksUnder(rows, n, None, dim, key) <==> Largest(rows, n, key) && dim == n.dimOf(key)
  {
    var candidates := Candidates(n.keyOf, n.nameOf, dim);
    if Seeds(rows, n, dim) {
      var largest :| Largest(rows, n, largest) && dim == n.dimOf(largest);
      assert largest == candidates[0];
      assert Matches(rows, n.fold, candidates[0], largest);
      if FirstMatch(rows, n.fold, candidates, 0, key) {
        assert key == largest;
      }
    }
    if Largest(rows, n, key) && dim == n.dimOf(key) {
      assert FirstMatch(rows, n.fold, candidates, 0, key);
    }
  }

  // ---------------------------------------------------------------------------
  // A store in which one dimension is told
  // ---------------------------------------------------------------------------

  /** No partition of the model has a dimension but that one. */
  ghost predicate OneDimension(rows: Rows, n: Naming, dim: nat) {
    forall key :: n.Owns(key) && HasPartition(rows, key) ==> n.dimOf(key) == None || n.dimOf(key) == Some(dim)
  }

  lemma SeedsOneDimension(rows: Rows, n: Naming, known: Option<nat>, dim: nat, found: Option<nat>)
    requires OneDimension(rows, n, dim) && (known == None || known == Some(dim)) && Adopts(rows, n, known, found)
    ensures found == None || found == Some(dim)
  {
  }
}
