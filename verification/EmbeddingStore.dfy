/** The embedding pass: a scan for work, and writing it in one go or in slices. */
module EmbeddingStore {
  import opened Wrappers
  import opened OpenAiProvider
  import opened ProviderKeys
  import opened Sequences

  datatype Work = Work(name: string, text: string, textHash: string)

  function TextsOf(items: seq<Work>): seq<string> {
    seq(|items|, i requires 0 <= i < |items| => items[i].text)
  }

  /** Upsert one vector per item. */
  function Put(rows: Rows, key: string, items: seq<Work>, vectors: seq<Vector>): Rows
    requires |items| == |vectors|
  {
    if items == [] then rows
    else
      var last := |items| - 1;
      Put(rows, key, items[..last], vectors[..last])[(items[last].name, key) := Row(vectors[last], items[last].textHash)]
  }

  /** Slices add up: storing a list is storing its first part and then the rest. */
  lemma {:induction false} PutInParts(rows: Rows, key: string, first: seq<Work>, firstVectors: seq<Vector>,
    rest: seq<Work>, restVectors: seq<Vector>)
    requires |first| == |firstVectors| && |rest| == |restVectors|
    ensures Put(rows, key, first + rest, firstVectors + restVectors) ==
      Put(Put(rows, key, first, firstVectors), key, rest, restVectors)
  {
    if rest == [] {
      assert first + rest == first && firstVectors + restVectors == firstVectors;
    } else {
      var init, initVectors := rest[..|rest| - 1], restVectors[..|rest| - 1];
      PutInParts(rows, key, first, firstVectors, init, initVectors);
      assert (first + rest)[..|first + rest| - 1] == first + init;
      assert (firstVectors + restVectors)[..|first + rest| - 1] == firstVectors + initVectors;
    }
  }

  ghost predicate DistinctNames(items: seq<Work>) {
    forall i, j :: 0 <= i < j < |items| ==> items[i].name != items[j].name
  }

  /** Each name has the vector at its position; rows of other names and keys are as they were. */
  lemma {:induction false} PutHolds(rows: Rows, key: string, items: seq<Work>, vectors: seq<Vector>)
    requires |items| == |vectors| && DistinctNames(items)
    ensures forall i :: 0 <= i < |items| ==>
      (items[i].name, key) in Put(rows, key, items, vectors) &&
      Put(rows, key, items, vectors)[(items[i].name, key)] == Row(vectors[i], items[i].textHash)
    ensures forall name, k :: (k != key || forall i :: 0 <= i < |items| ==> items[i].name != name) ==>
      ((name, k) in Put(rows, key, items, vectors) <==> (name, k) in rows) &&
      ((name, k) in rows ==> Put(rows, key, items, vectors)[(name, k)] == rows[(name, k)])
  {
    if items != [] {
      PutHolds(rows, key, items[..|items| - 1], vectors[..|items| - 1]);
    }
  }

  /** Upsert one vector per item, each under its own key. */
  function PutEach(rows: Rows, keys: seq<string>, items: seq<Work>, vectors: seq<Vector>): Rows
    requires |keys| == |items| == |vectors|
  {
    if items == [] then rows
    else
      var last := |items| - 1;
      PutEach(rows, keys[..last], items[..last], vectors[..last])[(items[last].name, keys[last]) :=
        Row(vectors[last], items[last].textHash)]
  }

  function Times(key: string, n: nat): seq<string> {
    seq(n, _ => key)
  }

  lemma {:induction false} PutEachMore(rows: Rows, keys: seq<string>, first: seq<Work>, firstVectors: seq<Vector>,
    key: string, rest: seq<Work>, restVectors: seq<Vector>)
    requires |keys| == |first| == |firstVectors| && |rest| == |restVectors|
    ensures PutEach(rows, keys + Times(key, |rest|), first + rest, firstVectors + restVectors) ==
      Put(PutEach(rows, keys, first, firstVectors), key, rest, restVectors)
  {
    if rest == [] {
      assert keys + Times(key, 0) == keys && first + rest == first && firstVectors + restVectors == firstVectors;
    } else {
      var n := |rest| - 1;
      PutEachMore(rows, keys, first, firstVectors, key, rest[..n], restVectors[..n]);
      var all := |first| + n;
      assert (keys + Times(key, |rest|))[..all] == keys + Times(key, n);
      assert (first + rest)[..all] == first + rest[..n];
      assert (firstVectors + restVectors)[..all] == firstVectors + restVectors[..n];
    }
  }

  lemma {:induction false} PutEachUnderOne(rows: Rows, keys: seq<string>, items: seq<Work>, vectors: seq<Vector>,
    key: string)
    requires |keys| == |items| == |vectors| && forall k :: k in keys ==> k == key
    ensures PutEach(rows, keys, items, vectors) == Put(rows, key, items, vectors)
  {
    if items != [] {
      var last := |items| - 1;
      assert forall k :: k in keys[..last] ==> k in keys;
      PutEachUnderOne(rows, keys[..last], items[..last], vectors[..last], key);
      assert keys[last] in keys;
    }
  }

  /** What storing items means when each is embedded as itself. */
  function Embedded(rows: Rows, key: string, items: seq<Work>, meaning: string -> Vector): Rows {
    Put(rows, key, items, Meanings(TextsOf(items), meaning))
  }

  /** The dimension once these vectors were seen: the known one, or that of the first of them. */
  function Learnt(known: Option<nat>, vectors: seq<Vector>): Option<nat> {
    if known.None? && vectors != [] then Some(|vectors[0]|) else known
  }

  // ---------------------------------------------------------------------------
  // A pass that fails on the way
  // ---------------------------------------------------------------------------

  lemma {:induction false} PutOnlyStores(rows: Rows, key: string, items: seq<Work>, vectors: seq<Vector>, k: (string, string))
    requires |items| == |vectors| && k in Put(rows, key, items, vectors)
    ensures var row := Put(rows, key, items, vectors)[k];
      (k in rows && row == rows[k]) ||
      (k.1 == key && exists i: nat :: i < |items| && items[i].name == k.0 && row == Row(vectors[i], items[i].textHash))
  {
    if items != [] {
      var last := |items| - 1;
      if k == (items[last].name, key) {
        assert Put(rows, key, items, vectors)[k] == Row(vectors[last], items[last].textHash);
      } else {
        PutOnlyStores(rows, key, items[..last], vectors[..last], k);
      }
    }
  }

  lemma {:induction false} PutKeeps(rows: Rows, key: string, items: seq<Work>, vectors: seq<Vector>)
    requires |items| == |vectors|
    ensures forall k :: k in rows ==> k in Put(rows, key, items, vectors)
  {
    if items != [] {
      PutKeeps(rows, key, items[..|items| - 1], vectors[..|items| - 1]);
    }
  }

  lemma KeepsOneDimension(rows: Rows, n: Naming, dim: nat, items: seq<Work>, vectors: seq<Vector>)
    requires |items| == |vectors| && n.WellNamed() && OneDimension(rows, n, dim)
    ensures OneDimension(Put(rows, n.keyOf(Some(dim)), items, vectors), n, dim)
  {
    var after := Put(rows, n.keyOf(Some(dim)), items, vectors);
    forall key | n.Owns(key) && HasPartition(after, key) ensures n.dimOf(key) == None || n.dimOf(key) == Some(dim) {
      var k :| k in after && k.1 == key;
      PutOnlyStores(rows, n.keyOf(Some(dim)), items, vectors, k);
    }
  }

  /** What was told by later calls was told since an earlier one. */
  lemma AllToldSince(log: Log, first: nat, from: nat, texts: seq<string>, vectors: seq<Vector>)
    requires first <= from && AllTold(log, from, texts, vectors)
    ensures AllTold(log, first, texts, vectors)
  {
    AllToldMore(log, log, first, from, [], [], texts, vectors);
    assert [] + texts == texts && [] + vectors == vectors;
  }

  datatype Node = Node(name: string, isFile: bool, text: string)

  datatype Failure = Batch(refusal: Refusal) | Isolated(failing: seq<string>)

  type Server = (nat, seq<string>) -> Reply

  ghost predicate Accepts(serve: Server, call: nat, items: seq<Work>) {
    Accepted(serve(call, TextsOf(items)), |items|)
  }

  ghost predicate AcceptsOne(serve: Server, call: nat, item: Work) {
    Accepted(serve(call, [item.text]), 1)
  }

  /** Whether the items are accepted one by one, a call for each. */
  ghost function OneByOne(serve: Server, call: nat, items: seq<Work>): seq<bool> {
    seq(|items|, i requires 0 <= i < |items| => AcceptsOne(serve, call + i, items[i]))
  }

  /** The items that are accepted. */
  function Rescued(items: seq<Work>, accepted: seq<bool>): seq<Work>
    requires |items| == |accepted|
  {
    if items == [] then []
    else
      var last := |items| - 1;
      Rescued(items[..last], accepted[..last]) + if accepted[last] then [items[last]] else []
  }

  /** The names of those that are not. */
  function Lost(items: seq<Work>, accepted: seq<bool>): seq<string>
    requires |items| == |accepted|
  {
    if items == [] then []
    else
      var last := |items| - 1;
      Lost(items[..last], accepted[..last]) + if accepted[last] then [] else [items[last].name]
  }

  lemma {:induction false} OnlyOfTheItems(items: seq<Work>, accepted: seq<bool>)
    requires |items| == |accepted|
    ensures forall item :: item in Rescued(items, accepted) ==> item in items
    ensures forall name :: name in Lost(items, accepted) ==> exists i :: 0 <= i < |items| && items[i].name == name
  {
    if items != [] {
      OnlyOfTheItems(items[..|items| - 1], accepted[..|items| - 1]);
    }
  }

  /** Every item is either rescued or lost, by its own call. */
  lemma {:induction false} RescuedOrLost(items: seq<Work>, accepted: seq<bool>, i: nat)
    requires i < |items| == |accepted| && DistinctNames(items)
    ensures items[i] in Rescued(items, accepted) <==> accepted[i]
    ensures items[i].name in Lost(items, accepted) <==> !accepted[i]
  {
    var last := |items| - 1;
    OnlyOfTheItems(items[..last], accepted[..last]);
    if i < last {
      RescuedOrLost(items[..last], accepted[..last], i);
    }
  }

  lemma {:induction false} AllRescued(items: seq<Work>, accepted: seq<bool>)
    requires |items| == |accepted|
    ensures Lost(items, accepted) == [] <==> forall i :: 0 <= i < |items| ==> accepted[i]
    ensures Lost(items, accepted) == [] ==> Rescued(items, accepted) == items
  {
    if items != [] {
      var last := |items| - 1;
      AllRescued(items[..last], accepted[..last]);
      assert items == items[..last] + [items[last]];
      assert forall i :: 0 <= i < last ==> accepted[i] == accepted[..last][i];
    }
  }

  lemma OneItemMore(items: seq<Work>, accepted: seq<bool>, i: nat)
    requires i < |items| == |accepted|
    ensures Rescued(items[..i + 1], accepted[..i + 1]) ==
      Rescued(items[..i], accepted[..i]) + if accepted[i] then [items[i]] else []
    ensures Lost(items[..i + 1], accepted[..i + 1]) ==
      Lost(items[..i], accepted[..i]) + if accepted[i] then [] else [items[i].name]
  {
    assert items[..i + 1][..i] == items[..i] && accepted[..i + 1][..i] == accepted[..i];
  }

  /** A batch is tried node by node when its one call is refused for what may be one bad input. */
  ghost predicate FallsBack(serve: Server, call: nat, items: seq<Work>) {
    !Accepts(serve, call, items) && |items| > 1 && Isolates(serve(call, TextsOf(items)))
  }

  /** What of a batch is stored: all of it, those that are accepted one by one, or nothing. */
  ghost function StoredOf(serve: Server, call: nat, items: seq<Work>): seq<Work> {
    if Accepts(serve, call, items) then items
    else if FallsBack(serve, call, items) then Rescued(items, OneByOne(serve, call + 1, items))
    else []
  }

  /** How many calls are made for it. */
  ghost function CallsFor(serve: Server, call: nat, items: seq<Work>): nat {
    if FallsBack(serve, call, items) then 1 + |items| else 1
  }

  /** When a batch fails and with what: refused for good, or with the nodes that are refused by
      themselves. */
  ghost predicate Fails(serve: Server, call: nat, items: seq<Work>, failure: Failure) {
    match failure
    case Batch(refusal) => !Accepts(serve, call, items) && !FallsBack(serve, call, items)
    case Isolated(names) => FallsBack(serve, call, items) && names == Lost(items, OneByOne(serve, call + 1, items)) != []
  }

  ghost predicate Succeeds(serve: Server, call: nat, items: seq<Work>) {
    Accepts(serve, call, items) || (FallsBack(serve, call, items) && Lost(items, OneByOne(serve, call + 1, items)) == [])
  }

  lemma SuccessStoresAll(serve: Server, call: nat, items: seq<Work>)
    requires Succeeds(serve, call, items)
    ensures StoredOf(serve, call, items) == items
  {
    AllRescued(items, OneByOne(serve, call + 1, items));
  }

  /** A pass over some work came to nothing at the batch from `at` on, and stored just that. */
  ghost predicate FailedAt(serve: Server, batchSize: nat, work: seq<Work>, failure: Failure, done: seq<Work>, at: nat,
    call: nat)
  {
    && at < |work|
    && var batch := work[at..Min(at + batchSize, |work|)];
       Fails(serve, call, batch, failure) && done == work[..at] + StoredOf(serve, call, batch)
  }

  ghost predicate FailedSince(log: Log, first: nat, batchSize: nat, work: seq<Work>, failure: Failure, done: seq<Work>) {
    exists at: nat, call: nat :: first <= call < |log.sent| && FailedAt(log.serve, batchSize, work, failure, done, at, call)
  }

  /** A server that refuses several texts only for what may be one bad input, and no single text. */
  ghost predicate Forgiving(serve: Server) {
    && (forall call: nat, text: string :: Accepted(serve(call, [text]), 1))
    && forall call: nat, texts: seq<string> :: !Accepted(serve(call, texts), |texts|) ==> Isolates(serve(call, texts))
  }

  /** With such a server nothing ever fails. */
  lemma ForgivingNeverFails(serve: Server, call: nat, items: seq<Work>, failure: Failure)
    requires Forgiving(serve) && items != []
    ensures !Fails(serve, call, items, failure)
  {
    var accepted := OneByOne(serve, call + 1, items);
    forall i | 0 <= i < |items| ensures accepted[i] {
      assert AcceptsOne(serve, call + 1 + i, items[i]);
    }
    AllRescued(items, accepted);
    if |items| == 1 {
      OneTextIsAccepted(serve, call, items);
    } else if !Accepts(serve, call, items) {
      assert Isolates(serve(call, TextsOf(items)));
    }
  }

  lemma OneTextIsAccepted(serve: Server, call: nat, items: seq<Work>)
    requires Forgiving(serve) && |items| == 1
    ensures Accepts(serve, call, items)
  {
    assert TextsOf(items) == [items[0].text];
  }

  /** At no earlier boundary of a batch was the deadline over. */
  ghost predicate NotOverBefore(deadline: nat -> bool, batchSize: nat, end: nat) {
    forall k: nat :: 0 < k * batchSize < end ==> !deadline(k * batchSize)
  }

  lemma NextBoundary(batches: nat, batchSize: nat, at: nat, end: nat, total: nat)
    requires batchSize > 0 && at == Min(batches * batchSize, total) < total && end == Min(at + batchSize, total)
    ensures end == Min((batches + 1) * batchSize, total)
    ensures forall k: nat :: k * batchSize < end <==> k * batchSize < at || (k == batches && at < end)
  {
    assert (batches + 1) * batchSize == batches * batchSize + batchSize;
    forall k: nat ensures k * batchSize < end <==> k * batchSize < at || (k == batches && at < end) {
      if k > batches {
        MultiplesGrow(batches + 1, k, batchSize);
      } else if k < batches {
        MultiplesGrow(k + 1, batches, batchSize);
      }
    }
  }

  lemma MultiplesGrow(m: nat, n: nat, size: nat)
    requires m <= n
    ensures m * size <= n * size
  {
    assert n * size == m * size + (n - m) * size;
  }

  class EmbeddingStore {
    const provider: Provider
    const naming: Naming
    var rows: Rows
    var lastRemaining: nat

    constructor (provider: Provider, naming: Naming, rows: Rows)
      ensures this.provider == provider && this.naming == naming && this.rows == rows && lastRemaining == 0
    {
      this.provider, this.naming, this.rows, this.lastRemaining := provider, naming, rows, 0;
    }

    /** The provider key, which carries the dimension once that is known. */
    function Key(): string
      reads this, provider
    {
      naming.keyOf(provider.dimension)
    }

    // -------------------------------------------------------------------------
    // Looking up
    // -------------------------------------------------------------------------

    /** Adopt the dimension of a stored key of the same model. */
    method SeedDimension()
      modifies provider`dimension
      ensures Adopts(rows, naming, old(provider.dimension), provider.dimension)
    {
      if provider.dimension.Some? {
        return;
      }
      var persisted := PersistedKeyForSameIdentity(rows, naming);
      if persisted.Some? {
        provider.dimension := naming.dimOf(persisted.value);
      }
    }

    /** Rows under the computed key come first, then those under legacy forms of it. */
    method ProviderKeyForLookup() returns (key: string)
      requires forall d :: naming.keyOf(d) != ""
      modifies provider`dimension
      ensures LooksUnder(rows, naming, old(provider.dimension), provider.dimension, key)
    {
      SeedDimension();
      key := LookUp(rows, naming.fold, Candidates(naming.keyOf, naming.nameOf, provider.dimension));
    }

    // -------------------------------------------------------------------------
    // Storing
    // -------------------------------------------------------------------------

    /** Upsert one vector per item. */
    method StoreVectors(items: seq<Work>, vectors: seq<Vector>)
      requires |items| == |vectors|
      modifies this`rows
      ensures rows == Put(old(rows), Key(), items, vectors)
    {
      for i := 0 to |items|
        invariant rows == Put(old(rows), Key(), items[..i], vectors[..i])
      {
        rows := rows[(items[i].name, Key()) := Row(vectors[i], items[i].textHash)];
        assert items[..i + 1][..i] == items[..i] && vectors[..i + 1][..i] == vectors[..i];
      }
      assert items[..|items|] == items && vectors[..|vectors|] == vectors;
    }

    /** The items are stored under the one key of their dimension, each with the vector that an
        accepted response to a call made since then gave for its own text, at its own position. */
    ghost predicate Stored(before: Rows, known: Option<nat>, first: nat, items: seq<Work>, vectors: seq<Vector>)
      reads this, provider
    {
      && AllTold(provider.Calls(), first, TextsOf(items), vectors)
      && provider.dimension == Learnt(known, vectors)
      && rows == Put(before, Key(), items, vectors)
    }

    lemma StoredMore(before: Rows, known: Option<nat>, log: Log, first: nat, from: nat, items: seq<Work>,
      vectors: seq<Vector>, middle: Rows, more: seq<Work>, moreVectors: seq<Vector>)
      requires first <= from && provider.Calls().Extends(log)
      requires AllTold(log, first, TextsOf(items), vectors)
      requires middle == Put(before, naming.keyOf(Learnt(known, vectors)), items, vectors)
      requires Stored(middle, Learnt(known, vectors), from, more, moreVectors)
      ensures Stored(before, known, first, items + more, vectors + moreVectors)
    {
      AllToldMore(log, provider.Calls(), first, from, TextsOf(items), vectors, TextsOf(more), moreVectors);
      assert TextsOf(items) + TextsOf(more) == TextsOf(items + more);
      PutInParts(before, Key(), items, vectors, more, moreVectors);
    }

    /** From a server whose accepted replies are truthful, that is every item embedded as itself. */
    lemma StoredHonestly(before: Rows, known: Option<nat>, first: nat, items: seq<Work>, vectors: seq<Vector>,
      meaning: string -> Vector)
      requires Stored(before, known, first, items, vectors) && Honest(provider.serve, meaning)
      ensures Key() == naming.keyOf(Learnt(known, Meanings(TextsOf(items), meaning)))
      ensures rows == Embedded(before, Key(), items, meaning)
    {
      AllToldHonestly(provider.Calls(), first, TextsOf(items), vectors, meaning);
    }

    /** What every step keeps: calls are only added, a known dimension stays, and until one is known
        nothing was stored. */
    twostate predicate Steady()
      reads this, provider
    {
      && provider.Valid() && provider.Calls().Extends(old(provider.Calls()))
      && (old(provider.dimension).Some? ==> provider.dimension == old(provider.dimension))
      && (provider.dimension.None? ==> rows == old(rows))
    }

    /** One vector per text, from one call. */
    method EmbedBatch(batch: seq<Work>) returns (refused: Option<Refusal>, ghost vectors: seq<Vector>)
      requires provider.Valid() && 0 < |batch| <= provider.batchSize
      modifies this`rows, provider
      ensures Steady() && provider.calls == old(provider.calls) + 1
      ensures refused.None? <==> Accepts(provider.serve, old(provider.calls), batch)
      ensures refused.None? ==> OfOneCall(provider.serve, old(provider.calls), TextsOf(batch), vectors)
      ensures refused.None? ==> Stored(old(rows), old(provider.dimension), old(provider.calls), batch, vectors)
      ensures refused.Some? ==> rows == old(rows) && provider.dimension == old(provider.dimension)
      ensures refused.Some? ==>
        (CouldBeOneBadInput(refused.value) <==> Isolates(provider.serve(old(provider.calls), TextsOf(batch))))
    {
      var texts := TextsOf(batch);
      var answer := EmbedAtOnce(texts);
      vectors := [];
      if answer.Err? {
        return Some(answer.error), [];
      }
      vectors := answer.value;
      StoreVectors(batch, answer.value);
      refused := None;
    }

    /** The next call, for just these texts. */
    method EmbedAtOnce(texts: seq<string>) returns (answer: Result<seq<Vector>, Refusal>)
      requires provider.Valid() && 0 < |texts| <= provider.batchSize
      modifies provider
      ensures provider.Valid() && provider.Calls().Extends(old(provider.Calls()))
      ensures provider.calls == old(provider.calls) + 1
      ensures answer.Ok? <==> Accepted(provider.serve(old(provider.calls), texts), |texts|)
      ensures answer.Err? ==> provider.dimension == old(provider.dimension)
      ensures answer.Err? ==>
        (CouldBeOneBadInput(answer.error) <==> Isolates(provider.serve(old(provider.calls), texts)))
      ensures answer.Ok? ==> provider.dimension == Learnt(old(provider.dimension), answer.value)
      ensures answer.Ok? ==> OfOneCall(provider.serve, old(provider.calls), texts, answer.value)
      ensures answer.Ok? ==> AllTold(provider.Calls(), old(provider.calls), texts, answer.value)
    {
      ghost var first, sent := provider.calls, provider.sent;
      answer := provider.Embed(texts);
      SentOnce(sent, first, texts);
      if answer.Ok? {
        AnsweredAtOnce(provider.serve, first, provider.batchSize, texts, answer.value);
        TextsWereSent(first, texts, answer.value);
      }
    }

    /** Texts that fit one call are sent at most once. */
    lemma SentOnce(before: seq<seq<string>>, first: nat, texts: seq<string>)
      requires provider.Valid() && provider.SentSlices(before, texts) && |before| == first
      requires 0 < |texts| <= provider.batchSize
      ensures provider.calls > first ==> provider.calls == first + 1 && provider.sent[first] == texts
      ensures provider.calls >= first
      ensures |texts| == Reach(provider.calls - first, provider.batchSize, texts) ==> provider.calls > first
    {
      OneSlice(provider.batchSize, texts, provider.calls - first, texts);
      if provider.calls > first {
        OneSlice(provider.batchSize, texts, provider.calls - 1 - first, provider.sent[provider.calls - 1]);
      }
    }

    lemma TextsWereSent(first: nat, texts: seq<string>, vectors: seq<Vector>)
      requires first < |provider.sent| && provider.sent[first] == texts
      requires OfOneCall(provider.serve, first, texts, vectors)
      ensures AllTold(provider.Calls(), first, texts, vectors)
    {
      forall k: nat | k < |texts| ensures Told(provider.Calls(), first, texts, k, vectors[k]) {
        assert texts[0..|texts|] == texts;
        assert ToldBy(provider.Calls(), first, texts, first, 0, k, vectors[k]);
      }
    }

    /** Retry one node of a failed batch, after those before it. */
    method EmbedOne(batch: seq<Work>, i: nat, ghost start: Rows, ghost known: Option<nat>, ghost first: nat,
      ghost accepted: seq<bool>, ghost vectors: seq<Vector>)
      returns (lost: seq<string>, ghost all: seq<Vector>)
      requires provider.Valid() && provider.batchSize > 0 && i < |batch| == |accepted| && first <= provider.calls
      requires accepted[i] == AcceptsOne(provider.serve, provider.calls, batch[i])
      requires Stored(start, known, first, Rescued(batch[..i], accepted[..i]), vectors)
      modifies this`rows, provider
      ensures Steady() && provider.calls == old(provider.calls) + 1
      ensures Lost(batch[..i + 1], accepted[..i + 1]) == Lost(batch[..i], accepted[..i]) + lost
      ensures Stored(start, known, first, Rescued(batch[..i + 1], accepted[..i + 1]), all)
    {
      ghost var sofar, more := Rescued(batch[..i], accepted[..i]), [];
      ghost var vector;
      assert TextsOf([batch[i]]) == [batch[i].text];
      var refused;
      refused, vector := EmbedBatch([batch[i]]);
      lost := if refused.Some? then [batch[i].name] else [];
      if refused.Some? {
        vector := [];
      } else {
        more := [batch[i]];
      }
      StoredMore(start, known, old(provider.Calls()), first, old(provider.calls), sofar, vectors, old(rows), more, vector);
      all := vectors + vector;
      OneItemMore(batch, accepted, i);
    }

    /** Retry a failed batch one node at a time. */
    method EmbedIndividually(batch: seq<Work>) returns (failing: seq<string>, ghost vectors: seq<Vector>)
      requires provider.Valid() && 0 < |batch| && 0 < provider.batchSize
      modifies this`rows, provider
      ensures Steady() && provider.calls == old(provider.calls) + |batch|
      ensures failing == Lost(batch, OneByOne(provider.serve, old(provider.calls), batch))
      ensures Stored(old(rows), old(provider.dimension), old(provider.calls),
        Rescued(batch, OneByOne(provider.serve, old(provider.calls), batch)), vectors)
    {
      ghost var accepted := OneByOne(provider.serve, provider.calls, batch);
      failing, vectors := [], [];
      for i := 0 to |batch|
        invariant Steady() && provider.calls == old(provider.calls) + i
        invariant failing == Lost(batch[..i], accepted[..i])
        invariant Stored(old(rows), old(provider.dimension), old(provider.calls),
          Rescued(batch[..i], accepted[..i]), vectors)
      {
        var lost;
        lost, vectors := EmbedOne(batch, i, old(rows), old(provider.dimension), old(provider.calls), accepted, vectors);
        failing := failing + lost;
      }
      assert batch[..|batch|] == batch && accepted[..|batch|] == accepted;
    }

    /** Embed a batch, node by node if it fails for what may be one bad input. */
    method EmbedOrIsolate(batch: seq<Work>) returns (failure: Option<Failure>, ghost vectors: seq<Vector>)
      requires provider.Valid() && 0 < |batch| <= provider.batchSize
      modifies this`rows, provider
      ensures Steady()
      ensures provider.calls == old(provider.calls) + CallsFor(provider.serve, old(provider.calls), batch)
      ensures failure.None? <==> Succeeds(provider.serve, old(provider.calls), batch)
      ensures failure.Some? ==> Fails(provider.serve, old(provider.calls), batch, failure.value)
      ensures Stored(old(rows), old(provider.dimension), old(provider.calls),
        StoredOf(provider.serve, old(provider.calls), batch), vectors)
    {
      var refused;
      refused, vectors := EmbedBatch(batch);
      if refused.None? {
        return None, vectors;
      }
      vectors := [];
      failure := Some(Batch(refused.value));
      if |batch| > 1 && CouldBeOneBadInput(refused.value) {
        ghost var from := provider.calls;
        var failing;
        failing, vectors := EmbedIndividually(batch);
        failure := if failing == [] then None else Some(Isolated(failing));
        AllToldSince(provider.Calls(), old(provider.calls), from,
          TextsOf(Rescued(batch, OneByOne(provider.serve, from, batch))), vectors);
      }
    }

    /** Embed from the front until done or past the deadline at a batch boundary; the first batch
        always runs. */
    method EmbedBatches(work: seq<Work>, deadline: Option<nat -> bool>)
      returns (r: Result<nat, Failure>, ghost done: seq<Work>, ghost vectors: seq<Vector>)
      requires provider.Valid() && provider.batchSize > 0
      modifies this, provider
      ensures Steady()
      ensures Stored(old(rows), old(provider.dimension), old(provider.calls), done, vectors)
      ensures r.Ok? ==> r.value + lastRemaining == |work| && (work != [] ==> r.value > 0) && done == work[..r.value]
      ensures r.Ok? && lastRemaining > 0 ==> deadline.Some? && deadline.value(r.value)
      ensures r.Ok? && deadline.Some? ==> NotOverBefore(deadline.value, provider.batchSize, r.value)
      ensures r.Err? ==> lastRemaining == 0
      ensures r.Err? ==>
        FailedSince(provider.Calls(), old(provider.calls), provider.batchSize, work, r.error, done)
    {
      lastRemaining, done, vectors := 0, [], [];
      var at := 0;
      ghost var batches: nat := 0;
      while at < |work|
        invariant at == Min(batches * provider.batchSize, |work|) && lastRemaining == 0 && done == work[..at]
        invariant Steady()
        invariant Stored(old(rows), old(provider.dimension), old(provider.calls), done, vectors)
        invariant deadline.Some? ==> NotOverBefore(deadline.value, provider.batchSize, at)
        decreases |work| - at
      {
        if at > 0 && deadline.Some? && deadline.value(at) {
          lastRemaining := |work| - at;
          break;
        }
        var end := Min(at + provider.batchSize, |work|);
        ghost var log, from := provider.Calls(), provider.calls;
        var failure;
        failure, done, vectors := EmbedNext(work, at, end, old(rows), old(provider.dimension), old(provider.calls), vectors);
        if failure.Some? {
          assert FailedAt(provider.serve, provider.batchSize, work, failure.value, done, at, from);
          return Err(failure.value), done, vectors;
        }
        NextBoundary(batches, provider.batchSize, at, end, |work|);
        at, batches := end, batches + 1;
      }
      assert work[..|work|] == work;
      r := Ok(at);
    }

    /** The batch from `at` to `end`, after what was stored before it. */
    method EmbedNext(work: seq<Work>, at: nat, end: nat, ghost start: Rows, ghost known: Option<nat>, ghost first: nat,
      ghost vectors: seq<Vector>)
      returns (failure: Option<Failure>, ghost done: seq<Work>, ghost all: seq<Vector>)
      requires provider.Valid() && at < end <= |work| && end - at <= provider.batchSize && first <= provider.calls
      requires Stored(start, known, first, work[..at], vectors)
      modifies this`rows, provider
      ensures Steady() && provider.calls > old(provider.calls)
      ensures failure.Some? ==> Fails(provider.serve, old(provider.calls), work[at..end], failure.value)
      ensures done == work[..at] + StoredOf(provider.serve, old(provider.calls), work[at..end])
      ensures failure.None? ==> done == work[..end]
      ensures Stored(start, known, first, done, all)
    {
      ghost var items, more := StoredOf(provider.serve, provider.calls, work[at..end]), [];
      if Succeeds(provider.serve, provider.calls, work[at..end]) {
        SuccessStoresAll(provider.serve, provider.calls, work[at..end]);
        assert work[..at] + work[at..end] == work[..end];
      }
      failure, more := EmbedOrIsolate(work[at..end]);
      StoredMore(start, known, old(provider.Calls()), first, old(provider.calls), work[..at], vectors, old(rows), items,
        more);
      done, all := work[..at] + items, vectors + more;
    }

    /** Look up the dimension and embed. What is returned is how many, what is left is in
        `lastRemaining`. */
    method EmbedPrepared(work: seq<Work>, deadline: Option<nat -> bool>)
      returns (r: Result<nat, Failure>, ghost known: Option<nat>, ghost done: seq<Work>, ghost vectors: seq<Vector>)
      requires provider.Valid() && provider.batchSize > 0
      modifies this, provider
      ensures Steady()
      ensures if work == [] then known == old(provider.dimension)
              else Adopts(old(rows), naming, old(provider.dimension), known)
      ensures Stored(old(rows), known, old(provider.calls), done, vectors)
      ensures r.Ok? ==> r.value + lastRemaining == |work| && (work != [] ==> r.value > 0) && done == work[..r.value]
      ensures r.Ok? && lastRemaining > 0 ==> deadline.Some? && deadline.value(r.value)
      ensures r.Ok? && deadline.Some? ==> NotOverBefore(deadline.value, provider.batchSize, r.value)
      ensures r.Err? ==> lastRemaining == 0
      ensures r.Err? ==>
        FailedSince(provider.Calls(), old(provider.calls), provider.batchSize, work, r.error, done)
      ensures Forgiving(provider.serve) ==> r.Ok?
    {
      if work != [] {
        SeedDimension();
      }
      known := provider.dimension;
      r, done, vectors := EmbedBatches(work, deadline);
      if r.Err? && Forgiving(provider.serve) {
        NothingFails(provider.Calls(), old(provider.calls), work, r.error, done);
      }
    }

    lemma NothingFails(log: Log, first: nat, work: seq<Work>, failure: Failure, done: seq<Work>)
      requires Forgiving(log.serve) && provider.batchSize > 0
      ensures !FailedSince(log, first, provider.batchSize, work, failure, done)
    {
      forall at: nat, call: nat | at < |work|
        ensures !FailedAt(log.serve, provider.batchSize, work, failure, done, at, call)
      {
        ForgivingNeverFails(log.serve, call, work[at..Min(at + provider.batchSize, |work|)], failure);
      }
    }

    // -------------------------------------------------------------------------
    // Windows
    // -------------------------------------------------------------------------

    /** Another store and provider object over the same rows and server: what was learnt is forgotten. */
    method Reopen()
      modifies this`lastRemaining, provider`dimension
      ensures provider.dimension == provider.pinned && lastRemaining == 0
    {
      lastRemaining := 0;
      provider.Renew();
    }

    /** The items are stored, each under the key of its window and as told for it. */
    ghost predicate Sliced(before: Rows, first: nat, items: seq<Work>, keys: seq<string>, vectors: seq<Vector>)
      reads this, provider
    {
      && |keys| == |items|
      && AllTold(provider.Calls(), first, TextsOf(items), vectors)
      && rows == PutEach(before, keys, items, vectors)
    }

    /** The dimension is pinned, or it is the only one that is stored or told. */
    ghost predicate OnlyDimension(before: Rows, vectors: seq<Vector>, dim: nat) {
      || provider.pinned == Some(dim)
      || (&& provider.pinned.None? && naming.WellNamed() && OneDimension(before, naming, dim)
          && forall v :: v in vectors ==> |v| == dim)
    }

    /** With but one dimension all windows write under its key. */
    ghost predicate UnderOneKey(before: Rows, keys: seq<string>, vectors: seq<Vector>, dim: nat) {
      OnlyDimension(before, vectors, dim) ==> forall key :: key in keys ==> key == naming.keyOf(Some(dim))
    }

    lemma WindowAdds(before: Rows, log: Log, first: nat, from: nat, items: seq<Work>, later: seq<Work>,
      keys: seq<string>, vectors: seq<Vector>, middle: Rows, known: Option<nat>, more: seq<Vector>)
      requires first <= from && provider.Calls().Extends(log) && |keys| == |items|
      requires AllTold(log, first, TextsOf(items), vectors) && middle == PutEach(before, keys, items, vectors)
      requires Stored(middle, known, from, later, more)
      ensures Sliced(before, first, items + later, keys + Times(Key(), |more|), vectors + more)
    {
      AllToldMore(log, provider.Calls(), first, from, TextsOf(items), vectors, TextsOf(later), more);
      assert TextsOf(items) + TextsOf(later) == TextsOf(items + later);
      PutEachMore(before, keys, items, vectors, Key(), later, more);
    }

    lemma WindowKey(before: Rows, items: seq<Work>, keys: seq<string>, vectors: seq<Vector>, middle: Rows,
      known: Option<nat>, more: seq<Vector>, dim: nat)
      requires |keys| == |items| == |vectors| && middle == PutEach(before, keys, items, vectors)
      requires UnderOneKey(before, keys, vectors, dim)
      requires more != [] ==> Adopts(middle, naming, provider.pinned, known)
      requires provider.dimension == Learnt(known, more)
      ensures UnderOneKey(before, keys + Times(Key(), |more|), vectors + more, dim)
    {
      if OnlyDimension(before, vectors + more, dim) && more != [] {
        assert forall v :: v in vectors ==> v in vectors + more;
        assert more[0] in vectors + more;
        if provider.pinned.None? {
          PutEachUnderOne(before, keys, items, vectors, naming.keyOf(Some(dim)));
          KeepsOneDimension(before, naming, dim, items, vectors);
          SeedsOneDimension(middle, naming, None, dim, known);
        }
      }
    }

    /** Embed from there with a store and provider opened anew. */
    method EmbedAnew(work: seq<Work>, offset: nat, deadline: nat -> bool)
      returns (r: Result<nat, Failure>, ghost known: Option<nat>, ghost done: seq<Work>, ghost vectors: seq<Vector>)
      requires provider.Valid() && provider.batchSize > 0 && offset <= |work|
      modifies this, provider
      ensures provider.Valid() && provider.Calls().Extends(old(provider.Calls()))
      ensures offset < |work| ==> Adopts(old(rows), naming, provider.pinned, known)
      ensures offset == |work| ==> done == []
      ensures Stored(old(rows), known, old(provider.calls), done, vectors)
      ensures r.Ok? ==> offset <= r.value <= |work| && (offset < |work| ==> offset < r.value) && done == work[offset..r.value]
      ensures r.Err? ==> FailedSince(provider.Calls(), old(provider.calls), provider.batchSize, work, r.error, work[..offset] + done)
      ensures Forgiving(provider.serve) ==> r.Ok?
    {
      Reopen();
      r, known, done, vectors := EmbedPrepared(work[offset..], Some(deadline));
      if r.Ok? {
        assert work[offset..][..r.value] == work[offset..offset + r.value];
        r := Ok(offset + r.value);
      } else {
        FailedInTheRest(provider.Calls(), old(provider.calls), work, offset, r.error, done);
      }
    }

    /** A failure in the rest of the work is one in the work. */
    lemma FailedInTheRest(log: Log, first: nat, work: seq<Work>, offset: nat, failure: Failure, done: seq<Work>)
      requires offset <= |work| && FailedSince(log, first, provider.batchSize, work[offset..], failure, done)
      ensures FailedSince(log, first, provider.batchSize, work, failure, work[..offset] + done)
      ensures offset < |work|
    {
      var rest := work[offset..];
      var at: nat, call: nat :|
        first <= call < |log.sent| && FailedAt(log.serve, provider.batchSize, rest, failure, done, at, call);
      FailedFurtherOn(log.serve, work, offset, failure, done, at, call);
    }

    lemma FailedFurtherOn(serve: Server, work: seq<Work>, offset: nat, failure: Failure, done: seq<Work>, at: nat,
      call: nat)
      requires offset <= |work| && FailedAt(serve, provider.batchSize, work[offset..], failure, done, at, call)
      ensures FailedAt(serve, provider.batchSize, work, failure, work[..offset] + done, offset + at, call)
    {
      var rest := work[offset..];
      var end := Min(at + provider.batchSize, |rest|);
      SliceOfRest(work, offset, at, end);
      var stored := StoredOf(serve, call, rest[at..end]);
      assert work[..offset] + (rest[..at] + stored) == work[..offset] + rest[..at] + stored;
    }

    lemma SliceOfRest(work: seq<Work>, offset: nat, at: nat, end: nat)
      requires offset <= |work| && at <= end <= |work| - offset
      ensures work[offset..][at..end] == work[offset + at..offset + end]
      ensures work[..offset] + work[offset..][..at] == work[..offset + at]
    {
    }

    lemma FailedEarlier(log: Log, first: nat, from: nat, work: seq<Work>, failure: Failure, done: seq<Work>)
      requires first <= from && FailedSince(log, from, provider.batchSize, work, failure, done)
      ensures FailedSince(log, first, provider.batchSize, work, failure, done)
    {
    }

    /** One window over what is left of the work from there. */
    method EmbedWindow(work: seq<Work>, offset: nat, deadline: nat -> bool, ghost before: Rows, ghost first: nat,
      ghost keys: seq<string>, ghost vectors: seq<Vector>, ghost dim: nat)
      returns (r: Result<nat, Failure>, ghost done: seq<Work>, ghost laterKeys: seq<string>,
        ghost laterVectors: seq<Vector>)
      requires provider.Valid() && provider.batchSize > 0 && first <= provider.calls
      requires offset <= |work| && Sliced(before, first, work[..offset], keys, vectors)
      requires UnderOneKey(before, keys, vectors, dim)
      modifies this, provider
      ensures provider.Valid() && provider.Calls().Extends(old(provider.Calls()))
      ensures r.Ok? ==> offset <= r.value <= |work| && (offset < |work| ==> offset < r.value) && done == work[..r.value]
      ensures Sliced(before, first, done, laterKeys, laterVectors)
      ensures UnderOneKey(before, laterKeys, laterVectors, dim)
      ensures r.Err? ==> FailedSince(provider.Calls(), first, provider.batchSize, work, r.error, done)
      ensures Forgiving(provider.serve) ==> r.Ok?
    {
      ghost var known, more, items;
      r, known, items, more := EmbedAnew(work, offset, deadline);
      done, laterKeys, laterVectors := work[..offset] + items, keys + Times(Key(), |more|), vectors + more;
      WindowAdds(before, old(provider.Calls()), first, old(provider.calls), work[..offset], items, keys, vectors,
        old(rows), known, more);
      WindowKey(before, work[..offset], keys, vectors, old(rows), known, more, dim);
      if r.Ok? {
        assert work[..offset] + work[offset..r.value] == work[..r.value];
      } else {
        FailedEarlier(provider.Calls(), first, old(provider.calls), work, r.error, done);
      }
    }

    /** Write one scanned list in windows, each opened anew and taking up where the last one stopped. */
    method EmbedInSlices(work: seq<Work>, deadline: nat -> nat -> bool, passOver: nat -> bool, ghost dim: nat)
      returns (r: Result<nat, Failure>, slices: nat, ghost done: seq<Work>, ghost keys: seq<string>,
        ghost vectors: seq<Vector>)
      requires provider.Valid() && provider.batchSize > 0
      modifies this, provider
      ensures provider.Valid() && provider.Calls().Extends(old(provider.Calls()))
      ensures Sliced(old(rows), old(provider.calls), done, keys, vectors)
      ensures UnderOneKey(old(rows), keys, vectors, dim)
      ensures r.Ok? ==> r.value <= |work| && done == work[..r.value]
      ensures r.Ok? && r.value < |work| ==> slices > 0 && passOver(slices)
      ensures forall n :: 0 < n < slices ==> !passOver(n)
      ensures r.Err? ==>
        FailedSince(provider.Calls(), old(provider.calls), provider.batchSize, work, r.error, done)
      ensures Forgiving(provider.serve) ==> r.Ok?
    {
      var offset := 0;
      slices, done, keys, vectors := 0, [], [], [];
      while true
        invariant offset <= |work| && (slices > 0 ==> offset < |work|) && done == work[..offset]
        invariant provider.Valid() && provider.Calls().Extends(old(provider.Calls()))
        invariant Sliced(old(rows), old(provider.calls), done, keys, vectors)
        invariant UnderOneKey(old(rows), keys, vectors, dim)
        invariant forall n :: 0 < n <= slices ==> !passOver(n)
        decreases |work| - offset
      {
        var answer;
        answer, done, keys, vectors :=
          EmbedWindow(work, offset, deadline(slices), old(rows), old(provider.calls), keys, vectors, dim);
        if answer.Err? {
          return Err(answer.error), slices, done, keys, vectors;
        }
        offset, slices := answer.value, slices + 1;
        if offset >= |work| || passOver(slices) {
          break;
        }
      }
      r := Ok(offset);
    }

    /** From a truthful server, with but one dimension, windows embed every item as itself under its key. */
    lemma SlicedHonestly(before: Rows, first: nat, items: seq<Work>, keys: seq<string>, vectors: seq<Vector>, dim: nat,
      meaning: string -> Vector)
      requires Sliced(before, first, items, keys, vectors) && UnderOneKey(before, keys, vectors, dim)
      requires Honest(provider.serve, meaning) && OnlyDimension(before, Meanings(TextsOf(items), meaning), dim)
      ensures rows == Embedded(before, naming.keyOf(Some(dim)), items, meaning)
    {
      AllToldHonestly(provider.Calls(), first, TextsOf(items), vectors, meaning);
      PutEachUnderOne(before, keys, items, vectors, naming.keyOf(Some(dim)));
    }

    /** And so does a single pass over some work. */
    lemma PassedHonestly(before: Rows, known: Option<nat>, first: nat, items: seq<Work>, vectors: seq<Vector>, dim: nat,
      meaning: string -> Vector)
      requires Adopts(before, naming, provider.pinned, known) && items != []
      requires Stored(before, known, first, items, vectors)
      requires Honest(provider.serve, meaning) && OnlyDimension(before, Meanings(TextsOf(items), meaning), dim)
      ensures rows == Embedded(before, naming.keyOf(Some(dim)), items, meaning)
    {
      StoredHonestly(before, known, first, items, vectors, meaning);
      assert Meanings(TextsOf(items), meaning)[0] in Meanings(TextsOf(items), meaning);
    }
  }

  /** So slicing does not change the result: with a truthful server and but one dimension, windows that
      got to the end leave the rows of a single pass, whatever failures and fallbacks were on the way. */
  lemma SlicesAgree(sliced: EmbeddingStore, single: EmbeddingStore, before: Rows, known: Option<nat>, firstCall: nat,
    secondCall: nat, work: seq<Work>, keys: seq<string>, vectors: seq<Vector>, others: seq<Vector>, dim: nat,
    meaning: string -> Vector)
    requires sliced.naming == single.naming && sliced.provider.pinned == single.provider.pinned
    requires Honest(sliced.provider.serve, meaning) && Honest(single.provider.serve, meaning)
    requires sliced.OnlyDimension(before, Meanings(TextsOf(work), meaning), dim)
    requires sliced.Sliced(before, firstCall, work, keys, vectors) && sliced.UnderOneKey(before, keys, vectors, dim)
    requires work != [] && Adopts(before, single.naming, single.provider.pinned, known)
    requires single.Stored(before, known, secondCall, work, others)
    ensures sliced.rows == single.rows
  {
    sliced.SlicedHonestly(before, firstCall, work, keys, vectors, dim, meaning);
    single.PassedHonestly(before, known, secondCall, work, others, dim, meaning);
  }
}
