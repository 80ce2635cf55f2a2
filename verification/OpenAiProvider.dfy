/** An OpenAI-compatible embedding provider: which responses it accepts, and which vector answers
    which text. */
module OpenAiProvider {
  import opened Wrappers
  import opened Sequences
  import opened StableSort

  type Vector = seq<real>

  /** The `index` field of a response item may be absent, or be something else than an integer. */
  datatype Index = Missing | NotAnInt | At(value: int)
  datatype Item = Item(index: Index, vector: Vector)

  /** What the retry loop ends with: an error, or the items of a response. */
  datatype Reply = Failed(oneBadInput: bool) | Data(items: seq<Item>)

  datatype Refusal = CallFailed(oneBadInput: bool) | EmptyData | MalformedIndices | WrongCount | MixedIndices

  predicate AllIndexed(items: seq<Item>) {
    forall item :: item in items ==> item.index.At?
  }

  predicate NoneIndexed(items: seq<Item>) {
    forall item :: item in items ==> item.index.Missing?
  }

  function Indices(items: seq<Item>): seq<int>
    requires AllIndexed(items)
  {
    seq(|items|, i requires 0 <= i < |items| => items[i].index.value)
  }

  /** Every position of the input is answered once. */
  ghost predicate Permutes(indices: seq<int>, n: nat) {
    |indices| == n && forall i :: 0 <= i < n ==> i in indices
  }

  function Range(n: nat): (r: set<int>)
    ensures |r| == n && forall i :: i in r <==> 0 <= i < n
  {
    if n == 0 then {} else Range(n - 1) + {n - 1}
  }

  lemma {:induction false} SetSize<T>(s: seq<T>)
    ensures |ToSet(s)| <= |s|
  {
    if s != [] {
      SetSize(s[1..]);
      assert ToSet(s) == {s[0]} + ToSet(s[1..]);
    }
  }

  lemma SubsetOfSameSize<T>(a: set<T>, b: set<T>)
    requires a <= b && |b| <= |a|
    ensures a == b
  {
    if a != b {
      var x :| x in b && x !in a;
      SmallerWithout(a, b, x);
    }
  }

  lemma SmallerWithout<T>(a: set<T>, b: set<T>, x: T)
    requires a <= b && x in b && x !in a
    ensures |a| < |b|
  {
    assert |b| == |b - {x}| + 1;
    SubsetSize(a, b - {x});
  }

  lemma {:induction false} SubsetSize<T>(a: set<T>, b: set<T>)
    requires a <= b
    ensures |a| <= |b|
    decreases a
  {
    if a != {} {
      var x :| x in a;
      SubsetSize(a - {x}, b - {x});
    }
  }

  /** No index twice and no index but 0 to n - 1 just means a permutation of 0 to n - 1. */
  lemma CheckMeansPermutation(indices: seq<int>, n: nat)
    ensures |ToSet(indices)| == |indices| && ToSet(indices) == Range(n) <==> Permutes(indices, n)
  {
    SetSize(indices);
    if Permutes(indices, n) {
      assert Range(n) <= ToSet(indices);
      SubsetSize(Range(n), ToSet(indices));
      SubsetOfSameSize(Range(n), ToSet(indices));
    }
    if ToSet(indices) == Range(n) {
      forall i | 0 <= i < n ensures i in indices {
        assert i in Range(n);
      }
    }
  }

  // ---------------------------------------------------------------------------
  // Sorting by index
  // ---------------------------------------------------------------------------

  function ByIndex(item: Item): real {
    if item.index.At? then item.index.value as real else 0.0
  }

  ghost predicate Holds(items: seq<Item>, p: int, i: int) {
    0 <= p < |items| && items[p].index == At(i)
  }

  lemma {:induction false} NotBefore(items: seq<Item>, n: nat, i: nat, p: int)
    requires AllIndexed(items) && Ascending(items, ByIndex) && Permutes(Indices(items), n)
    requires i < n && Holds(items, p, i)
    ensures p >= i
  {
    if i > 0 {
      assert i - 1 in Indices(items);
      var q :| 0 <= q < n && Indices(items)[q] == i - 1;
      NotBefore(items, n, i - 1, q);
      assert ByIndex(items[q]) < ByIndex(items[p]);
    }
  }

  lemma {:induction false} NotAfter(items: seq<Item>, n: nat, i: nat, p: int)
    requires AllIndexed(items) && Ascending(items, ByIndex) && Permutes(Indices(items), n)
    requires i < n && Holds(items, p, i)
    ensures p <= i
    decreases n - i
  {
    if i < n - 1 {
      assert i + 1 in Indices(items);
      var q :| 0 <= q < n && Indices(items)[q] == i + 1;
      NotAfter(items, n, i + 1, q);
      assert ByIndex(items[p]) < ByIndex(items[q]);
    }
  }

  lemma SortingKeepsIndices(items: seq<Item>, n: nat)
    requires AllIndexed(items) && Permutes(Indices(items), n)
    ensures AllIndexed(SortBy(items, ByIndex)) && Permutes(Indices(SortBy(items, ByIndex)), n)
  {
    var sorted := SortBy(items, ByIndex);
    SortPermutes(items, ByIndex);
    forall i | 0 <= i < n ensures i in Indices(sorted) {
      assert i in Indices(items);
      var q :| 0 <= q < n && Indices(items)[q] == i;
      assert items[q] in sorted;
      var p :| 0 <= p < n && sorted[p] == items[q];
      assert Indices(sorted)[p] == i;
    }
  }

  /** After sorting, the item with index i is at position i. */
  lemma SortedAligns(items: seq<Item>, n: nat)
    requires AllIndexed(items) && Permutes(Indices(items), n)
    ensures |SortBy(items, ByIndex)| == n
    ensures forall p :: 0 <= p < n ==> SortBy(items, ByIndex)[p].index == At(p)
  {
    var sorted := SortBy(items, ByIndex);
    SortingKeepsIndices(items, n);
    SortAscends(items, ByIndex);
    forall i | 0 <= i < n ensures sorted[i].index == At(i) {
      assert i in Indices(sorted);
      var p :| 0 <= p < n && Indices(sorted)[p] == i;
      NotBefore(sorted, n, i, p);
      NotAfter(sorted, n, i, p);
    }
  }

  // ---------------------------------------------------------------------------
  // Calls
  // ---------------------------------------------------------------------------

  /** Whether retrying a failed batch text by text could help. */
  predicate CouldBeOneBadInput(refusal: Refusal) {
    refusal.CallFailed? ==> refusal.oneBadInput
  }

  /** A failure of the connection or of the quota says nothing about any one input. */
  predicate Isolates(reply: Reply) {
    reply.Failed? ==> reply.oneBadInput
  }

  /** What a reply says about the i-th input: the item with that index, or the i-th of an
      unindexed response. */
  ghost predicate Answers(reply: Reply, i: nat, v: Vector) {
    reply.Data? &&
    if AllIndexed(reply.items) then Item(At(i), v) in reply.items
    else i < |reply.items| && reply.items[i].vector == v
  }

  /** The reply is one vector per input, in an order that can be told. */
  ghost predicate Accepted(reply: Reply, n: nat) {
    && reply.Data? && reply.items != []
    && if AllIndexed(reply.items) then Permutes(Indices(reply.items), n)
       else NoneIndexed(reply.items) && |reply.items| == n
  }

  ghost predicate Aligned(reply: Reply, vectors: seq<Vector>) {
    forall i :: 0 <= i < |vectors| ==> Answers(reply, i, vectors[i])
  }

  /** The items of some vectors with their indices, in whatever order the server sends them. */
  function Shuffled(vectors: seq<Vector>, order: seq<nat>): seq<Item>
    requires forall k :: 0 <= k < |order| ==> order[k] < |vectors|
  {
    seq(|order|, k requires 0 <= k < |order| => Item(At(order[k]), vectors[order[k]]))
  }

  function Unindexed(vectors: seq<Vector>): seq<Item> {
    seq(|vectors|, k requires 0 <= k < |vectors| => Item(Missing, vectors[k]))
  }

  /** Indexed vectors come back as they were from any order, and are accepted exactly when none is
      missing and none sent twice. */
  lemma AnyOrderComesBack(vectors: seq<Vector>, order: seq<nat>, told: seq<Vector>)
    requires vectors != [] && (forall k :: 0 <= k < |order| ==> order[k] < |vectors|)
    ensures var reply := Data(Shuffled(vectors, order));
      && (Accepted(reply, |vectors|) <==> |order| == |vectors| && forall i: nat :: i < |vectors| ==> i in order)
      && (order != [] && |told| == |vectors| && Aligned(reply, told) ==> told == vectors)
  {
    var items := Shuffled(vectors, order);
    assert AllIndexed(items);
    forall i: nat | i < |vectors| ensures i in order <==> i in Indices(items) {
      if i in order {
        var k :| 0 <= k < |order| && order[k] == i;
        assert Indices(items)[k] == i;
      }
      if i in Indices(items) {
        var k :| 0 <= k < |items| && Indices(items)[k] == i;
        assert order[k] == i;
      }
    }
    if order != [] && |told| == |vectors| && Aligned(Data(items), told) {
      forall i | 0 <= i < |told| ensures told[i] == vectors[i] {
        assert Answers(Data(items), i, told[i]);
      }
    }
  }

  /** Unindexed ones come back in the order they are sent. */
  lemma UnindexedComesBack(vectors: seq<Vector>, n: nat, told: seq<Vector>)
    requires vectors != []
    ensures var reply := Data(Unindexed(vectors));
      (Accepted(reply, n) <==> |vectors| == n) && (|told| == |vectors| && Aligned(reply, told) ==> told == vectors)
  {
    var items := Unindexed(vectors);
    assert items[0].index == Missing && NoneIndexed(items);
    assert !AllIndexed(items);
    if |told| == |vectors| && Aligned(Data(items), told) {
      forall i | 0 <= i < |told| ensures told[i] == vectors[i] {
        assert Answers(Data(items), i, told[i]);
      }
    }
  }

  /** Items with and without an index together, or with one that is no integer, are never accepted. */
  lemma MixedIsRefused(items: seq<Item>, n: nat, i: nat, j: nat)
    requires i < |items| && j < |items|
    requires items[i].index == NotAnInt || (items[i].index.At? && items[j].index == Missing)
    ensures !Accepted(Data(items), n)
  {
    assert items[i] in items && items[j] in items;
  }

  /** Accept a response just when its order can be told, and put the vectors in input order. */
  method Align(reply: Reply, n: nat) returns (r: Result<seq<Vector>, Refusal>)
    ensures r.Ok? <==> Accepted(reply, n)
    ensures r.Ok? ==> |r.value| == n && Aligned(reply, r.value)
    ensures r.Err? ==> (CouldBeOneBadInput(r.error) <==> Isolates(reply))
  {
    if reply.Failed? {
      return Err(CallFailed(reply.oneBadInput));
    }
    var data := reply.items;
    if data == [] {
      return Err(EmptyData);
    }
    if AllIndexed(data) {
      var indices := Indices(data);
      CheckMeansPermutation(indices, n);
      if |ToSet(indices)| != |indices| || ToSet(indices) != Range(n) {
        return Err(MalformedIndices);
      }
      SortedAligns(data, n);
      SortPermutes(data, ByIndex);
      data := SortBy(data, ByIndex);
      assert forall i :: 0 <= i < n ==> data[i] in reply.items;
    } else if NoneIndexed(data) {
      if |data| != n {
        return Err(WrongCount);
      }
    } else {
      return Err(MixedIndices);
    }
    r := Ok(seq(|data|, i requires 0 <= i < |data| => data[i].vector));
  }

  function Slice(texts: seq<string>, start: nat, batch: nat): seq<string>
    requires start <= |texts|
  {
    texts[start..Min(start + batch, |texts|)]
  }

  /** The n-th of several calls, which was for the n-th slice and was accepted, answers the k-th
      text at its position in that slice. */
  ghost predicate AnsweredBy(serve: (nat, seq<string>) -> Reply, first: nat, batch: nat, texts: seq<string>, n: nat,
    k: nat, v: Vector)
  {
    var start := n * batch;
    && start <= k < Min(start + batch, |texts|)
    && Accepted(serve(first + n, Slice(texts, start, batch)), |Slice(texts, start, batch)|)
    && Answers(serve(first + n, Slice(texts, start, batch)), k - start, v)
  }

  ghost predicate AnsweredBySome(serve: (nat, seq<string>) -> Reply, first: nat, batch: nat, texts: seq<string>, k: nat,
    v: Vector)
  {
    exists n: nat :: AnsweredBy(serve, first, batch, texts, n, k, v)
  }

  /** Every text is answered by the response to its own slice, at its own position there. */
  ghost predicate Answered(serve: (nat, seq<string>) -> Reply, first: nat, batch: nat, texts: seq<string>,
    vectors: seq<Vector>)
  {
    forall k: nat :: k < |vectors| ==> AnsweredBySome(serve, first, batch, texts, k, vectors[k])
  }

  lemma AnsweredMore(serve: (nat, seq<string>) -> Reply, first: nat, batch: nat, texts: seq<string>,
    vectors: seq<Vector>, n: nat, more: seq<Vector>)
    requires |vectors| == n * batch <= |texts| && Answered(serve, first, batch, texts, vectors)
    requires var slice := Slice(texts, |vectors|, batch);
      |more| == |slice| && Accepted(serve(first + n, slice), |slice|) && Aligned(serve(first + n, slice), more)
    ensures Answered(serve, first, batch, texts, vectors + more)
  {
    forall k: nat | k < |vectors + more| ensures AnsweredBySome(serve, first, batch, texts, k, (vectors + more)[k]) {
      if k < |vectors| {
        assert AnsweredBySome(serve, first, batch, texts, k, vectors[k]);
      } else {
        assert AnsweredBy(serve, first, batch, texts, n, k, more[k - |vectors|]);
      }
    }
  }

  lemma MultiplesAreLarger(n: nat, batch: nat)
    requires n > 0
    ensures n * batch >= batch
  {
    assert n * batch == (n - 1) * batch + batch;
  }

  lemma AnsweredByFirst(serve: (nat, seq<string>) -> Reply, first: nat, batch: nat, texts: seq<string>, k: nat, v: Vector)
    requires k < |texts| <= batch && AnsweredBySome(serve, first, batch, texts, k, v)
    ensures Accepted(serve(first, texts), |texts|) && Answers(serve(first, texts), k, v)
  {
    var n: nat :| AnsweredBy(serve, first, batch, texts, n, k, v);
    if n > 0 {
      MultiplesAreLarger(n, batch);
    }
    assert Slice(texts, 0, batch) == texts;
  }

  /** How much of the texts so many slices make up. */
  ghost function Reach(n: nat, batch: nat, texts: seq<string>): nat {
    Min(n * batch, |texts|)
  }

  ghost predicate IsSlice(slice: seq<string>, batch: nat, texts: seq<string>, n: nat) {
    n * batch < |texts| && slice == Slice(texts, n * batch, batch)
  }

  lemma NextSlice(n: nat, batch: nat, texts: seq<string>, at: nat)
    requires at == Reach(n, batch, texts) < |texts|
    ensures at == n * batch && IsSlice(Slice(texts, at, batch), batch, texts, n)
    ensures Reach(n + 1, batch, texts) == at + |Slice(texts, at, batch)|
  {
    assert (n + 1) * batch == n * batch + batch;
  }

  /** The vectors are those of one accepted call for these texts, each at its own position. */
  ghost predicate OfOneCall(serve: (nat, seq<string>) -> Reply, call: nat, texts: seq<string>, vectors: seq<Vector>) {
    |vectors| == |texts| && Accepted(serve(call, texts), |texts|) && Aligned(serve(call, texts), vectors)
  }

  /** A list that fits one call is a single slice. */
  lemma OneSlice(batch: nat, texts: seq<string>, n: nat, slice: seq<string>)
    requires 0 < |texts| <= batch
    ensures IsSlice(slice, batch, texts, n) ==> n == 0 && slice == texts
    ensures Reach(n, batch, texts) == |texts| ==> n > 0
  {
    if n > 0 {
      MultiplesAreLarger(n, batch);
    }
    assert Slice(texts, 0, batch) == texts;
  }

  /** A list that fits one call is answered by that call. */
  lemma AnsweredAtOnce(serve: (nat, seq<string>) -> Reply, first: nat, batch: nat, texts: seq<string>,
    vectors: seq<Vector>)
    requires 0 < |vectors| == |texts| <= batch && Answered(serve, first, batch, texts, vectors)
    ensures OfOneCall(serve, first, texts, vectors)
  {
    forall k: nat | k < |texts|
      ensures Accepted(serve(first, texts), |texts|) && Answers(serve(first, texts), k, vectors[k])
    {
      AnsweredByFirst(serve, first, batch, texts, k, vectors[k]);
    }
    AnsweredByFirst(serve, first, batch, texts, 0, vectors[0]);
  }

  // ---------------------------------------------------------------------------
  // What was said, over all calls
  // ---------------------------------------------------------------------------

  /** The server, and the texts of every call that was made. */
  datatype Log = Log(serve: (nat, seq<string>) -> Reply, sent: seq<seq<string>>)
  {
    /** The same server after further calls. */
    ghost predicate Extends(earlier: Log) {
      serve == earlier.serve && earlier.sent <= sent
    }
  }

  /** A call that was made, for the stretch of the texts that starts there, was accepted and
      answers the k-th text at its position in that stretch. */
  ghost predicate ToldBy(log: Log, first: nat, texts: seq<string>, call: nat, at: nat, k: nat, v: Vector) {
    && first <= call < |log.sent|
    && at <= k < at + |log.sent[call]| <= |texts|
    && log.sent[call] == texts[at..at + |log.sent[call]|]
    && Accepted(log.serve(call, log.sent[call]), |log.sent[call]|)
    && Answers(log.serve(call, log.sent[call]), k - at, v)
  }

  ghost predicate Told(log: Log, first: nat, texts: seq<string>, k: nat, v: Vector) {
    exists call: nat, at: nat :: ToldBy(log, first, texts, call, at, k, v)
  }

  ghost predicate AllTold(log: Log, first: nat, texts: seq<string>, vectors: seq<Vector>) {
    |vectors| == |texts| && forall k: nat :: k < |texts| ==> Told(log, first, texts, k, vectors[k])
  }

  lemma ToldAmongMore(log: Log, later: Log, first: nat, from: nat, before: seq<string>, texts: seq<string>,
    after: seq<string>, k: nat, v: Vector)
    requires first <= from && later.Extends(log) && Told(log, from, texts, k, v)
    ensures Told(later, first, before + texts + after, |before| + k, v)
  {
    var call: nat, at: nat :| ToldBy(log, from, texts, call, at, k, v);
    var all := before + texts + after;
    assert all[|before| + at..|before| + at + |log.sent[call]|] == texts[at..at + |log.sent[call]|];
    assert ToldBy(later, first, all, call, |before| + at, |before| + k, v);
  }

  lemma AllToldMore(log: Log, later: Log, first: nat, from: nat, texts: seq<string>, vectors: seq<Vector>,
    more: seq<string>, moreVectors: seq<Vector>)
    requires first <= from && later.Extends(log)
    requires AllTold(log, first, texts, vectors) && AllTold(later, from, more, moreVectors)
    ensures AllTold(later, first, texts + more, vectors + moreVectors)
  {
    forall k: nat | k < |texts + more| ensures Told(later, first, texts + more, k, (vectors + moreVectors)[k]) {
      if k < |texts| {
        ToldAmongMore(log, later, first, first, [], texts, more, k, vectors[k]);
        assert [] + texts + more == texts + more;
      } else {
        ToldAmongMore(later, later, first, from, texts, more, [], k - |texts|, moreVectors[k - |texts|]);
        assert texts + more + [] == texts + more;
      }
    }
  }

  /** A server whose accepted replies carry every text's own vector, in whatever order; it may fail,
      drop or mislabel items as long as that gets the reply refused. */
  ghost predicate Honest(serve: (nat, seq<string>) -> Reply, meaning: string -> Vector) {
    forall call: nat, texts: seq<string>, i: nat, v: Vector ::
      i < |texts| && Accepted(serve(call, texts), |texts|) && Answers(serve(call, texts), i, v) ==> v == meaning(texts[i])
  }

  function Meanings(texts: seq<string>, meaning: string -> Vector): seq<Vector> {
    seq(|texts|, i requires 0 <= i < |texts| => meaning(texts[i]))
  }

  /** So with such a server a list of texts is answered by their own vectors. */
  lemma AnsweredHonestly(serve: (nat, seq<string>) -> Reply, first: nat, batch: nat, texts: seq<string>,
    vectors: seq<Vector>, meaning: string -> Vector)
    requires Answered(serve, first, batch, texts, vectors) && |vectors| == |texts| && Honest(serve, meaning)
    ensures vectors == Meanings(texts, meaning)
  {
    forall k: nat | k < |vectors| ensures vectors[k] == meaning(texts[k]) {
      AnswerMeans(serve, first, batch, texts, k, vectors[k], meaning);
    }
  }

  lemma AnswerMeans(serve: (nat, seq<string>) -> Reply, first: nat, batch: nat, texts: seq<string>, k: nat, v: Vector,
    meaning: string -> Vector)
    requires k < |texts| && AnsweredBySome(serve, first, batch, texts, k, v) && Honest(serve, meaning)
    ensures v == meaning(texts[k])
  {
    var n: nat :| AnsweredBy(serve, first, batch, texts, n, k, v);
    AnswerOfSlice(serve, first + n, batch, texts, n * batch, k, v, meaning);
  }

  lemma AnswerOfSlice(serve: (nat, seq<string>) -> Reply, call: nat, batch: nat, texts: seq<string>, start: nat, k: nat,
    v: Vector, meaning: string -> Vector)
    requires start <= k < Min(start + batch, |texts|) && Honest(serve, meaning)
    requires Accepted(serve(call, Slice(texts, start, batch)), |Slice(texts, start, batch)|)
    requires Answers(serve(call, Slice(texts, start, batch)), k - start, v)
    ensures v == meaning(texts[k])
  {
    assert Slice(texts, start, batch)[k - start] == texts[k];
  }

  lemma ToldHonestly(log: Log, first: nat, texts: seq<string>, k: nat, v: Vector, meaning: string -> Vector)
    requires Honest(log.serve, meaning) && k < |texts| && Told(log, first, texts, k, v)
    ensures v == meaning(texts[k])
  {
    var call: nat, at: nat :| ToldBy(log, first, texts, call, at, k, v);
    assert log.sent[call][k - at] == texts[k];
  }

  /** And so is everything that was told over any number of calls. */
  lemma AllToldHonestly(log: Log, first: nat, texts: seq<string>, vectors: seq<Vector>, meaning: string -> Vector)
    requires AllTold(log, first, texts, vectors) && Honest(log.serve, meaning)
    ensures vectors == Meanings(texts, meaning)
  {
    forall k: nat | k < |texts| ensures vectors[k] == meaning(texts[k]) {
      ToldHonestly(log, first, texts, k, vectors[k], meaning);
    }
  }

  class Provider {
    const serve: (nat, seq<string>) -> Reply
    const batchSize: nat
    /** The dimension asked for, if one was set. */
    const pinned: Option<nat>
    var calls: nat
    var dimension: Option<nat>
    /** The texts of every call so far. */
    ghost var sent: seq<seq<string>>

    ghost predicate Valid()
      reads this
    {
      |sent| == calls
    }

    ghost function Calls(): Log
      reads this
    {
      Log(serve, sent)
    }

    constructor (serve: (nat, seq<string>) -> Reply, batchSize: nat, dimension: Option<nat>)
      ensures this.serve == serve && this.batchSize == batchSize && pinned == dimension && this.dimension == dimension
      ensures Valid() && calls == 0
    {
      this.serve, this.batchSize, this.pinned := serve, batchSize, dimension;
      this.calls, this.dimension, sent := 0, dimension, [];
    }

    /** Another object of the same settings for the same server. */
    method Renew()
      modifies this`dimension
      ensures dimension == pinned
    {
      dimension := pinned;
    }

    /** One call; the first accepted response tells an unpinned dimension. */
    method CallApi(texts: seq<string>) returns (r: Result<seq<Vector>, Refusal>)
      requires Valid() && texts != []
      modifies this
      ensures Valid() && sent == old(sent) + [texts]
      ensures r.Ok? <==> Accepted(serve(old(calls), texts), |texts|)
      ensures r.Ok? ==> |r.value| == |texts| && Aligned(serve(old(calls), texts), r.value)
      ensures r.Err? ==> (CouldBeOneBadInput(r.error) <==> Isolates(serve(old(calls), texts)))
      ensures dimension == if r.Ok? && old(dimension).None? then Some(|r.value[0]|) else old(dimension)
    {
      r := Align(serve(calls, texts), |texts|);
      calls, sent := calls + 1, sent + [texts];
      if r.Ok? && dimension.None? {
        dimension := Some(|r.value[0]|);
      }
    }

    /** What was sent since: slice after slice of the texts. */
    ghost predicate SentSlices(before: seq<seq<string>>, texts: seq<string>)
      reads this
    {
      before <= sent && forall c :: |before| <= c < |sent| ==> IsSlice(sent[c], batchSize, texts, c - |before|)
    }

    /** Slice by slice until all are accepted; the first refused slice ends it. */
    method Embed(texts: seq<string>) returns (r: Result<seq<Vector>, Refusal>)
      requires Valid() && batchSize > 0
      modifies this
      ensures Valid() && SentSlices(old(sent), texts)
      ensures r.Ok? ==> |r.value| == |texts| && Answered(serve, old(calls), batchSize, texts, r.value)
      ensures r.Ok? ==> |texts| == Reach(calls - old(calls), batchSize, texts)
      ensures r.Err? ==> calls > old(calls) && !Accepted(serve(calls - 1, sent[calls - 1]), |sent[calls - 1]|)
      ensures r.Err? ==> (CouldBeOneBadInput(r.error) <==> Isolates(serve(calls - 1, sent[calls - 1])))
      ensures r.Ok? ==>
        dimension == (if texts != [] && old(dimension).None? then Some(|r.value[0]|) else old(dimension))
      ensures r.Err? && (old(dimension).Some? || |texts| <= batchSize) ==> dimension == old(dimension)
    {
      var results: seq<Vector> := [];
      ghost var n: nat := 0;
      while |results| < |texts|
        invariant Valid() && calls == old(calls) + n && |results| == Reach(n, batchSize, texts)
        invariant results == [] || |results| >= Min(batchSize, |texts|)
        invariant SentSlices(old(sent), texts)
        invariant Answered(serve, old(calls), batchSize, texts, results)
        invariant dimension == if results != [] && old(dimension).None? then Some(|results[0]|) else old(dimension)
        decreases |texts| - |results|
      {
        NextSlice(n, batchSize, texts, |results|);
        var answer := CallApi(Slice(texts, |results|, batchSize));
        if answer.Err? {
          return Err(answer.error);
        }
        AnsweredMore(serve, old(calls), batchSize, texts, results, n, answer.value);
        results, n := results + answer.value, n + 1;
      }
      r := Ok(results);
    }
  }
}
