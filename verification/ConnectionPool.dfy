/** The pool of open connections, least recently used first. */
module ConnectionPool {
  import opened Wrappers
  import opened Sequences

  type Handle = nat

  /** What `sqlite3.connect` and the setup after it do for a call. */
  datatype Connecting = Opens | CannotOpen | SetupFails

  datatype Error = EmptyPool | ConnectFailed

  // ---------------------------------------------------------------------------
  // Keys, by last use
  // ---------------------------------------------------------------------------

  function Without(keys: seq<string>, key: string): (r: seq<string>)
    ensures |r| <= |keys|
  {
    if keys == [] then []
    else if keys[0] == key then Without(keys[1..], key)
    else [keys[0]] + Without(keys[1..], key)
  }

  /** The distinct keys of a history, the last used one last. */
  function Recent(history: seq<string>): seq<string> {
    if history == [] then []
    else Without(Recent(history[..|history| - 1]), history[|history| - 1]) + [history[|history| - 1]]
  }

  function Tail(keys: seq<string>, n: nat): seq<string> {
    if |keys| <= n then keys else keys[|keys| - n..]
  }

  function Evicted(keys: seq<string>, maxSize: nat): seq<string>
    requires maxSize > 0
  {
    Tail(keys, maxSize - 1)
  }

  /** What one get does to the keys of the pool. */
  function Touched(keys: seq<string>, maxSize: nat, key: string): seq<string>
    requires maxSize > 0
  {
    if key in keys then Without(keys, key) + [key] else Evicted(keys, maxSize) + [key]
  }

  function Kept(history: seq<string>, maxSize: nat): seq<string>
    requires maxSize > 0
  {
    if history == [] then [] else Touched(Kept(history[..|history| - 1], maxSize), maxSize, history[|history| - 1])
  }

  lemma {:induction false} WithoutHas(keys: seq<string>, key: string)
    ensures forall k :: k in Without(keys, key) <==> k in keys && k != key
  {
    if keys != [] {
      WithoutHas(keys[1..], key);
    }
  }

  lemma {:induction false} WithoutAbsent(keys: seq<string>, key: string)
    requires key !in keys
    ensures Without(keys, key) == keys
  {
    if keys != [] {
      WithoutAbsent(keys[1..], key);
    }
  }

  lemma DistinctCons(key: string, rest: seq<string>)
    requires Distinct(rest) && key !in rest
    ensures Distinct([key] + rest)
  {
  }

  lemma {:induction false} WithoutDistinct(keys: seq<string>, key: string)
    requires Distinct(keys)
    ensures Distinct(Without(keys, key))
    ensures |Without(keys, key)| == |keys| - if key in keys then 1 else 0
    ensures forall k :: k in Without(keys, key) <==> k in keys && k != key
  {
    if keys != [] {
      WithoutDistinct(keys[1..], key);
      assert forall i :: 1 <= i < |keys| ==> keys[i] != keys[0];
      assert keys[0] !in keys[1..];
      if keys[0] == key {
        WithoutAbsent(keys[1..], key);
      } else {
        DistinctCons(keys[0], Without(keys[1..], key));
      }
    }
  }

  lemma WithoutCons(first: string, rest: seq<string>, key: string)
    ensures Without([first] + rest, key) == (if first == key then [] else [first]) + Without(rest, key)
  {
    assert ([first] + rest)[1..] == rest;
  }

  lemma ThreeParts(a: seq<string>, b: seq<string>, c: seq<string>)
    ensures (a + b) + c == a + (b + c)
  {
  }

  lemma {:induction false} WithoutSplits(a: seq<string>, b: seq<string>, key: string)
    ensures Without(a + b, key) == Without(a, key) + Without(b, key)
  {
    if a == [] {
      assert a + b == b;
    } else {
      var first, rest := a[0], a[1..];
      WithoutSplits(rest, b, key);
      WithoutCons(first, rest + b, key);
      WithoutCons(first, rest, key);
      ThreeParts([first], rest, b);
      assert a == [first] + rest;
      ThreeParts(if first == key then [] else [first], Without(rest, key), Without(b, key));
    }
  }

  lemma {:induction false} RecentIsDistinct(history: seq<string>)
    ensures Distinct(Recent(history))
    ensures forall k :: k in Recent(history) <==> k in history
  {
    if history != [] {
      var init := history[..|history| - 1];
      RecentIsDistinct(init);
      WithoutDistinct(Recent(init), history[|history| - 1]);
      assert history == init + [history[|history| - 1]];
      var rest := Without(Recent(init), history[|history| - 1]);
      assert Recent(history) == rest + [history[|history| - 1]];
      DistinctSnoc(rest, history[|history| - 1]);
    }
  }

  lemma DistinctSnoc(init: seq<string>, key: string)
    requires Distinct(init) && key !in init
    ensures Distinct(init + [key])
  {
  }

  /** Where a key was last used. */
  function LastUse(history: seq<string>, key: string): (i: nat)
    requires key in history
    ensures i < |history| && history[i] == key && key !in history[i + 1..]
  {
    var last := |history| - 1;
    if history[last] == key then last
    else
      var i := LastUse(history[..last], key);
      assert history[i + 1..] == history[..last][i + 1..] + [history[last]];
      i
  }

  lemma {:induction false} WithoutKeepsOrder(keys: seq<string>, key: string, i: nat, j: nat) returns (m: nat, n: nat)
    requires i < j < |Without(keys, key)|
    ensures m < n < |keys| && keys[m] == Without(keys, key)[i] && keys[n] == Without(keys, key)[j]
  {
    if keys[0] == key {
      m, n := WithoutKeepsOrder(keys[1..], key, i, j);
      m, n := m + 1, n + 1;
    } else if i == 0 {
      m := 0;
      WithoutHas(keys[1..], key);
      assert Without(keys, key)[j] in Without(keys[1..], key);
      n :| 0 < n < |keys| && keys[n] == Without(keys, key)[j];
    } else {
      m, n := WithoutKeepsOrder(keys[1..], key, i - 1, j - 1);
      m, n := m + 1, n + 1;
    }
  }

  /** `Recent` is indeed in the order of last use. */
  lemma {:induction false} RecentIsByLastUse(history: seq<string>, i: nat, j: nat)
    requires i < j < |Recent(history)|
    ensures Recent(history)[i] in history && Recent(history)[j] in history
    ensures LastUse(history, Recent(history)[i]) < LastUse(history, Recent(history)[j])
  {
    RecentIsDistinct(history);
    var last := |history| - 1;
    var init := history[..last];
    RecentIsDistinct(init);
    assert Recent(history)[i] in Recent(history) && Recent(history)[j] in Recent(history);
    WithoutHas(Recent(init), history[last]);
    if j < |Recent(history)| - 1 {
      var m, n := WithoutKeepsOrder(Recent(init), history[last], i, j);
      RecentIsByLastUse(init, m, n);
    }
  }

  /** The pool's keys are the last distinct keys of the history, as many as fit, by last use. */
  lemma {:induction false} PoolHoldsTheMostRecent(history: seq<string>, maxSize: nat)
    requires maxSize > 0
    ensures Kept(history, maxSize) == Tail(Recent(history), maxSize)
  {
    if history != [] {
      var init, key := history[..|history| - 1], history[|history| - 1];
      PoolHoldsTheMostRecent(init, maxSize);
      RecentIsDistinct(init);
      TouchedTail(Recent(init), maxSize, key);
    }
  }

  lemma TailOfSum(a: seq<string>, b: seq<string>, n: nat)
    requires |b| >= n
    ensures Tail(a + b, n) == Tail(b, n)
  {
  }

  lemma TouchedUsed(head: seq<string>, tail: seq<string>, maxSize: nat, key: string)
    requires maxSize > 0 && Distinct(head + tail) && key in tail
    requires |tail| == maxSize || (head == [] && |tail| <= maxSize)
    ensures Without(tail, key) + [key] == Tail(Without(head + tail, key) + [key], maxSize)
  {
    WithoutSplits(head, tail, key);
    UsedInTail(head, tail, key);
    WithoutDistinct(tail, key);
    assert Without(head + tail, key) + [key] == head + (Without(tail, key) + [key]);
  }

  lemma TouchedUnused(head: seq<string>, tail: seq<string>, maxSize: nat, key: string)
    requires maxSize > 0 && key !in tail
    requires |tail| == maxSize || (head == [] && |tail| <= maxSize)
    ensures Evicted(tail, maxSize) + [key] == Tail(Without(head + tail, key) + [key], maxSize)
  {
    WithoutSplits(head, tail, key);
    WithoutAbsent(tail, key);
    assert Without(head + tail, key) + [key] == Without(head, key) + (tail + [key]);
    if |tail| == maxSize {
      TailOfSum(Without(head, key), tail + [key], maxSize);
    }
  }

  lemma TouchedTail(keys: seq<string>, maxSize: nat, key: string)
    requires maxSize > 0 && Distinct(keys)
    ensures Touched(Tail(keys, maxSize), maxSize, key) == Tail(Without(keys, key) + [key], maxSize)
  {
    var tail := Tail(keys, maxSize);
    var head := keys[..|keys| - |tail|];
    assert keys == head + tail;
    if key in tail {
      TouchedUsed(head, tail, maxSize, key);
    } else {
      TouchedUnused(head, tail, maxSize, key);
    }
  }

  lemma UsedInTail(head: seq<string>, tail: seq<string>, key: string)
    requires Distinct(head + tail) && key in tail
    ensures Without(head, key) == head && Distinct(tail)
  {
    var n :| 0 <= n < |tail| && tail[n] == key;
    forall i | 0 <= i < |head| ensures head[i] != key {
      assert (head + tail)[i] != (head + tail)[|head| + n];
    }
    WithoutAbsent(head, key);
    forall i, j | 0 <= i < j < |tail| ensures tail[i] != tail[j] {
      assert (head + tail)[|head| + i] != (head + tail)[|head| + j];
    }
  }

  // ---------------------------------------------------------------------------
  // The pool
  // ---------------------------------------------------------------------------

  ghost predicate Serves(conns: map<string, Handle>, h: Handle) {
    exists k :: k in conns && conns[k] == h
  }

  function HandlesOf(keys: seq<string>, conns: map<string, Handle>): seq<Handle>
    requires forall k :: k in keys ==> k in conns
  {
    seq(|keys|, i requires 0 <= i < |keys| => conns[keys[i]])
  }

  lemma HandlesFromFirst(keys: seq<string>, conns: map<string, Handle>)
    requires keys != [] && Distinct(keys) && forall k :: k in keys ==> k in conns
    ensures forall k :: k in keys[1..] ==> k in conns - {keys[0]}
    ensures HandlesOf(keys, conns) == [conns[keys[0]]] + HandlesOf(keys[1..], conns - {keys[0]})
  {
    assert forall i :: 1 <= i < |keys| ==> keys[i] != keys[0];
  }

  class ConnectionPool {
    const maxSize: int
    /** The pool's keys in order, and their connections. */
    var keys: seq<string>
    var conns: map<string, Handle>
    /** Every connection that is open, and the closed ones in the order they were closed. */
    var open: set<Handle>
    var closed: seq<Handle>
    var nextHandle: Handle
    /** Connections whose setup failed after they were opened. */
    ghost var leaked: set<Handle>
    /** The gets that answered, and whether one failed to connect. */
    ghost var history: seq<string>
    ghost var failed: bool

    /** The open connections are just the pooled ones and those whose setup failed. */
    ghost predicate Pooled()
      reads this
    {
      && Distinct(keys) && |keys| <= (if maxSize < 0 then 0 else maxSize)
      && (forall k :: k in keys <==> k in conns)
      && (forall k, l :: k in conns && l in conns && k != l ==> conns[k] != conns[l])
      && (forall h :: h in open <==> h in leaked || Serves(conns, h))
      && (forall k :: k in conns ==> conns[k] !in leaked)
      && (forall h :: h in open || h in closed ==> h < nextHandle)
      && (forall h :: h in closed ==> h !in open) && Distinct(closed)
    }

    ghost predicate Valid()
      reads this
    {
      Pooled() && (maxSize > 0 && !failed ==> keys == Kept(history, maxSize))
    }

    constructor (maxSize: int)
      ensures Valid() && this.maxSize == maxSize && history == [] && !failed && leaked == {} && closed == []
      ensures keys == [] && nextHandle == 0
    {
      this.maxSize := maxSize;
      keys, conns, open, closed, nextHandle := [], map[], {}, [], 0;
      leaked, history, failed := {}, [], false;
    }

    /** Take the least recently used connection out and close it; an error in closing is only logged. */
    method Evict()
      requires Pooled() && keys != []
      modifies this`keys, this`conns, this`open, this`closed
      ensures Pooled()
      ensures keys == old(keys)[1..] && conns == old(conns) - {old(keys)[0]}
      ensures closed == old(closed) + [old(conns)[old(keys)[0]]]
    {
      var key := keys[0];
      keys := keys[1..];
      closed := closed + [conns[key]];
      open := open - {conns[key]};
      conns := conns - {key};
      forall h ensures h in open <==> h in leaked || Serves(conns, h) {
        if Serves(old(conns), h) {
          var k :| k in old(conns) && old(conns)[k] == h;
          assert k != key ==> k in conns && conns[k] == h;
        }
      }
    }

    /** Open a connection and pool it. */
    method Connect(key: string, connecting: Connecting) returns (r: Result<Handle, Error>)
      requires Pooled() && key !in keys && |keys| < maxSize
      modifies this`keys, this`conns, this`open, this`nextHandle, this`leaked
      ensures Pooled()
      ensures r.Ok? <==> connecting.Opens?
      ensures r.Ok? ==> keys == old(keys) + [key] && conns == old(conns)[key := r.value] && leaked == old(leaked)
      ensures r.Err? ==> keys == old(keys) && conns == old(conns)
      ensures connecting.CannotOpen? ==> leaked == old(leaked)
      ensures connecting.SetupFails? ==> leaked == old(leaked) + {old(nextHandle)} && old(nextHandle) !in old(leaked)
    {
      if connecting.CannotOpen? {
        return Err(ConnectFailed);
      }
      var handle := nextHandle;
      nextHandle, open := nextHandle + 1, open + {handle};
      if connecting.SetupFails? {
        leaked := leaked + {handle};
        return Err(ConnectFailed);
      }
      keys, conns := keys + [key], conns[key := handle];
      forall h ensures h in open <==> h in leaked || Serves(conns, h) {
        if Serves(old(conns), h) {
          var k :| k in old(conns) && old(conns)[k] == h;
          assert k in conns && conns[k] == h;
        }
        assert conns[key] == handle;
      }
      r := Ok(handle);
    }

    /** Evict while the pool is full; a pool that may hold nothing fails at that. */
    method MakeRoom() returns (ok: bool)
      requires Pooled()
      modifies this`keys, this`conns, this`open, this`closed
      ensures Pooled()
      ensures ok <==> maxSize > 0
      ensures ok ==> keys == Evicted(old(keys), maxSize)
      ensures !ok ==> keys == []
      ensures conns.Keys <= old(conns).Keys && forall k :: k in conns ==> conns[k] == old(conns)[k]
      ensures closed == old(closed) + old(Closing())
    {
      assert conns == old(conns) && closed == old(closed);
      while |keys| >= maxSize
        invariant Pooled()
        invariant (keys == old(keys) && conns == old(conns) && closed == old(closed)) ||
          (maxSize > 0 && keys == Evicted(old(keys), maxSize) && closed == old(closed) + old(Closing())
           && conns.Keys <= old(conns).Keys && forall k :: k in conns ==> conns[k] == old(conns)[k])
        decreases |keys|
      {
        if keys == [] {
          return false;
        }
        Evict();
      }
      ok := true;
    }

    /** What making room closes: at most one connection, the least recently used. */
    ghost function Closing(): seq<Handle>
      requires Pooled()
      reads this
    {
      if keys != [] && |keys| == maxSize then [conns[keys[0]]] else []
    }

    /** Take note of a get that answered. */
    ghost method Answered(key: string, before: seq<string>)
      requires maxSize > 0 ==> keys == Touched(before, maxSize, key)
      requires maxSize > 0 && !failed ==> before == Kept(history, maxSize)
      modifies this`history
      ensures history == old(history) + [key]
      ensures maxSize > 0 && !failed ==> keys == Kept(history, maxSize) == Tail(Recent(history), maxSize)
    {
      history := history + [key];
      assert history[..|history| - 1] == old(history);
      if maxSize > 0 {
        PoolHoldsTheMostRecent(history, maxSize);
      }
    }

    /** Move a pooled key to the back. */
    method Touch(key: string)
      requires Valid() && key in keys
      modifies this`keys, this`history
      ensures Valid()
      ensures history == old(history) + [key]
      ensures maxSize > 0 && !failed ==> keys == Tail(Recent(history), maxSize)
    {
      ghost var before := keys;
      WithoutDistinct(keys, key);
      keys := Without(keys, key) + [key];
      Answered(key, before);
    }

    /** Make room and connect. */
    method Open(key: string, connecting: Connecting) returns (r: Result<Handle, Error>)
      requires Valid() && key !in keys
      modifies this
      ensures Valid()
      ensures r.Ok? <==> maxSize > 0 && connecting.Opens?
      ensures r.Ok? ==> key in conns && conns[key] == r.value && history == old(history) + [key] && failed == old(failed)
      ensures r.Ok? && !failed ==> keys == Tail(Recent(history), maxSize)
      ensures forall k :: k in conns && k in old(conns) ==> conns[k] == old(conns)[k]
      ensures closed == old(closed) + old(Closing())
      ensures leaked == old(leaked) + if maxSize > 0 && connecting.SetupFails? then {old(nextHandle)} else {}
      ensures r.Err? ==> keys == if maxSize > 0 then Evicted(old(keys), maxSize) else []
    {
      ghost var before := keys;
      var ok := MakeRoom();
      if !ok {
        return Err(EmptyPool);
      }
      r := Connect(key, connecting);
      if r.Err? {
        failed := true;
      } else {
        Answered(key, before);
      }
    }

    /** The connection for a key: the pooled one, moved to the back, or a new one once there is room. */
    method Get(key: string, connecting: Connecting) returns (r: Result<Handle, Error>)
      requires Valid()
      modifies this
      ensures Valid()
      ensures r.Ok? <==> key in old(keys) || (maxSize > 0 && connecting.Opens?)
      ensures r.Ok? ==> key in conns && conns[key] == r.value && history == old(history) + [key] && failed == old(failed)
      ensures r.Ok? && !failed ==> keys == Tail(Recent(history), maxSize)
      ensures forall k :: k in conns && k in old(conns) ==> conns[k] == old(conns)[k]
      ensures closed == old(closed) + if key in old(keys) then [] else old(Closing())
      ensures leaked ==
        old(leaked) + if key !in old(keys) && maxSize > 0 && connecting.SetupFails? then {old(nextHandle)} else {}
      ensures r.Err? ==> keys == if maxSize > 0 then Evicted(old(keys), maxSize) else []
    {
      if key in conns {
        Touch(key);
        r := Ok(conns[key]);
      } else {
        r := Open(key, connecting);
      }
    }

    lemma EmptyPoolIsOnlyLeaks()
      requires Pooled() && keys == []
      ensures open == leaked
    {
      forall h ensures h in open <==> h in leaked {
        assert !Serves(conns, h);
      }
    }

    /** What is pooled still goes to the closed ones in order. */
    method EvictFirst()
      requires Pooled() && keys != []
      modifies this`keys, this`conns, this`open, this`closed
      ensures Pooled() && |keys| < |old(keys)|
      ensures closed + HandlesOf(keys, conns) == old(closed) + HandlesOf(old(keys), old(conns))
    {
      HandlesFromFirst(keys, conns);
      Evict();
    }

    /** Close everything that is pooled. */
    method CloseAll()
      requires Valid()
      modifies this
      ensures Valid() && keys == [] && open == leaked == old(leaked)
      ensures closed == old(closed) + HandlesOf(old(keys), old(conns))
      ensures history == [] && !failed
    {
      while keys != []
        invariant Pooled() && leaked == old(leaked)
        invariant closed + HandlesOf(keys, conns) == old(closed) + HandlesOf(old(keys), old(conns))
        decreases |keys|
      {
        EvictFirst();
      }
      EmptyPoolIsOnlyLeaks();
      history, failed := [], false;
    }
  }

  /** For instance one get whose setup fails: a connection is open that the pool does not know, and
      closing all does not close it. */
  method OneFailedSetup() returns (pool: ConnectionPool)
    ensures fresh(pool) && pool.Valid() && pool.keys == [] && pool.open == {0} && pool.closed == []
  {
    pool := new ConnectionPool(10);
    var r := pool.Get("graph.db", SetupFails);
    pool.CloseAll();
  }
}
