/** The thread lock as the object whose methods threads call: each method is one critical section
    and refines the corresponding step of the state machine. */
module RWThreadLock {
  import opened Wrappers
  import T = ThreadLock

  class Waiter {
    const tid: T.Tid
    const exclusive: bool
    var granted: bool
    ghost const info: T.Waiter

    constructor (tid: T.Tid, exclusive: bool, ghost info: T.Waiter)
      ensures this.tid == tid && this.exclusive == exclusive && !granted && this.info == info
    {
      this.tid, this.exclusive, this.granted, this.info := tid, exclusive, false, info;
    }
  }

  class RWThreadLock {
    var shared: map<T.Tid, int>
    var writerTid: Option<T.Tid>
    var writerCount: int
    var queue: seq<Waiter>
    var stacks: map<T.Tid, seq<bool>>
    /** The waiter each blocked thread holds in its own frame. */
    ghost var inside: map<T.Tid, Waiter>
    ghost var arrivals: nat
    ghost var grants: seq<T.Waiter>
    ghost var drops: set<nat>

    ghost function State(): T.Lock
      reads this, inside.Values
    {
      T.Lock(shared, writerTid, writerCount, Infos(queue), stacks,
             map t | t in inside :: T.Wait(inside[t].info, inside[t].granted), arrivals, grants, drops)
    }

    static ghost function Infos(q: seq<Waiter>): seq<T.Waiter> {
      seq(|q|, i requires 0 <= i < |q| => q[i].info)
    }

    /** `list.remove`: drop the first entry that is this very object. */
    static function Remove(q: seq<Waiter>, w: Waiter): (r: seq<Waiter>)
      ensures forall c :: c in r ==> c in q
    {
      if q == [] then []
      else if q[0] == w then q[1..]
      else [q[0]] + Remove(q[1..], w)
    }

    static lemma {:induction false} InfosOfRemove(q: seq<Waiter>, w: Waiter)
      requires forall c :: c in q && c.info == w.info ==> c == w
      ensures Infos(Remove(q, w)) == T.Without(Infos(q), w.info)
    {
      if q != [] {
        assert Infos(q) == [q[0].info] + Infos(q[1..]);
        assert Infos(q)[1..] == Infos(q[1..]);
        if q[0] != w {
          InfosOfRemove(q[1..], w);
        }
      }
    }

    static lemma {:induction false} RemoveOnce(q: seq<Waiter>, w: Waiter)
      requires forall i, j :: 0 <= i < j < |q| ==> q[i] != q[j]
      ensures w !in Remove(q, w)
    {
      if q != [] && q[0] != w {
        RemoveOnce(q[1..], w);
      }
    }

    /** Waiter objects and what threads remember of them agree. */
    ghost predicate Linked()
      reads this
    {
      && (forall c :: c in queue ==> c.tid in inside && inside[c.tid] == c)
      && (forall t :: t in inside ==>
            && inside[t].tid == t && inside[t].info.tid == t
            && inside[t].exclusive == inside[t].info.exclusive)
    }

    ghost predicate Valid()
      reads this, inside.Values
    {
      Linked() && T.Inv(State())
    }

    constructor ()
      ensures Valid() && State() == T.INIT
    {
      shared, writerTid, writerCount, queue, stacks := map[], None, 0, [], map[];
      inside, arrivals, grants, drops := map[], 0, [], {};
      new;
      forall t ensures T.Accounted(State(), t) {}
    }

    /** Charge a thread for one hold. */
    method Charge(tid: T.Tid, exclusive: bool)
      modifies this`shared, this`writerTid, this`writerCount
      ensures State() == T.Charge(old(State()), tid, exclusive)
    {
      if exclusive {
        writerTid := Some(tid);
        writerCount := writerCount + 1;
      } else {
        shared := shared[tid := (if tid in shared then shared[tid] else 0) + 1];
      }
    }

    /** Take the head off the queue and tell it. */
    method PopHead()
      requires Linked() && queue != []
      modifies this`queue, this`grants, queue[0]
      ensures Linked() && queue == old(queue)[1..]
      ensures var s := old(State());
        s.queue != [] && s.queue[0].tid == old(queue[0].tid) && s.queue[0].exclusive == old(queue[0].exclusive) &&
        State() == s.(queue := s.queue[1..], inside := s.inside[s.queue[0].tid := T.Wait(s.queue[0], true)],
                      grants := s.grants + [s.queue[0]])
    {
      ghost var before := State();
      var head := queue[0];
      assert before.queue[0] == head.info && head.info.tid == head.tid;
      grants := grants + [head.info];
      queue := queue[1..];
      head.granted := true;
      assert State().queue == before.queue[1..];
      assert forall t :: t in inside && t != head.tid ==> inside[t] != head;
      assert State().inside == before.inside[head.tid := T.Wait(head.info, true)];
    }

    method GrantHead()
      requires Linked() && queue != []
      modifies this`shared, this`writerTid, this`writerCount, this`queue, this`grants, queue[0]
      ensures Linked() && State() == T.GrantHead(old(State()))
      ensures queue == old(queue)[1..]
    {
      Charge(queue[0].tid, queue[0].exclusive);
      PopHead();
    }

    /** Grant what the head of the queue is entitled to. */
    method Dispatch()
      requires Linked()
      modifies this`shared, this`writerTid, this`writerCount, this`queue, this`grants, (set c | c in queue)
      ensures Linked() && State() == T.Dispatch(old(State()))
      ensures forall c :: c in queue ==> c in old(queue)
    {
      while queue != []
        invariant Linked()
        invariant T.Dispatch(State()) == T.Dispatch(old(State()))
        invariant forall c :: c in queue ==> c in old(queue)
        decreases |queue|
      {
        var head := queue[0];
        assert State().queue[0] == head.info && head.info.tid == head.tid;
        // A writer needs the field to itself, except for its own upgrade.
        var others := set t | t in shared && t != head.tid;
        if writerTid.Some? || (head.exclusive && others != {}) {
          assert others != {} ==> exists t :: t in others;
          return;
        }
        assert forall t :: t in shared && t != head.tid ==> t in others;
        GrantHead();
      }
    }

    /** Nesting on a hold the thread already has never queues. */
    method Take(tid: T.Tid, exclusive: bool)
      modifies this`shared, this`writerTid, this`writerCount, this`stacks
      ensures State() == T.Take(old(State()), tid, exclusive)
    {
      Charge(tid, exclusive);
      stacks := stacks[tid := (if tid in stacks then stacks[tid] else []) + [exclusive]];
    }

    /** Join the queue: in front for an upgrade, since the thread still holds what those ahead wait for. */
    method Enqueue(tid: T.Tid, exclusive: bool) returns (waiter: Waiter)
      requires Linked() && tid !in inside
      modifies this`queue, this`inside, this`arrivals
      ensures fresh(waiter) && waiter.tid == tid
      ensures Linked() && State() == T.Enqueue(old(State()), tid, exclusive)
      ensures inside == old(inside)[tid := waiter]
      ensures forall c :: c in queue ==> c == waiter || c in old(queue)
    {
      ghost var before, w := State(), T.Arriving(State(), tid, exclusive);
      waiter := new Waiter(tid, exclusive, w);
      var upgrading := exclusive && tid in shared;
      assert Infos([waiter] + queue) == [w] + before.queue;
      assert Infos(queue + [waiter]) == before.queue + [w];
      queue := if upgrading then [waiter] + queue else queue + [waiter];
      inside := inside[tid := waiter];
      arrivals := arrivals + 1;
      assert State().inside == before.inside[tid := T.Wait(w, false)];
    }

    /** Give up a queued place, and let whoever it blocked move up. */
    method Drop(waiter: Waiter)
      requires Linked() && waiter.tid in inside && inside[waiter.tid] == waiter && waiter.info in State().queue
      requires T.Ordered(State().queue)
      modifies this`shared, this`writerTid, this`writerCount, this`queue, this`grants, this`inside, this`drops, (set c | c in queue)
      ensures Linked() && State() == T.Drop(old(State()), waiter.tid)
    {
      ghost var before, queued := State(), queue;
      forall i, j | 0 <= i < j < |queue| ensures queue[i] != queue[j] {
        assert T.Before(before.queue[i], before.queue[j]);
      }
      InfosOfRemove(queue, waiter);
      RemoveOnce(queue, waiter);
      queue := Remove(queue, waiter);
      inside := inside - {waiter.tid};
      drops := drops + {waiter.info.id};
      assert State().inside == before.inside - {waiter.tid};
      assert forall c :: c in queue ==> c in queued && c != waiter;
      Dispatch();
    }

    /** One pass over the wait loop of `acquire`, for the thread that owns the waiter. */
    method Settle(waiter: Waiter, giveUp: bool) returns (outcome: T.Outcome)
      requires Valid() && waiter.tid in inside && inside[waiter.tid] == waiter
      modifies this, (set c | c in queue)
      ensures Valid() && (State(), outcome) == T.Settle(old(State()), waiter.tid, giveUp)
      ensures outcome.Waiting? ==> waiter.tid in inside && inside[waiter.tid] == waiter
    {
      ghost var before := State();
      T.SettleKeepsInv(before, waiter.tid, giveUp);
      if waiter.granted {
        forall c | c in queue ensures c.tid != waiter.tid {
          var i :| 0 <= i < |queue| && queue[i] == c;
          assert before.queue[i] == c.info && T.QueuedProperly(before, c.info);
        }
        // Dispatching already accounted for the hold; record the mode for `Release`.
        stacks := stacks[waiter.tid := (if waiter.tid in stacks then stacks[waiter.tid] else []) + [waiter.exclusive]];
        inside := inside - {waiter.tid};
        assert State().inside == before.inside - {waiter.tid};
        return T.Granted;
      }
      if giveUp {
        assert T.WaitsProperly(before, waiter.tid);
        Drop(waiter);
        return T.Refused;
      }
      return T.Waiting;
    }

    /** Queue a request and serve whoever is entitled, possibly this very request. */
    method Queue(tid: T.Tid, exclusive: bool) returns (waiter: Waiter)
      requires Linked() && tid !in inside
      modifies this, (set c | c in queue)
      ensures Linked() && State() == T.Dispatch(T.Enqueue(old(State()), tid, exclusive))
      ensures waiter.tid == tid && tid in inside && inside[tid] == waiter
      ensures fresh((set c | c in queue) - old(set c | c in queue))
    {
      waiter := Enqueue(tid, exclusive);
      T.DispatchKeepsInside(State(), tid);
      Dispatch();
    }

    /** `acquire` up to its first wait; the caller keeps the waiter to come back with. */
    method Acquire(tid: T.Tid, exclusive: bool, giveUp: bool) returns (outcome: T.Outcome, waiter: Waiter?)
      requires Valid() && tid !in inside
      modifies this, (set c | c in queue)
      ensures Valid() && (State(), outcome) == T.Acquire(old(State()), tid, exclusive, giveUp)
      ensures outcome.Waiting? ==> waiter != null && waiter.tid == tid && tid in inside && inside[tid] == waiter
    {
      if writerTid == Some(tid) || (tid in shared && !exclusive) {
        T.TakeKeepsInv(State(), tid, exclusive);
        Take(tid, exclusive);
        return T.Granted, null;
      }
      T.QueueKeepsInv(State(), tid, exclusive);
      waiter := Queue(tid, exclusive);
      outcome := Settle(waiter, giveUp);
    }

    method Uncharge(tid: T.Tid)
      requires tid in stacks && stacks[tid] != []
      modifies this`stacks, this`shared, this`writerTid, this`writerCount
      ensures State() == T.Uncharge(old(State()), tid)
    {
      var stack := stacks[tid];
      var exclusive, rest := stack[|stack| - 1], stack[..|stack| - 1];
      stacks := if rest == [] then stacks - {tid} else stacks[tid := rest];
      Discharge(tid, exclusive);
    }

    /** Take one hold off the counts. */
    method Discharge(tid: T.Tid, exclusive: bool)
      modifies this`shared, this`writerTid, this`writerCount
      ensures State() == T.Discharge(old(State()), tid, exclusive)
    {
      if exclusive {
        writerCount := writerCount - 1;
        if writerCount <= 0 {
          writerCount, writerTid := 0, None;
        }
      } else {
        var remaining := (if tid in shared then shared[tid] else 0) - 1;
        shared := if remaining > 0 then shared[tid := remaining] else shared - {tid};
      }
    }

    /** Undo the calling thread's newest acquisition; false is the error for a thread that holds nothing. */
    method Release(tid: T.Tid) returns (held: bool)
      requires Valid() && tid !in inside
      modifies this, (set c | c in queue)
      ensures Valid() && held == T.Release(old(State()), tid).Some?
      ensures State() == if held then T.Release(old(State()), tid).value else old(State())
    {
      if tid !in stacks || stacks[tid] == [] {
        return false;
      }
      T.ReleaseKeepsInv(State(), tid);
      Uncharge(tid);
      Dispatch();
      return true;
    }
  }
}
