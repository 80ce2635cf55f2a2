/** The reader/writer lock that keeps the threads of one process apart, as a state
    machine: one step per critical section of the condition variable.  A lock value also
    records, for every thread blocked inside `acquire`, the waiter that thread waits on. */
module ThreadLock {
  import opened Wrappers

  type Tid = int

  /** One queued request.  `id` is the order of arrival and `upgrade` says that the thread
      already held a shared lock when it asked; the algorithm itself reads neither. */
  datatype Waiter = Waiter(id: nat, tid: Tid, exclusive: bool, upgrade: bool)

  /** What a thread blocked inside `acquire` sees of its own waiter. */
  datatype Wait = Wait(waiter: Waiter, granted: bool)

  datatype Outcome = Granted | Refused | Waiting

  /** `arrivals`, `grants` and `drops` are history: no step reads them. */
  datatype Lock = Lock(
    shared: map<Tid, int>,
    writer: Option<Tid>,
    writerCount: int,
    queue: seq<Waiter>,
    stacks: map<Tid, seq<bool>>,
    inside: map<Tid, Wait>,
    arrivals: nat,
    grants: seq<Waiter>,
    drops: set<nat>)

  const INIT: Lock := Lock(map[], None, 0, [], map[], map[], 0, [], {})

  function Shared(s: Lock, t: Tid): int {
    if t in s.shared then s.shared[t] else 0
  }

  function Stack(s: Lock, t: Tid): seq<bool> {
    if t in s.stacks then s.stacks[t] else []
  }

  /** Exclusive holds of a thread: only the writer has any. */
  function WriterHolds(s: Lock, t: Tid): int {
    if s.writer == Some(t) then s.writerCount else 0
  }

  predicate Holds(s: Lock, t: Tid) {
    Shared(s, t) > 0 || WriterHolds(s, t) > 0
  }

  // ---------------------------------------------------------------------------
  // Steps
  // ---------------------------------------------------------------------------

  predicate Grantable(s: Lock, w: Waiter) {
    && s.writer.None?
    && (w.exclusive ==> forall t :: t in s.shared ==> t == w.tid)
  }

  function Charge(s: Lock, t: Tid, exclusive: bool): Lock {
    if exclusive then s.(writer := Some(t), writerCount := s.writerCount + 1)
    else s.(shared := s.shared[t := Shared(s, t) + 1])
  }

  function Push(s: Lock, t: Tid, exclusive: bool): Lock {
    s.(stacks := s.stacks[t := Stack(s, t) + [exclusive]])
  }

  function Take(s: Lock, t: Tid, exclusive: bool): Lock {
    Push(Charge(s, t, exclusive), t, exclusive)
  }

  /** Charge the head of the queue for its hold and mark its waiter granted. */
  function GrantHead(s: Lock): Lock
    requires s.queue != []
  {
    var head := s.queue[0];
    Charge(s, head.tid, head.exclusive).(
      queue := s.queue[1..],
      inside := s.inside[head.tid := Wait(head, true)],
      grants := s.grants + [head])
  }

  function Dispatch(s: Lock): Lock
    decreases |s.queue|
  {
    if s.queue == [] || !Grantable(s, s.queue[0]) then s
    else Dispatch(GrantHead(s))
  }

  predicate Nested(s: Lock, t: Tid, exclusive: bool) {
    s.writer == Some(t) || (t in s.shared && !exclusive)
  }

  function Arriving(s: Lock, t: Tid, exclusive: bool): Waiter {
    Waiter(s.arrivals, t, exclusive, exclusive && t in s.shared)
  }

  function Enqueue(s: Lock, t: Tid, exclusive: bool): Lock {
    var w := Arriving(s, t, exclusive);
    s.(queue := if w.upgrade then [w] + s.queue else s.queue + [w],
       inside := s.inside[t := Wait(w, false)],
       arrivals := s.arrivals + 1)
  }

  function Without(q: seq<Waiter>, w: Waiter): (r: seq<Waiter>) {
    if q == [] then []
    else if q[0] == w then q[1..]
    else [q[0]] + Without(q[1..], w)
  }

  function Leave(s: Lock, t: Tid): Lock {
    s.(inside := s.inside - {t})
  }

  /** Remove the waiter of a thread that gives up from the queue, before dispatching. */
  function Withdraw(s: Lock, t: Tid): Lock
    requires t in s.inside
  {
    var w := s.inside[t].waiter;
    Leave(s, t).(queue := Without(s.queue, w), drops := s.drops + {w.id})
  }

  /** Giving up: a waiter that is no longer queued is left alone. */
  function Drop(s: Lock, t: Tid): Lock
    requires t in s.inside
  {
    if s.inside[t].waiter in s.queue then Dispatch(Withdraw(s, t)) else Leave(s, t)
  }

  /** One pass over the wait loop of `acquire`. */
  function Settle(s: Lock, t: Tid, giveUp: bool): (Lock, Outcome)
    requires t in s.inside
  {
    if s.inside[t].granted then (Push(Leave(s, t), t, s.inside[t].waiter.exclusive), Granted)
    else if giveUp then (Drop(s, t), Refused)
    else (s, Waiting)
  }

  lemma DispatchKeepsInside(s: Lock, t: Tid)
    requires t in s.inside
    ensures t in Dispatch(s).inside
    decreases |s.queue|
  {
    if s.queue != [] && Grantable(s, s.queue[0]) {
      DispatchKeepsInside(GrantHead(s), t);
    }
  }

  /** `acquire` up to its first wait.  `giveUp` is "not blocking, or already past the deadline". */
  function Acquire(s: Lock, t: Tid, exclusive: bool, giveUp: bool): (Lock, Outcome)
    requires t !in s.inside
  {
    if Nested(s, t, exclusive) then (Take(s, t, exclusive), Granted)
    else
      var queued := Enqueue(s, t, exclusive);
      DispatchKeepsInside(queued, t);
      Settle(Dispatch(queued), t, giveUp)
  }

  function Pop(s: Lock, t: Tid): Lock
    requires Stack(s, t) != []
  {
    var rest := Stack(s, t)[..|Stack(s, t)| - 1];
    s.(stacks := if rest == [] then s.stacks - {t} else s.stacks[t := rest])
  }

  function Discharge(s: Lock, t: Tid, exclusive: bool): Lock {
    if exclusive then
      if s.writerCount - 1 <= 0 then s.(writerCount := 0, writer := None)
      else s.(writerCount := s.writerCount - 1)
    else if Shared(s, t) - 1 > 0 then s.(shared := s.shared[t := Shared(s, t) - 1])
    else s.(shared := s.shared - {t})
  }

  /** Undo the newest acquisition of a thread, before dispatching. */
  function Uncharge(s: Lock, t: Tid): Lock
    requires Stack(s, t) != []
  {
    Discharge(Pop(s, t), t, Stack(s, t)[|Stack(s, t)| - 1])
  }

  /** `release`; None is the RuntimeError for a thread that holds nothing. */
  function Release(s: Lock, t: Tid): Option<Lock> {
    if Stack(s, t) == [] then None else Some(Dispatch(Uncharge(s, t)))
  }

  // ---------------------------------------------------------------------------
  // Runs
  // ---------------------------------------------------------------------------

  datatype Step =
    | AcquireStep(tid: Tid, exclusive: bool, giveUp: bool)
    | WakeStep(tid: Tid, expired: bool)
    | ReleaseStep(tid: Tid)

  /** A thread is either inside `acquire`, and can only wake up there, or outside it. */
  predicate Enabled(s: Lock, step: Step) {
    match step
    case AcquireStep(t, _, _) => t !in s.inside
    case WakeStep(t, _) => t in s.inside
    case ReleaseStep(t) => t !in s.inside
  }

  function Apply(s: Lock, step: Step): Lock
    requires Enabled(s, step)
  {
    match step
    case AcquireStep(t, exclusive, giveUp) => Acquire(s, t, exclusive, giveUp).0
    case WakeStep(t, expired) => Settle(s, t, expired).0
    case ReleaseStep(t) => var r := Release(s, t); if r.Some? then r.value else s
  }

  /** The lock after a run; steps that are not enabled do not happen. */
  function Run(s: Lock, steps: seq<Step>): Lock
    decreases |steps|
  {
    if steps == [] then s
    else Run(if Enabled(s, steps[0]) then Apply(s, steps[0]) else s, steps[1..])
  }

  // ---------------------------------------------------------------------------
  // The invariant
  // ---------------------------------------------------------------------------

  /** 1 when the thread's waiter was granted in this mode but the thread has not recorded it yet. */
  function Unrecorded(s: Lock, t: Tid, exclusive: bool): int {
    if t in s.inside && s.inside[t].granted && s.inside[t].waiter.exclusive == exclusive then 1 else 0
  }

  /** The counts of a thread are exactly what its stack and its unrecorded grant say. */
  ghost predicate Accounted(s: Lock, t: Tid) {
    && Shared(s, t) == multiset(Stack(s, t))[false] + Unrecorded(s, t, false)
    && WriterHolds(s, t) == multiset(Stack(s, t))[true] + Unrecorded(s, t, true)
    && (t in s.shared ==> s.shared[t] > 0)
    && (t in s.stacks ==> s.stacks[t] != [])
  }

  ghost predicate Exclusion(s: Lock) {
    && (s.writer.None? ==> s.writerCount == 0)
    && (s.writer.Some? ==> s.writerCount > 0)
    && (s.writer.Some? ==> forall t :: t in s.shared ==> t == s.writer.value)
  }

  ghost predicate QueuedProperly(s: Lock, w: Waiter) {
    && w.tid in s.inside && s.inside[w.tid] == Wait(w, false)
    && s.writer != Some(w.tid)
    && w.upgrade == (w.exclusive && w.tid in s.shared)
    && (!w.exclusive ==> w.tid !in s.shared)
    && w.id < s.arrivals && w.id !in s.drops
  }

  ghost predicate WaitsProperly(s: Lock, t: Tid)
    requires t in s.inside
  {
    && s.inside[t].waiter.tid == t
    && (!s.inside[t].granted ==> s.inside[t].waiter in s.queue)
  }

  /** Upgraders first, everybody else in order of arrival. */
  ghost predicate Before(a: Waiter, b: Waiter) {
    && a.tid != b.tid && a.id != b.id
    && (b.upgrade ==> a.upgrade)
    && (!a.upgrade ==> a.id < b.id)
  }

  ghost predicate Ordered(q: seq<Waiter>) {
    forall i, j :: 0 <= i < j < |q| ==> Before(q[i], q[j])
  }

  /** Nobody who was not upgrading has been served before an earlier waiter, queued or granted. */
  ghost predicate Fair(s: Lock) {
    && (forall i, j :: 0 <= i < j < |s.grants| && !s.grants[i].upgrade ==> s.grants[i].id < s.grants[j].id)
    && (forall g, w :: g in s.grants && w in s.queue && !g.upgrade ==> g.id < w.id)
    && (forall g :: g in s.grants ==> g.id < s.arrivals)
    && (forall id :: id in s.drops ==> id < s.arrivals)
  }

  ghost predicate Arrived(s: Lock, id: nat) {
    || id in s.drops
    || (exists w :: w in s.queue && w.id == id)
    || (exists g :: g in s.grants && g.id == id)
  }

  ghost predicate Complete(s: Lock) {
    forall id: nat :: id < s.arrivals ==> Arrived(s, id)
  }

  /** Everything but "the head of the queue has to wait". */
  ghost predicate Consistent(s: Lock) {
    && (forall t :: Accounted(s, t))
    && Exclusion(s)
    && (forall w :: w in s.queue ==> QueuedProperly(s, w))
    && (forall t :: t in s.inside ==> WaitsProperly(s, t))
    && Ordered(s.queue)
    && Fair(s)
    && Complete(s)
  }

  ghost predicate HeadWaits(s: Lock) {
    s.queue != [] ==> !Grantable(s, s.queue[0])
  }

  ghost predicate Inv(s: Lock) {
    Consistent(s) && HeadWaits(s)
  }

  lemma SomeEntry(stack: seq<bool>)
    requires stack != []
    ensures multiset(stack)[true] + multiset(stack)[false] > 0
  {
    if stack[0] {
      assert true in multiset(stack);
    } else {
      assert false in multiset(stack);
    }
  }

  lemma GrantKeepsAccounts(s: Lock)
    requires Consistent(s) && s.queue != [] && Grantable(s, s.queue[0])
    ensures forall t :: Accounted(GrantHead(s), t)
    ensures Exclusion(GrantHead(s))
  {
    var w := s.queue[0];
    assert QueuedProperly(s, w);
    forall t ensures Accounted(GrantHead(s), t) {
      assert Accounted(s, t) && Accounted(s, w.tid);
    }
  }

  lemma GrantKeepsQueue(s: Lock)
    requires Consistent(s) && s.queue != [] && Grantable(s, s.queue[0])
    ensures forall w :: w in GrantHead(s).queue ==> QueuedProperly(GrantHead(s), w)
    ensures forall t :: t in GrantHead(s).inside ==> WaitsProperly(GrantHead(s), t)
    ensures Ordered(GrantHead(s).queue)
  {
    var s', head := GrantHead(s), s.queue[0];
    assert s.queue == [head] + s'.queue;
    assert QueuedProperly(s, head);
    HeadFirst(s.queue);
    forall w | w in s'.queue ensures QueuedProperly(s', w) {
      assert QueuedProperly(s, w);
    }
    forall t | t in s'.inside ensures WaitsProperly(s', t) {
      if t != head.tid {
        assert WaitsProperly(s, t);
      }
    }
  }

  lemma HeadFirst(q: seq<Waiter>)
    requires Ordered(q) && q != []
    ensures Ordered(q[1..])
    ensures forall w :: w in q[1..] ==> Before(q[0], w)
  {
    forall w | w in q[1..] ensures Before(q[0], w) {
      var i :| 0 <= i < |q[1..]| && q[1..][i] == w;
      assert q[i + 1] == w;
    }
  }

  lemma GrantKeepsFairness(s: Lock)
    requires Consistent(s) && s.queue != [] && Grantable(s, s.queue[0])
    ensures Fair(GrantHead(s))
  {
    var s', head := GrantHead(s), s.queue[0];
    assert s.queue == [head] + s'.queue;
    assert QueuedProperly(s, head);
    HeadFirst(s.queue);
  }

  lemma GrantKeepsArrivals(s: Lock)
    requires Consistent(s) && s.queue != [] && Grantable(s, s.queue[0])
    ensures Complete(GrantHead(s))
  {
    var s', head := GrantHead(s), s.queue[0];
    assert s.queue == [head] + s'.queue && head in s'.grants;
    forall id: nat | id < s'.arrivals ensures Arrived(s', id) {
      assert Arrived(s, id);
      if g :| g in s.grants && g.id == id {
        assert g in s'.grants;
      }
    }
  }

  /** Dispatching restores the whole invariant from its consistent part. */
  lemma {:induction false} DispatchSettles(s: Lock)
    requires Consistent(s)
    ensures Inv(Dispatch(s))
    decreases |s.queue|
  {
    if s.queue != [] && Grantable(s, s.queue[0]) {
      GrantKeepsAccounts(s);
      GrantKeepsQueue(s);
      GrantKeepsFairness(s);
      GrantKeepsArrivals(s);
      DispatchSettles(GrantHead(s));
    }
  }

  lemma EnqueueKeepsAccounts(s: Lock, t: Tid, exclusive: bool)
    requires Consistent(s) && t !in s.inside && !Nested(s, t, exclusive)
    ensures forall u :: Accounted(Enqueue(s, t, exclusive), u)
  {
    forall u ensures Accounted(Enqueue(s, t, exclusive), u) {
      assert Accounted(s, u);
    }
  }

  lemma EnqueueKeepsQueue(s: Lock, t: Tid, exclusive: bool)
    requires Consistent(s) && t !in s.inside && !Nested(s, t, exclusive)
    ensures forall w :: w in Enqueue(s, t, exclusive).queue ==> QueuedProperly(Enqueue(s, t, exclusive), w)
    ensures forall u :: u in Enqueue(s, t, exclusive).inside ==> WaitsProperly(Enqueue(s, t, exclusive), u)
    ensures Ordered(Enqueue(s, t, exclusive).queue)
  {
    var s', w := Enqueue(s, t, exclusive), Arriving(s, t, exclusive);
    assert w in s'.queue;
    forall v | v in s'.queue ensures QueuedProperly(s', v) {
      if v in s.queue {
        assert QueuedProperly(s, v);
      }
    }
    forall u | u in s'.inside ensures WaitsProperly(s', u) {
      if u != t {
        assert WaitsProperly(s, u);
      }
    }
    forall i | 0 <= i < |s.queue| ensures s.queue[i].tid != t && s.queue[i].id < w.id {
      assert QueuedProperly(s, s.queue[i]);
    }
  }

  lemma EnqueueKeepsHistory(s: Lock, t: Tid, exclusive: bool)
    requires Consistent(s) && t !in s.inside && !Nested(s, t, exclusive)
    ensures Fair(Enqueue(s, t, exclusive)) && Complete(Enqueue(s, t, exclusive))
  {
    var s', w := Enqueue(s, t, exclusive), Arriving(s, t, exclusive);
    assert w in s'.queue;
    forall v | v in s.queue ensures v in s'.queue {}
    forall id: nat | id < s'.arrivals ensures Arrived(s', id) {
      if id < s.arrivals {
        assert Arrived(s, id);
      }
    }
  }

  /** Removing one waiter from an ordered queue removes just that waiter. */
  lemma {:induction false} WithoutRemoves(q: seq<Waiter>, w: Waiter)
    requires Ordered(q)
    ensures Ordered(Without(q, w))
    ensures forall v :: v in Without(q, w) <==> v in q && v != w
    ensures w in q ==> forall v :: v in Without(q, w) ==> v.id != w.id && v.tid != w.tid
  {
    if q != [] {
      HeadFirst(q);
      assert q == [q[0]] + q[1..];
      if q[0] == w {
        assert w !in q[1..];
      } else {
        WithoutRemoves(q[1..], w);
        var rest := Without(q[1..], w);
        forall i, j | 0 <= i < j < |[q[0]] + rest| ensures Before(([q[0]] + rest)[i], ([q[0]] + rest)[j]) {
          assert rest[j - 1] in q[1..];
        }
      }
    }
  }

  lemma WithdrawKeepsAccounts(s: Lock, t: Tid)
    requires Consistent(s) && t in s.inside && !s.inside[t].granted
    ensures forall u :: Accounted(Withdraw(s, t), u)
  {
    forall u ensures Accounted(Withdraw(s, t), u) {
      assert Accounted(s, u);
    }
  }

  lemma WithdrawKeepsQueue(s: Lock, t: Tid)
    requires Consistent(s) && t in s.inside && !s.inside[t].granted
    ensures forall w :: w in Withdraw(s, t).queue ==> QueuedProperly(Withdraw(s, t), w)
    ensures forall u :: u in Withdraw(s, t).inside ==> WaitsProperly(Withdraw(s, t), u)
    ensures Ordered(Withdraw(s, t).queue)
  {
    var s', w := Withdraw(s, t), s.inside[t].waiter;
    assert WaitsProperly(s, t);
    WithoutRemoves(s.queue, w);
    forall v | v in s'.queue ensures QueuedProperly(s', v) {
      assert QueuedProperly(s, v);
    }
    forall u | u in s'.inside ensures WaitsProperly(s', u) {
      assert WaitsProperly(s, u);
    }
  }

  lemma WithdrawKeepsHistory(s: Lock, t: Tid)
    requires Consistent(s) && t in s.inside && !s.inside[t].granted
    ensures Fair(Withdraw(s, t)) && Complete(Withdraw(s, t))
  {
    var s', w := Withdraw(s, t), s.inside[t].waiter;
    assert WaitsProperly(s, t) && QueuedProperly(s, w);
    WithoutRemoves(s.queue, w);
    forall id: nat | id < s'.arrivals ensures Arrived(s', id) {
      assert Arrived(s, id);
    }
  }

  /** A release takes back exactly one hold of the mode on top of the stack: the counts it
      lowers were positive, so clamping them at zero never changes anything. */
  lemma NewestHoldIsCounted(s: Lock, t: Tid)
    requires Consistent(s) && t !in s.inside && Stack(s, t) != []
    ensures if Stack(s, t)[|Stack(s, t)| - 1] then s.writer == Some(t) && s.writerCount >= 1 else Shared(s, t) >= 1
  {
    assert Accounted(s, t);
    assert Stack(s, t)[|Stack(s, t)| - 1] in multiset(Stack(s, t));
  }

  lemma UnchargeCounts(s: Lock, t: Tid)
    requires Consistent(s) && t !in s.inside && Stack(s, t) != []
    ensures var s', exclusive := Uncharge(s, t), Stack(s, t)[|Stack(s, t)| - 1];
      && Shared(s', t) == Shared(s, t) - (if exclusive then 0 else 1)
      && WriterHolds(s', t) == WriterHolds(s, t) - (if exclusive then 1 else 0)
      && forall u :: u != t ==> Shared(s', u) == Shared(s, u) && WriterHolds(s', u) == WriterHolds(s, u)
  {
    NewestHoldIsCounted(s, t);
  }

  lemma UnchargePops(s: Lock, t: Tid)
    requires Stack(s, t) != []
    ensures multiset(Stack(s, t)) == multiset(Stack(Uncharge(s, t), t)) + multiset{Stack(s, t)[|Stack(s, t)| - 1]}
  {
    var stack := Stack(s, t);
    assert Uncharge(s, t).stacks == Pop(s, t).stacks;
    assert Stack(Uncharge(s, t), t) == stack[..|stack| - 1];
    assert stack == stack[..|stack| - 1] + [stack[|stack| - 1]];
  }

  lemma UnchargeUndoesOneHold(s: Lock, t: Tid)
    requires Consistent(s) && t !in s.inside && Stack(s, t) != []
    ensures var s', exclusive := Uncharge(s, t), Stack(s, t)[|Stack(s, t)| - 1];
      && (if exclusive then s.writer == Some(t) && s.writerCount >= 1 else Shared(s, t) >= 1)
      && Shared(s', t) == Shared(s, t) - (if exclusive then 0 else 1)
      && WriterHolds(s', t) == WriterHolds(s, t) - (if exclusive then 1 else 0)
      && (forall u :: u != t ==> Shared(s', u) == Shared(s, u) && WriterHolds(s', u) == WriterHolds(s, u))
      && multiset(Stack(s, t)) == multiset(Stack(s', t)) + multiset{exclusive}
      && Exclusion(s')
  {
    NewestHoldIsCounted(s, t);
    UnchargeCounts(s, t);
    UnchargePops(s, t);
  }

  lemma UnchargeKeepsAccounts(s: Lock, t: Tid)
    requires Consistent(s) && t !in s.inside && Stack(s, t) != []
    ensures forall u :: Accounted(Uncharge(s, t), u)
  {
    UnchargeUndoesOneHold(s, t);
    var s' := Uncharge(s, t);
    assert Accounted(s, t);
    assert Accounted(s', t);
    forall u | u != t ensures Accounted(s', u) {
      assert Accounted(s, u);
    }
  }

  lemma UnchargeKeepsQueue(s: Lock, t: Tid)
    requires Consistent(s) && t !in s.inside && Stack(s, t) != []
    ensures forall w :: w in Uncharge(s, t).queue ==> QueuedProperly(Uncharge(s, t), w)
    ensures forall u :: u in Uncharge(s, t).inside ==> WaitsProperly(Uncharge(s, t), u)
    ensures Ordered(Uncharge(s, t).queue) && Fair(Uncharge(s, t)) && Complete(Uncharge(s, t))
  {
    var s' := Uncharge(s, t);
    forall v | v in s'.queue ensures QueuedProperly(s', v) {
      assert QueuedProperly(s, v);
    }
    forall u | u in s'.inside ensures WaitsProperly(s', u) {
      assert WaitsProperly(s, u);
    }
    forall id: nat | id < s'.arrivals ensures Arrived(s', id) {
      assert Arrived(s, id);
    }
  }

  lemma TakeKeepsAccounts(s: Lock, t: Tid, exclusive: bool)
    requires Consistent(s) && t !in s.inside && Nested(s, t, exclusive)
    ensures forall u :: Accounted(Take(s, t, exclusive), u)
  {
    assert Accounted(s, t);
    forall u ensures Accounted(Take(s, t, exclusive), u) {
      assert Accounted(s, u);
    }
  }

  lemma TakeKeepsInv(s: Lock, t: Tid, exclusive: bool)
    requires Inv(s) && t !in s.inside && Nested(s, t, exclusive)
    ensures Inv(Take(s, t, exclusive))
  {
    var s' := Take(s, t, exclusive);
    assert Accounted(s, t);
    assert s'.writer.None? ==> s'.shared.Keys == s.shared.Keys;
    assert HeadWaits(s');
    TakeKeepsAccounts(s, t, exclusive);
    forall w | w in s'.queue ensures QueuedProperly(s', w) {
      assert QueuedProperly(s, w);
    }
    forall u | u in s'.inside ensures WaitsProperly(s', u) {
      assert WaitsProperly(s, u);
    }
    forall id: nat | id < s'.arrivals ensures Arrived(s', id) {
      assert Arrived(s, id);
    }
  }

  lemma RecordKeepsAccounts(s: Lock, t: Tid)
    requires Consistent(s) && t in s.inside && s.inside[t].granted
    ensures forall u :: Accounted(Settle(s, t, false).0, u)
  {
    var s' := Settle(s, t, false).0;
    assert Accounted(s, t);
    assert Accounted(s', t);
    forall u | u != t ensures Accounted(s', u) {
      assert Accounted(s, u);
    }
  }

  lemma RecordKeepsInv(s: Lock, t: Tid)
    requires Inv(s) && t in s.inside && s.inside[t].granted
    ensures Inv(Settle(s, t, false).0)
  {
    var s' := Settle(s, t, false).0;
    RecordKeepsAccounts(s, t);
    forall w | w in s'.queue ensures QueuedProperly(s', w) {
      assert QueuedProperly(s, w);
    }
    forall u | u in s'.inside ensures WaitsProperly(s', u) {
      assert WaitsProperly(s, u);
    }
    forall id: nat | id < s'.arrivals ensures Arrived(s', id) {
      assert Arrived(s, id);
    }
  }

  lemma SettleKeepsInv(s: Lock, t: Tid, giveUp: bool)
    requires Inv(s) && t in s.inside
    ensures Inv(Settle(s, t, giveUp).0)
  {
    if s.inside[t].granted {
      RecordKeepsInv(s, t);
    } else if giveUp {
      assert WaitsProperly(s, t);
      WithdrawKeepsAccounts(s, t);
      WithdrawKeepsQueue(s, t);
      WithdrawKeepsHistory(s, t);
      DispatchSettles(Withdraw(s, t));
    }
  }

  lemma QueueKeepsInv(s: Lock, t: Tid, exclusive: bool)
    requires Inv(s) && t !in s.inside && !Nested(s, t, exclusive)
    ensures Inv(Dispatch(Enqueue(s, t, exclusive)))
    ensures t in Dispatch(Enqueue(s, t, exclusive)).inside
  {
    EnqueueKeepsAccounts(s, t, exclusive);
    EnqueueKeepsQueue(s, t, exclusive);
    EnqueueKeepsHistory(s, t, exclusive);
    DispatchSettles(Enqueue(s, t, exclusive));
    DispatchKeepsInside(Enqueue(s, t, exclusive), t);
  }

  lemma AcquireKeepsInv(s: Lock, t: Tid, exclusive: bool, giveUp: bool)
    requires Inv(s) && t !in s.inside
    ensures Inv(Acquire(s, t, exclusive, giveUp).0)
  {
    if Nested(s, t, exclusive) {
      TakeKeepsInv(s, t, exclusive);
    } else {
      QueueKeepsInv(s, t, exclusive);
      SettleKeepsInv(Dispatch(Enqueue(s, t, exclusive)), t, giveUp);
    }
  }

  lemma ReleaseKeepsInv(s: Lock, t: Tid)
    requires Inv(s) && t !in s.inside && Stack(s, t) != []
    ensures Inv(Release(s, t).value)
  {
    UnchargeUndoesOneHold(s, t);
    UnchargeKeepsAccounts(s, t);
    UnchargeKeepsQueue(s, t);
    DispatchSettles(Uncharge(s, t));
  }

  lemma StepKeepsInv(s: Lock, step: Step)
    requires Inv(s) && Enabled(s, step)
    ensures Inv(Apply(s, step))
  {
    match step
    case AcquireStep(t, exclusive, giveUp) => AcquireKeepsInv(s, t, exclusive, giveUp);
    case WakeStep(t, expired) => SettleKeepsInv(s, t, expired);
    case ReleaseStep(t) => if Stack(s, t) != [] { ReleaseKeepsInv(s, t); }
  }

  /** Every reachable state satisfies the invariant. */
  lemma {:induction false} RunKeepsInv(s: Lock, steps: seq<Step>)
    requires Inv(s)
    ensures Inv(Run(s, steps))
    decreases |steps|
  {
    if steps != [] {
      var next := if Enabled(s, steps[0]) then Apply(s, steps[0]) else s;
      if Enabled(s, steps[0]) {
        StepKeepsInv(s, steps[0]);
      }
      RunKeepsInv(next, steps[1..]);
    }
  }
}
