/** What the thread lock promises its callers, over every run. */
module ThreadLockTheorems {
  import opened Wrappers
  import opened ThreadLock

  lemma InitInv()
    ensures Inv(INIT)
  {
    forall t ensures Accounted(INIT, t) {}
  }

  /** In every reachable state a writer excludes every hold of every other thread, and the counts of
      every thread are exactly the entries of its stack, plus the hold that its waiter was granted
      and that it has not recorded yet. */
  lemma MutualExclusion(steps: seq<Step>, t: Tid, u: Tid)
    ensures var s := Run(INIT, steps);
      && (t != u && WriterHolds(s, t) > 0 ==> !Holds(s, u) && Stack(s, u) == [])
      && Shared(s, t) == multiset(Stack(s, t))[false] + Unrecorded(s, t, false)
      && WriterHolds(s, t) == multiset(Stack(s, t))[true] + Unrecorded(s, t, true)
  {
    InitInv();
    RunKeepsInv(INIT, steps);
    var s := Run(INIT, steps);
    assert Accounted(s, t) && Accounted(s, u);
    if Stack(s, u) != [] {
      SomeEntry(Stack(s, u));
    }
  }

  /** Whenever the condition is free the head of the queue is entitled to nothing: a lock nobody
      holds has no waiters, and a reader at the head is waiting for a writer. */
  lemma NobodyWaitsForNothing(steps: seq<Step>)
    ensures var s := Run(INIT, steps);
      && ((forall t :: !Holds(s, t)) ==> s.queue == [] && forall t :: t in s.inside ==> s.inside[t].granted)
      && (s.queue != [] && !s.queue[0].exclusive ==> s.writer.Some?)
      && (s.queue != [] ==> exists t :: t != s.queue[0].tid && Holds(s, t))
  {
    InitInv();
    RunKeepsInv(INIT, steps);
    var s := Run(INIT, steps);
    if s.queue != [] {
      var head := s.queue[0];
      assert QueuedProperly(s, head);
      if s.writer.Some? {
        assert Holds(s, s.writer.value);
      } else {
        var t :| t in s.shared && t != head.tid;
        assert Accounted(s, t) && Holds(s, t);
      }
    }
    forall t | t in s.inside && s.queue == [] ensures s.inside[t].granted {
      assert WaitsProperly(s, t);
    }
  }

  /** First come, first served: by the time a request that was not an upgrade is served, every
      earlier one, upgrade or not, has been served before it or has given up. */
  lemma FirstComeFirstServed(steps: seq<Step>, k: nat, earlier: nat)
    requires k < |Run(INIT, steps).grants| && !Run(INIT, steps).grants[k].upgrade
    requires earlier < Run(INIT, steps).grants[k].id
    ensures var s := Run(INIT, steps);
      earlier in s.drops || exists i :: 0 <= i < k && s.grants[i].id == earlier
  {
    InitInv();
    RunKeepsInv(INIT, steps);
    EarlierIsServedFirst(Run(INIT, steps), k, earlier);
  }

  lemma EarlierIsServedFirst(s: Lock, k: nat, earlier: nat)
    requires Fair(s) && Complete(s) && k < |s.grants| && !s.grants[k].upgrade && earlier < s.grants[k].id
    ensures earlier in s.drops || exists i :: 0 <= i < k && s.grants[i].id == earlier
  {
    assert s.grants[k] in s.grants;
    assert Arrived(s, earlier);
    if g :| g in s.grants && g.id == earlier {
      var i :| 0 <= i < |s.grants| && s.grants[i] == g;
      assert i < k;
    }
  }

  /** So nobody passes a waiter: whatever is still queued, a writer or an upgrade, arrived after all
      that was served and was not an upgrade. */
  lemma NobodyPassesAWaiter(steps: seq<Step>, k: nat, w: Waiter)
    requires k < |Run(INIT, steps).grants| && !Run(INIT, steps).grants[k].upgrade
    requires w in Run(INIT, steps).queue
    ensures Run(INIT, steps).grants[k].id < w.id
  {
    InitInv();
    RunKeepsInv(INIT, steps);
    assert Run(INIT, steps).grants[k] in Run(INIT, steps).grants;
  }

  // ---------------------------------------------------------------------------
  // Nobody barges in
  // ---------------------------------------------------------------------------

  /** A thread holds what it recorded or was granted, and nothing else. */
  lemma HoldsExactly(s: Lock, t: Tid)
    requires Consistent(s)
    ensures Holds(s, t) <==> t in s.shared || s.writer == Some(t)
    ensures t !in s.inside ==> (Holds(s, t) <==> Stack(s, t) != [])
  {
    assert Accounted(s, t);
    if Stack(s, t) != [] {
      SomeEntry(Stack(s, t));
    }
  }

  /** No other thread holds anything, or anything exclusive, so that a hold in this mode can be had. */
  ghost predicate Unopposed(s: Lock, t: Tid, exclusive: bool) {
    && (forall u :: u != t ==> WriterHolds(s, u) == 0)
    && (exclusive ==> forall u :: u != t ==> !Holds(s, u))
  }

  /** When a request is served on the spot: one that nests in the thread's own holds always; any other
      one when it can be had, and then a thread that holds nothing only if nobody is queued. */
  ghost predicate ServedAtOnce(s: Lock, t: Tid, exclusive: bool) {
    || WriterHolds(s, t) > 0
    || (Shared(s, t) > 0 && !exclusive)
    || (Unopposed(s, t, exclusive) && (Holds(s, t) || s.queue == []))
  }

  lemma UnopposedIsGrantable(s: Lock, t: Tid, exclusive: bool)
    requires Consistent(s) && s.writer != Some(t)
    ensures Unopposed(s, t, exclusive) <==> s.writer.None? && (exclusive ==> forall u :: u in s.shared ==> u == t)
  {
    forall u ensures Holds(s, u) <==> u in s.shared || s.writer == Some(u) {
      HoldsExactly(s, u);
    }
    if s.writer.Some? {
      assert WriterHolds(s, s.writer.value) > 0;
    }
  }

  /** Nesting needs a hold of one's own. */
  lemma NestingNeedsAHold(s: Lock, t: Tid, exclusive: bool)
    requires Consistent(s)
    ensures Nested(s, t, exclusive) <==> WriterHolds(s, t) > 0 || (Shared(s, t) > 0 && !exclusive)
  {
    assert Accounted(s, t);
  }

  /** Whether the newly queued request is the one that dispatching serves. */
  lemma QueuedIsServed(s: Lock, t: Tid, exclusive: bool)
    requires Inv(s) && t !in s.inside && !Nested(s, t, exclusive)
    ensures var queued := Enqueue(s, t, exclusive);
      Grantable(queued, queued.queue[0]) <==> Unopposed(s, t, exclusive) && (Holds(s, t) || s.queue == [])
  {
    HoldsExactly(s, t);
    UnopposedIsGrantable(s, t, exclusive);
    var queued, w := Enqueue(s, t, exclusive), Arriving(s, t, exclusive);
    if !w.upgrade && s.queue != [] {
      assert queued.queue[0] == s.queue[0] && !Grantable(s, s.queue[0]);
    } else {
      assert queued.queue[0] == w;
    }
  }

  lemma GrantableIsGranted(s: Lock, t: Tid, exclusive: bool)
    requires Inv(s) && t !in s.inside && !Nested(s, t, exclusive)
    requires Grantable(Enqueue(s, t, exclusive), Enqueue(s, t, exclusive).queue[0])
    ensures var d := Dispatch(Enqueue(s, t, exclusive));
      t in d.inside && d.inside[t].granted
  {
    var queued := Enqueue(s, t, exclusive);
    assert queued.queue[0] == Arriving(s, t, exclusive);
    GrantedOverOthers(s, t, exclusive);
  }

  /** The outcome of every request, exactly: a reader that holds nothing never passes the queue, and one
      that may not wait never waits. */
  lemma OutcomeOfARequest(s: Lock, t: Tid, exclusive: bool, giveUp: bool)
    requires Inv(s) && t !in s.inside
    ensures Acquire(s, t, exclusive, giveUp).1 ==
      if ServedAtOnce(s, t, exclusive) then Granted else if giveUp then Refused else Waiting
  {
    NestingNeedsAHold(s, t, exclusive);
    if !Nested(s, t, exclusive) {
      QueuedIsServed(s, t, exclusive);
      var queued := Enqueue(s, t, exclusive);
      if Grantable(queued, queued.queue[0]) {
        GrantableIsGranted(s, t, exclusive);
      }
    }
  }

  /** A request of that thread that was no upgrade and arrived since was served. */
  ghost predicate ServedSince(s: Lock, t: Tid, since: nat) {
    exists g :: g in s.grants && g.tid == t && !g.upgrade && g.id >= since
  }

  /** The thread holds nothing yet, and asked since if it asks. */
  ghost predicate EmptyHanded(s: Lock, t: Tid, since: nat) {
    !Holds(s, t) && since <= s.arrivals && (t in s.inside ==> s.inside[t].waiter.id >= since)
  }

  lemma GrantServes(s: Lock, t: Tid, since: nat)
    requires Consistent(s) && s.queue != [] && Grantable(s, s.queue[0]) && EmptyHanded(s, t, since)
    ensures ServedSince(GrantHead(s), t, since) || EmptyHanded(GrantHead(s), t, since)
  {
    var s', head := GrantHead(s), s.queue[0];
    assert QueuedProperly(s, head);
    HoldsExactly(s, t);
    if head.tid == t {
      assert head in s'.grants;
    }
  }

  lemma {:induction false} DispatchKeepsGrants(s: Lock)
    ensures s.grants <= Dispatch(s).grants && Dispatch(s).arrivals == s.arrivals
    decreases |s.queue|
  {
    if s.queue != [] && Grantable(s, s.queue[0]) {
      DispatchKeepsGrants(GrantHead(s));
    }
  }

  lemma {:induction false} DispatchServes(s: Lock, t: Tid, since: nat)
    requires Consistent(s) && EmptyHanded(s, t, since)
    ensures ServedSince(Dispatch(s), t, since) || EmptyHanded(Dispatch(s), t, since)
    decreases |s.queue|
  {
    if s.queue != [] && Grantable(s, s.queue[0]) {
      GrantServes(s, t, since);
      if EmptyHanded(GrantHead(s), t, since) {
        GrantKeepsAccounts(s);
        GrantKeepsQueue(s);
        GrantKeepsFairness(s);
        GrantKeepsArrivals(s);
        DispatchServes(GrantHead(s), t, since);
      } else {
        DispatchKeepsGrants(GrantHead(s));
        ServedStays(GrantHead(s), Dispatch(s), t, since);
      }
    }
  }

  lemma ServedStays(s: Lock, s': Lock, t: Tid, since: nat)
    requires ServedSince(s, t, since) && s.grants <= s'.grants
    ensures ServedSince(s', t, since)
  {
    var g :| g in s.grants && g.tid == t && !g.upgrade && g.id >= since;
    assert g in s'.grants;
  }

  lemma DropServes(s: Lock, u: Tid, t: Tid, since: nat)
    requires Consistent(s) && u in s.inside && !s.inside[u].granted && EmptyHanded(s, t, since)
    ensures ServedSince(Drop(s, u), t, since) || EmptyHanded(Drop(s, u), t, since)
  {
    WithdrawKeepsAccounts(s, u);
    WithdrawKeepsQueue(s, u);
    WithdrawKeepsHistory(s, u);
    DispatchServes(Withdraw(s, u), t, since);
  }

  lemma SettleServes(s: Lock, u: Tid, giveUp: bool, t: Tid, since: nat)
    requires Inv(s) && u in s.inside && EmptyHanded(s, t, since)
    ensures var s' := Settle(s, u, giveUp).0; ServedSince(s', t, since) || EmptyHanded(s', t, since)
  {
    if !s.inside[u].granted && giveUp {
      DropServes(s, u, t, since);
    }
  }

  lemma AcquireServes(s: Lock, u: Tid, exclusive: bool, giveUp: bool, t: Tid, since: nat)
    requires Inv(s) && u !in s.inside && EmptyHanded(s, t, since)
    ensures var s' := Acquire(s, u, exclusive, giveUp).0; ServedSince(s', t, since) || EmptyHanded(s', t, since)
  {
    if Nested(s, u, exclusive) {
      NestingNeedsAHold(s, u, exclusive);
      assert u != t;
    } else {
      QueueKeepsInv(s, u, exclusive);
      QueueServes(s, u, exclusive, t, since);
      var queued := Dispatch(Enqueue(s, u, exclusive));
      if EmptyHanded(queued, t, since) {
        SettleServes(queued, u, giveUp, t, since);
      } else {
        SettleKeepsGrants(queued, u, giveUp);
        ServedStays(queued, Settle(queued, u, giveUp).0, t, since);
      }
    }
  }

  lemma QueueServes(s: Lock, u: Tid, exclusive: bool, t: Tid, since: nat)
    requires Inv(s) && u !in s.inside && !Nested(s, u, exclusive) && EmptyHanded(s, t, since)
    ensures var s' := Dispatch(Enqueue(s, u, exclusive)); ServedSince(s', t, since) || EmptyHanded(s', t, since)
  {
    EnqueueKeepsAccounts(s, u, exclusive);
    EnqueueKeepsQueue(s, u, exclusive);
    EnqueueKeepsHistory(s, u, exclusive);
    DispatchServes(Enqueue(s, u, exclusive), t, since);
  }

  lemma SettleKeepsGrants(s: Lock, t: Tid, giveUp: bool)
    requires t in s.inside
    ensures s.grants <= Settle(s, t, giveUp).0.grants
  {
    if s.inside[t].waiter in s.queue {
      DispatchKeepsGrants(Withdraw(s, t));
    }
  }

  lemma StepKeepsGrants(s: Lock, step: Step)
    requires Enabled(s, step)
    ensures s.grants <= Apply(s, step).grants
  {
    match step
    case AcquireStep(u, exclusive, giveUp) =>
      var queued := Enqueue(s, u, exclusive);
      DispatchKeepsInside(queued, u);
      DispatchKeepsGrants(queued);
      SettleKeepsGrants(Dispatch(queued), u, giveUp);
    case WakeStep(u, expired) => SettleKeepsGrants(s, u, expired);
    case ReleaseStep(u) => if Stack(s, u) != [] { DispatchKeepsGrants(Uncharge(s, u)); }
  }

  lemma StepServes(s: Lock, step: Step, t: Tid, since: nat)
    requires Inv(s) && Enabled(s, step) && EmptyHanded(s, t, since)
    ensures ServedSince(Apply(s, step), t, since) || EmptyHanded(Apply(s, step), t, since)
  {
    match step
    case AcquireStep(u, exclusive, giveUp) => AcquireServes(s, u, exclusive, giveUp, t, since);
    case WakeStep(u, expired) => SettleServes(s, u, expired, t, since);
    case ReleaseStep(u) =>
      if Stack(s, u) != [] {
        UnchargeUndoesOneHold(s, u);
        UnchargeKeepsAccounts(s, u);
        UnchargeKeepsQueue(s, u);
        DispatchServes(Uncharge(s, u), t, since);
      }
  }

  lemma {:induction false} RunServes(s: Lock, steps: seq<Step>, t: Tid, since: nat)
    requires Inv(s) && (ServedSince(s, t, since) || EmptyHanded(s, t, since))
    ensures Inv(Run(s, steps))
    ensures ServedSince(Run(s, steps), t, since) || EmptyHanded(Run(s, steps), t, since)
    decreases |steps|
  {
    if steps != [] {
      if Enabled(s, steps[0]) {
        StepKeepsInv(s, steps[0]);
        if EmptyHanded(s, t, since) {
          StepServes(s, steps[0], t, since);
        } else {
          StepKeepsGrants(s, steps[0]);
          ServedStays(s, Apply(s, steps[0]), t, since);
        }
        RunServes(Apply(s, steps[0]), steps[1..], t, since);
      } else {
        RunServes(s, steps[1..], t, since);
      }
    }
  }

  /** Every first hold goes through the queue: a thread that holds nothing and does not ask, and later
      holds something, had a request of its own served in between. */
  lemma FirstHoldIsServed(steps: seq<Step>, more: seq<Step>, t: Tid)
    requires var s := Run(INIT, steps); t !in s.inside && Stack(s, t) == []
    requires Holds(Run(Run(INIT, steps), more), t) || Stack(Run(Run(INIT, steps), more), t) != []
    ensures ServedSince(Run(Run(INIT, steps), more), t, Run(INIT, steps).arrivals)
  {
    InitInv();
    RunKeepsInv(INIT, steps);
    var s := Run(INIT, steps);
    HoldsExactly(s, t);
    RunServes(s, more, t, s.arrivals);
    var s' := Run(s, more);
    assert Accounted(s', t);
    if Stack(s', t) != [] {
      SomeEntry(Stack(s', t));
    }
  }

  /** So no newcomer overtakes: as long as somebody who was queued still waits, a thread that asked for
      its first hold after that has none, whatever it asks for and however many others come and go. */
  lemma NobodyOvertakes(steps: seq<Step>, more: seq<Step>, t: Tid, w: Waiter)
    requires var s := Run(INIT, steps); t !in s.inside && Stack(s, t) == [] && w in s.queue
    requires w in Run(Run(INIT, steps), more).queue
    ensures var s' := Run(Run(INIT, steps), more); !Holds(s', t) && Stack(s', t) == []
  {
    InitInv();
    RunKeepsInv(INIT, steps);
    var s := Run(INIT, steps);
    var s' := Run(s, more);
    assert QueuedProperly(s, w);
    RunKeepsInv(s, more);
    if Holds(s', t) || Stack(s', t) != [] {
      FirstHoldIsServed(steps, more, t);
      assert false;
    }
  }

  /** Everything a caller can see of the lock: all but the history. */
  function Core(s: Lock): (map<Tid, int>, Option<Tid>, int, seq<Waiter>, map<Tid, seq<bool>>, map<Tid, Wait>) {
    (s.shared, s.writer, s.writerCount, s.queue, s.stacks, s.inside)
  }

  lemma WithoutOnly(q: seq<Waiter>, w: Waiter)
    requires w !in q
    ensures Without([w] + q, w) == q && Without(q + [w], w) == q
  {
    assert ([w] + q)[1..] == q;
    WithoutLast(q, w);
  }

  lemma {:induction false} WithoutLast(q: seq<Waiter>, w: Waiter)
    requires w !in q
    ensures Without(q + [w], w) == q
  {
    if q != [] {
      assert (q + [w])[1..] == q[1..] + [w];
      WithoutLast(q[1..], w);
    }
  }

  /** What the queue looks like after a request that has to wait. */
  lemma BlockedRequest(s: Lock, t: Tid, exclusive: bool)
    requires Inv(s) && t !in s.inside && !Nested(s, t, exclusive)
    requires !Grantable(Enqueue(s, t, exclusive), Enqueue(s, t, exclusive).queue[0])
    ensures Dispatch(Enqueue(s, t, exclusive)) == Enqueue(s, t, exclusive)
    ensures var queued := Enqueue(s, t, exclusive);
      Core(Drop(queued, t)) == Core(s)
  {
    var queued, w := Enqueue(s, t, exclusive), Arriving(s, t, exclusive);
    forall v | v in s.queue ensures v != w {
      assert QueuedProperly(s, v);
    }
    assert w in queued.queue;
    WithoutOnly(s.queue, w);
    var withdrawn := Withdraw(queued, t);
    assert withdrawn.inside == s.inside;
    assert Core(withdrawn) == Core(s);
  }

  /** A request that is not granted at once was blocked: nothing else moved either. */
  lemma UngrantedWasBlocked(s: Lock, t: Tid, exclusive: bool)
    requires Inv(s) && t !in s.inside && !Nested(s, t, exclusive)
    requires t in Dispatch(Enqueue(s, t, exclusive)).inside && !Dispatch(Enqueue(s, t, exclusive)).inside[t].granted
    ensures !Grantable(Enqueue(s, t, exclusive), Enqueue(s, t, exclusive).queue[0])
  {
    var queued, w := Enqueue(s, t, exclusive), Arriving(s, t, exclusive);
    if Grantable(queued, queued.queue[0]) {
      assert queued.queue[0] == w;
      var granted := GrantHead(queued);
      assert granted.inside[t].granted;
      forall v | v in granted.queue ensures v.tid != t {
        assert v in s.queue;
        assert QueuedProperly(s, v);
      }
      DispatchLeaves(granted, t);
      assert false;
    }
  }

  /** Dispatching does not touch the waiter of a thread that is not queued. */
  lemma {:induction false} DispatchLeaves(s: Lock, t: Tid)
    requires t in s.inside && forall v :: v in s.queue ==> v.tid != t
    ensures t in Dispatch(s).inside && Dispatch(s).inside[t] == s.inside[t]
    decreases |s.queue|
  {
    if s.queue != [] && Grantable(s, s.queue[0]) {
      DispatchLeaves(GrantHead(s), t);
    }
  }

  /** A request refused on the spot, plain or upgrade, leaves the whole lock as it was. */
  lemma RefusalChangesNothing(s: Lock, t: Tid, exclusive: bool)
    requires Inv(s) && t !in s.inside
    requires Acquire(s, t, exclusive, true).1.Refused?
    ensures Core(Acquire(s, t, exclusive, true).0) == Core(s)
  {
    var queued := Enqueue(s, t, exclusive);
    DispatchKeepsInside(queued, t);
    UngrantedWasBlocked(s, t, exclusive);
    BlockedRequest(s, t, exclusive);
  }

  /** A waiter that gives up is still queued, so the "already granted" branch of giving up is dead;
      its thread keeps exactly the holds and the stack it had before it asked. */
  lemma TimeoutLeavesNothingBehind(s: Lock, t: Tid)
    requires Inv(s) && t in s.inside && !s.inside[t].granted
    ensures s.inside[t].waiter in s.queue
    ensures var s' := Settle(s, t, true).0;
      && t !in s'.inside && (forall w :: w in s'.queue ==> w.tid != t)
      && Stack(s', t) == Stack(s, t) && Shared(s', t) == Shared(s, t) && WriterHolds(s', t) == WriterHolds(s, t)
  {
    assert WaitsProperly(s, t) && QueuedProperly(s, s.inside[t].waiter);
    WithdrawKeepsAccounts(s, t);
    WithdrawKeepsQueue(s, t);
    WithdrawKeepsHistory(s, t);
    WithoutRemoves(s.queue, s.inside[t].waiter);
    DispatchSpares(Withdraw(s, t), t);
    assert Accounted(s, t);
    SettleKeepsInv(s, t, true);
    assert Accounted(Settle(s, t, true).0, t);
  }

  lemma {:induction false} DispatchSpares(s: Lock, t: Tid)
    requires t !in s.inside && forall v :: v in s.queue ==> v.tid != t
    ensures t !in Dispatch(s).inside && Dispatch(s).stacks == s.stacks
    ensures forall v :: v in Dispatch(s).queue ==> v in s.queue
    decreases |s.queue|
  {
    if s.queue != [] && Grantable(s, s.queue[0]) {
      DispatchSpares(GrantHead(s), t);
    }
  }

  /** An acquisition granted on the spot and then released puts the lock back as it was. */
  lemma AcquireThenRelease(s: Lock, t: Tid, exclusive: bool, giveUp: bool)
    requires Inv(s) && t !in s.inside
    requires Acquire(s, t, exclusive, giveUp).1.Granted?
    ensures var r := Release(Acquire(s, t, exclusive, giveUp).0, t);
      r.Some? && Core(r.value) == Core(s)
  {
    var s' := Acquire(s, t, exclusive, giveUp).0;
    AcquireGranted(s, t, exclusive, giveUp);
    UnchargeUndoesTake(s, t, exclusive);
    assert Core(Uncharge(s', t)) == Core(Uncharge(Take(s, t, exclusive), t));
  }

  lemma PopUndoesPush(s: Lock, t: Tid, exclusive: bool)
    requires t in s.stacks ==> s.stacks[t] != []
    ensures var stack := Stack(Push(s, t, exclusive), t);
      stack != [] && stack[|stack| - 1] == exclusive && Pop(Push(s, t, exclusive), t) == s
  {
    assert Stack(Push(s, t, exclusive), t)[..|Stack(s, t)|] == Stack(s, t);
    assert Pop(Push(s, t, exclusive), t).stacks == s.stacks;
  }

  lemma DischargeUndoesCharge(s: Lock, t: Tid, exclusive: bool)
    requires Accounted(s, t) && Exclusion(s) && (exclusive ==> s.writer.None? || s.writer == Some(t))
    ensures Discharge(Charge(s, t, exclusive), t, exclusive) == s
  {
    assert Discharge(Charge(s, t, exclusive), t, exclusive).shared == s.shared;
  }

  lemma UnchargeUndoesTake(s: Lock, t: Tid, exclusive: bool)
    requires Inv(s) && t !in s.inside && (exclusive ==> s.writer.None? || s.writer == Some(t))
    ensures Uncharge(Take(s, t, exclusive), t) == s
  {
    assert Accounted(s, t);
    PopUndoesPush(Charge(s, t, exclusive), t, exclusive);
    DischargeUndoesCharge(s, t, exclusive);
  }

  /** A request that is granted ahead of others is an upgrade, and then there is a writer. */
  lemma GrantedOverOthers(s: Lock, t: Tid, exclusive: bool)
    requires Inv(s) && t !in s.inside && !Nested(s, t, exclusive)
    requires var queued := Enqueue(s, t, exclusive);
      queued.queue[0] == Arriving(s, t, exclusive) && Grantable(queued, queued.queue[0])
    ensures var granted := GrantHead(Enqueue(s, t, exclusive));
      granted.queue == s.queue && Dispatch(granted) == granted
  {
    var granted := GrantHead(Enqueue(s, t, exclusive));
    assert granted.queue == s.queue;
    if granted.queue != [] {
      assert Arriving(s, t, exclusive).upgrade && granted.writer.Some?;
    }
  }

  lemma AcquireGranted(s: Lock, t: Tid, exclusive: bool, giveUp: bool)
    requires Inv(s) && t !in s.inside
    requires Acquire(s, t, exclusive, giveUp).1.Granted?
    ensures Core(Acquire(s, t, exclusive, giveUp).0) == Core(Take(s, t, exclusive))
    ensures exclusive ==> s.writer.None? || s.writer == Some(t)
  {
    if !Nested(s, t, exclusive) {
      var queued, w := Enqueue(s, t, exclusive), Arriving(s, t, exclusive);
      DispatchKeepsInside(queued, t);
      if !Grantable(queued, queued.queue[0]) {
        assert false;
      }
      assert queued.queue[0] == w;
      var granted := GrantHead(queued);
      assert granted.queue == s.queue;
      GrantedOverOthers(s, t, exclusive);
      assert granted.inside - {t} == s.inside;
    }
  }

  // ---------------------------------------------------------------------------
  // Two upgraders
  // ---------------------------------------------------------------------------

  ghost predicate Upgrading(s: Lock, t: Tid) {
    t in s.inside && !s.inside[t].granted && s.inside[t].waiter.upgrade
  }

  /** With two readers both waiting to upgrade, nobody in the queue can be served. */
  lemma StuckQueue(s: Lock, t: Tid, u: Tid)
    requires Consistent(s) && t != u && Upgrading(s, t) && Upgrading(s, u)
    ensures Dispatch(s) == s
  {
    var w, v := s.inside[t].waiter, s.inside[u].waiter;
    assert WaitsProperly(s, t) && WaitsProperly(s, u);
    assert QueuedProperly(s, w) && QueuedProperly(s, v);
    var i :| 0 <= i < |s.queue| && s.queue[i] == w;
    assert i > 0 ==> Before(s.queue[0], s.queue[i]);
    assert QueuedProperly(s, s.queue[0]);
  }

  lemma StepKeepsUpgradersWaiting(s: Lock, step: Step, t: Tid, u: Tid)
    requires Inv(s) && Enabled(s, step) && t != u && Upgrading(s, t) && Upgrading(s, u)
    requires step != WakeStep(t, true) && step != WakeStep(u, true)
    ensures Upgrading(Apply(s, step), t) && Upgrading(Apply(s, step), u)
  {
    match step
    case AcquireStep(v, exclusive, giveUp) =>
      if !Nested(s, v, exclusive) {
        var queued := Enqueue(s, v, exclusive);
        EnqueueKeepsAccounts(s, v, exclusive);
        EnqueueKeepsQueue(s, v, exclusive);
        EnqueueKeepsHistory(s, v, exclusive);
        StuckQueue(queued, t, u);
        if giveUp {
          WithdrawnUpgradersWait(queued, v, t, u);
        }
      }
    case WakeStep(v, expired) =>
      if !s.inside[v].granted && expired {
        WithdrawnUpgradersWait(s, v, t, u);
      }
    case ReleaseStep(v) =>
      if Stack(s, v) != [] {
        UnchargeUndoesOneHold(s, v);
        UnchargeKeepsAccounts(s, v);
        UnchargeKeepsQueue(s, v);
        StuckQueue(Uncharge(s, v), t, u);
      }
  }

  lemma WithdrawnUpgradersWait(s: Lock, v: Tid, t: Tid, u: Tid)
    requires Consistent(s) && v in s.inside && !s.inside[v].granted
    requires t != u && v != t && v != u && Upgrading(s, t) && Upgrading(s, u)
    ensures Upgrading(Drop(s, v), t) && Upgrading(Drop(s, v), u)
  {
    WithdrawKeepsAccounts(s, v);
    WithdrawKeepsQueue(s, v);
    WithdrawKeepsHistory(s, v);
    StuckQueue(Withdraw(s, v), t, u);
  }

  /** Two threads that hold a read and both ask to upgrade wait until one of them gives up:
      no run without a timeout of theirs serves either. */
  lemma {:induction false} UpgradersCannotBothWin(s: Lock, steps: seq<Step>, t: Tid, u: Tid)
    requires Inv(s) && t != u && Upgrading(s, t) && Upgrading(s, u)
    requires WakeStep(t, true) !in steps && WakeStep(u, true) !in steps
    ensures Upgrading(Run(s, steps), t) && Upgrading(Run(s, steps), u)
    decreases |steps|
  {
    if steps != [] {
      if Enabled(s, steps[0]) {
        assert steps[0] in steps;
        StepKeepsUpgradersWaiting(s, steps[0], t, u);
        StepKeepsInv(s, steps[0]);
        UpgradersCannotBothWin(Apply(s, steps[0]), steps[1..], t, u);
      } else {
        UpgradersCannotBothWin(s, steps[1..], t, u);
      }
    }
  }
}
