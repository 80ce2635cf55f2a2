/** Both layers of the graph lock: in every process a thread lock over one flock whose
    acquisitions are stacked as modes, and any number of processes sharing the lock file. */
module GraphLock {
  import opened Wrappers
  import opened Sums
  import opened ThreadLock

  type Pid = int

  /** What a process holds on the lock file. */
  datatype Mode = Unlocked | SharedMode | ExclusiveMode

  /** Where a thread stands between the two layers. */
  datatype Phase =
    | Running        // outside acquire and release, or blocked inside the thread lock
    | NeedFlock      // granted by the thread lock, not yet by the flock
    | Upgrading      // gave its shared flock up and polls for the exclusive one
    | Restoring      // lost the upgrade and polls for the shared flock it gave up
    | MustRelease    // done with the flock, still has to release the thread lock

  datatype Proc = Proc(lock: Lock, modes: seq<bool>, flock: Mode, phases: map<Tid, Phase>)

  type World = map<Pid, Proc>

  const STARTED: Proc := Proc(INIT, [], Unlocked, map[])

  function PhaseOf(p: Proc, t: Tid): Phase {
    if t in p.phases then p.phases[t] else Running
  }

  function WithPhase(p: Proc, t: Tid, phase: Phase): Proc {
    p.(phases := p.phases[t := phase])
  }

  function Init<T>(s: seq<T>): seq<T>
    requires s != []
  {
    s[..|s| - 1]
  }

  function Last<T>(s: seq<T>): T
    requires s != []
  {
    s[|s| - 1]
  }

  function ModeFor(exclusive: bool): Mode {
    if exclusive then ExclusiveMode else SharedMode
  }

  // ---------------------------------------------------------------------------
  // Steps of one process; `free` is the kernel's answer to a non-blocking flock call
  // ---------------------------------------------------------------------------

  predicate Outside(p: Proc, t: Tid) {
    PhaseOf(p, t).Running? && t !in p.lock.inside
  }

  function Granting(p: Proc, t: Tid, result: (Lock, Outcome)): Proc {
    var p' := p.(lock := result.0);
    if result.1.Granted? then WithPhase(p', t, NeedFlock) else p'
  }

  function ThreadAcquire(p: Proc, t: Tid, exclusive: bool, giveUp: bool): Proc
    requires Outside(p, t)
  {
    Granting(p, t, Acquire(p.lock, t, exclusive, giveUp))
  }

  function ThreadWake(p: Proc, t: Tid, expired: bool): Proc
    requires t in p.lock.inside
  {
    Granting(p, t, Settle(p.lock, t, expired))
  }

  /** One attempt at the flock layer: first acquisition, nested one, or the start of an upgrade. */
  function TakeFlock(p: Proc, t: Tid, free: bool): Proc
    requires PhaseOf(p, t).NeedFlock? && Stack(p.lock, t) != []
  {
    var exclusive := Last(Stack(p.lock, t));
    if p.modes == [] then
      if free then WithPhase(p, t, Running).(modes := [exclusive], flock := ModeFor(exclusive)) else p
    else if exclusive && true !in p.modes then
      WithPhase(p, t, Upgrading).(modes := p.modes + [exclusive], flock := Unlocked)
    else WithPhase(p, t, Running).(modes := p.modes + [exclusive])
  }

  function TryUpgrade(p: Proc, t: Tid, free: bool): Proc
    requires PhaseOf(p, t).Upgrading?
  {
    if free then WithPhase(p, t, Running).(flock := ExclusiveMode) else p
  }

  /** The flock wait raised: a first acquisition has nothing to undo, an upgrade its dropped share. */
  function GiveUpFlock(p: Proc, t: Tid): Proc
    requires (PhaseOf(p, t).NeedFlock? && p.modes == []) || PhaseOf(p, t).Upgrading?
  {
    WithPhase(p, t, if PhaseOf(p, t).NeedFlock? then MustRelease else Restoring)
  }

  function TryRestore(p: Proc, t: Tid, free: bool): Proc
    requires PhaseOf(p, t).Restoring? && p.modes != []
  {
    if free then WithPhase(p, t, MustRelease).(flock := SharedMode, modes := Init(p.modes)) else p
  }

  function ReleaseFlock(p: Proc, t: Tid): Proc {
    var p' := WithPhase(p, t, MustRelease);
    if p.modes == [] then p'
    else
      var rest := Init(p.modes);
      p'.(modes := rest,
          flock := if rest == [] then Unlocked else if true in rest then p.flock else SharedMode)
  }

  function ThreadRelease(p: Proc, t: Tid): Proc
    requires PhaseOf(p, t).MustRelease?
  {
    var r := Release(p.lock, t);
    WithPhase(p, t, Running).(lock := if r.Some? then r.value else p.lock)
  }

  // ---------------------------------------------------------------------------
  // Steps of the world
  // ---------------------------------------------------------------------------

  /** Whether the kernel would let a process hold the lock file in a mode right now. */
  predicate Free(w: World, pid: Pid, exclusive: bool) {
    forall q :: q in w && q != pid ==>
      if exclusive then w[q].flock == Unlocked else w[q].flock != ExclusiveMode
  }

  datatype Action =
    | DoAcquire(exclusive: bool, giveUp: bool)
    | DoWake(expired: bool)
    | DoTakeFlock
    | DoTryUpgrade
    | DoGiveUp
    | DoTryRestore
    | DoReleaseFlock
    | DoThreadRelease

  datatype WorldStep =
    | Start(pid: Pid)
    | Exit(pid: Pid)
    | Act(pid: Pid, tid: Tid, action: Action)

  /** Program order of a thread; callers release only what they hold. */
  predicate CanAct(p: Proc, t: Tid, action: Action) {
    match action
    case DoAcquire(_, _) => Outside(p, t)
    case DoWake(_) => t in p.lock.inside
    case DoTakeFlock => PhaseOf(p, t).NeedFlock? && Stack(p.lock, t) != []
    case DoTryUpgrade => PhaseOf(p, t).Upgrading?
    case DoGiveUp => (PhaseOf(p, t).NeedFlock? && p.modes == []) || PhaseOf(p, t).Upgrading?
    case DoTryRestore => PhaseOf(p, t).Restoring? && p.modes != []
    case DoReleaseFlock => Outside(p, t) && Stack(p.lock, t) != []
    case DoThreadRelease => PhaseOf(p, t).MustRelease?
  }

  function Perform(w: World, pid: Pid, t: Tid, action: Action): Proc
    requires pid in w && CanAct(w[pid], t, action)
  {
    var p := w[pid];
    match action
    case DoAcquire(exclusive, giveUp) => ThreadAcquire(p, t, exclusive, giveUp)
    case DoWake(expired) => ThreadWake(p, t, expired)
    case DoTakeFlock => TakeFlock(p, t, Free(w, pid, Last(Stack(p.lock, t))))
    case DoTryUpgrade => TryUpgrade(p, t, Free(w, pid, true))
    case DoGiveUp => GiveUpFlock(p, t)
    case DoTryRestore => TryRestore(p, t, Free(w, pid, false))
    case DoReleaseFlock => ReleaseFlock(p, t)
    case DoThreadRelease => ThreadRelease(p, t)
  }

  /** A step that is not enabled leaves the world alone; a process that exits drops its flock. */
  function Next(w: World, step: WorldStep): World {
    match step
    case Start(pid) => if pid in w then w else w[pid := STARTED]
    case Exit(pid) => w - {pid}
    case Act(pid, t, action) =>
      if pid in w && CanAct(w[pid], t, action) then w[pid := Perform(w, pid, t, action)] else w
  }

  function RunWorld(w: World, steps: seq<WorldStep>): World
    decreases |steps|
  {
    if steps == [] then w else RunWorld(Next(w, steps[0]), steps[1..])
  }

  // ---------------------------------------------------------------------------
  // Lockstep of the two layers
  // ---------------------------------------------------------------------------

  /** The acquisitions of a thread that the flock layer has seen and not yet undone: its stack,
      minus the newest entry while that one is on its way in or out. */
  function Settled(p: Proc, t: Tid): seq<bool> {
    var stack := Stack(p.lock, t);
    if stack != [] && (PhaseOf(p, t).NeedFlock? || PhaseOf(p, t).MustRelease?) then Init(stack) else stack
  }

  function Counts(p: Proc): map<Tid, nat> {
    map t | t in p.lock.stacks :: |Settled(p, t)|
  }

  /** The mode stack is the writer's own stack; without a writer it is one shared mode per hold. */
  ghost predicate Lockstep(p: Proc) {
    && |p.modes| == Sum(Counts(p))
    && (p.lock.writer.None? ==> true !in p.modes)
    && (p.lock.writer.Some? ==> p.modes == Settled(p, p.lock.writer.value))
  }

  ghost predicate BetweenLocks(p: Proc, t: Tid) {
    PhaseOf(p, t).Upgrading? || PhaseOf(p, t).Restoring?
  }

  ghost predicate MidUpgrade(p: Proc) {
    exists t :: BetweenLocks(p, t)
  }

  ghost predicate PhaseProper(p: Proc, t: Tid) {
    && (!PhaseOf(p, t).Running? ==> Stack(p.lock, t) != [] && t !in p.lock.inside)
    && (BetweenLocks(p, t) ==>
          |Stack(p.lock, t)| >= 2 && Last(Stack(p.lock, t)) && true !in Init(Stack(p.lock, t)))
  }

  /** The process holds the lock file in the strongest stacked mode, except while it upgrades. */
  ghost predicate FlockProper(p: Proc) {
    p.flock == if MidUpgrade(p) || p.modes == [] then Unlocked else ModeFor(true in p.modes)
  }

  /** A thread of a writer's process has nothing on its stack unless it is the writer, and without
      a writer every entry is shared. */
  ghost predicate ModesProper(s: Lock) {
    forall t :: StackProper(s, t)
  }

  ghost predicate StackProper(s: Lock, t: Tid) {
    && (s.writer.Some? && s.writer.value != t ==> Stack(s, t) == [])
    && (true in Stack(s, t) ==> s.writer == Some(t))
  }

  /** How the two layers of one process fit together. */
  ghost predicate Layered(p: Proc) {
    && ModesProper(p.lock)
    && (forall t :: PhaseProper(p, t))
    && Lockstep(p)
    && FlockProper(p)
  }

  ghost predicate ProcInv(p: Proc) {
    Inv(p.lock) && Layered(p)
  }

  ghost predicate Compatible(w: World) {
    forall p, q :: p in w && q in w && p != q && w[p].flock == ExclusiveMode ==> w[q].flock == Unlocked
  }

  ghost predicate WorldInv(w: World) {
    && (forall pid :: pid in w ==> ProcInv(w[pid]))
    && Compatible(w)
  }

  lemma InvMakesModesProper(s: Lock)
    requires Inv(s)
    ensures ModesProper(s)
  {
    forall t ensures StackProper(s, t) {
      assert Accounted(s, t);
      if true in Stack(s, t) {
        assert true in multiset(Stack(s, t));
      }
      if Stack(s, t) != [] {
        SomeEntry(Stack(s, t));
      }
    }
  }

  /** When the thread lock moves but no settled acquisition does, the layers stay in lockstep,
      whoever becomes or stops being the writer. */
  lemma ThreadLayerMoves(p: Proc, p': Proc)
    requires Layered(p) && ModesProper(p'.lock) && p'.modes == p.modes
    requires forall t :: Settled(p', t) == Settled(p, t)
    ensures Lockstep(p')
  {
    forall t | t in Counts(p) || t in Counts(p') ensures At(Counts(p), t) == At(Counts(p'), t) {
      assert Settled(p', t) == Settled(p, t);
    }
    SumAgrees(Counts(p), Counts(p'));
    if p'.lock.writer.Some? {
      var x := p'.lock.writer.value;
      forall u | u in Counts(p') && u != x ensures Counts(p')[u] == 0 {
        assert StackProper(p'.lock, u);
      }
      SumSingle(Counts(p'), x);
      assert |p.modes| == |Settled(p', x)|;
      assert StackProper(p.lock, x);
      if p.lock.writer.None? {
        AllShared(p.modes, Settled(p, x));
      }
    } else if p.lock.writer.Some? {
      assert StackProper(p'.lock, p.lock.writer.value);
    }
  }

  lemma AllShared(a: seq<bool>, b: seq<bool>)
    requires |a| == |b| && true !in a && true !in b
    ensures a == b
  {
    forall i | 0 <= i < |a| ensures a[i] == b[i] {
      assert a[i] in a && b[i] in b;
    }
  }

  // ---------------------------------------------------------------------------
  // Every step keeps the invariant
  // ---------------------------------------------------------------------------

  lemma {:induction false} DispatchFrame(s: Lock)
    requires forall w :: w in s.queue ==> w.tid in s.inside
    ensures Dispatch(s).stacks == s.stacks && Dispatch(s).inside.Keys == s.inside.Keys
    decreases |s.queue|
  {
    if s.queue != [] && Grantable(s, s.queue[0]) {
      DispatchFrame(GrantHead(s));
    }
  }

  /** Only the stack and the waiting of one thread move, and the stack by at most one entry. */
  ghost predicate MovesOnly(s: Lock, t: Tid, r: (Lock, Outcome)) {
    && (forall u :: u != t ==> Stack(r.0, u) == Stack(s, u) && (u in r.0.inside <==> u in s.inside))
    && (r.1.Granted? ==> t !in r.0.inside && Stack(r.0, t) != [] && Init(Stack(r.0, t)) == Stack(s, t))
    && (!r.1.Granted? ==> Stack(r.0, t) == Stack(s, t))
  }

  lemma SettleFrame(s: Lock, t: Tid, giveUp: bool)
    requires Inv(s) && t in s.inside
    ensures MovesOnly(s, t, Settle(s, t, giveUp))
  {
    if !s.inside[t].granted && giveUp {
      WithdrawFrame(s, t);
    }
  }

  lemma WithdrawFrame(s: Lock, t: Tid)
    requires Inv(s) && t in s.inside && !s.inside[t].granted
    ensures var d := Dispatch(Withdraw(s, t));
      d.stacks == s.stacks && d.inside.Keys == s.inside.Keys - {t}
  {
    assert forall w :: w in s.queue ==> QueuedProperly(s, w);
    assert WaitsProperly(s, t);
    WithdrawKeepsQueue(s, t);
    DispatchFrame(Withdraw(s, t));
  }

  lemma QueueFrame(s: Lock, t: Tid, exclusive: bool)
    requires Inv(s) && t !in s.inside && !Nested(s, t, exclusive)
    ensures var d := Dispatch(Enqueue(s, t, exclusive));
      d.stacks == s.stacks && d.inside.Keys == s.inside.Keys + {t}
  {
    assert forall w :: w in s.queue ==> QueuedProperly(s, w);
    DispatchFrame(Enqueue(s, t, exclusive));
  }

  lemma AcquireFrame(s: Lock, t: Tid, exclusive: bool, giveUp: bool)
    requires Inv(s) && t !in s.inside
    ensures MovesOnly(s, t, Acquire(s, t, exclusive, giveUp))
  {
    if Nested(s, t, exclusive) {
      TakeFrame(s, t, exclusive);
    } else {
      QueuedFrame(s, t, exclusive, giveUp);
    }
  }

  lemma TakeFrame(s: Lock, t: Tid, exclusive: bool)
    requires t !in s.inside
    ensures MovesOnly(s, t, (Take(s, t, exclusive), Granted))
  {
    assert Init(Stack(s, t) + [exclusive]) == Stack(s, t);
  }

  lemma QueuedFrame(s: Lock, t: Tid, exclusive: bool, giveUp: bool)
    requires Inv(s) && t !in s.inside && !Nested(s, t, exclusive)
    ensures t in Dispatch(Enqueue(s, t, exclusive)).inside
    ensures MovesOnly(s, t, Settle(Dispatch(Enqueue(s, t, exclusive)), t, giveUp))
  {
    var queued := Dispatch(Enqueue(s, t, exclusive));
    QueueKeepsInv(s, t, exclusive);
    QueueFrame(s, t, exclusive);
    SettleFrame(queued, t, giveUp);
    MovesAfterQueueing(s, queued, t, Settle(queued, t, giveUp));
  }

  lemma MovesAfterQueueing(s: Lock, queued: Lock, t: Tid, r: (Lock, Outcome))
    requires queued.stacks == s.stacks && queued.inside.Keys == s.inside.Keys + {t}
    requires MovesOnly(queued, t, r)
    ensures MovesOnly(s, t, r)
  {
    forall u ensures Stack(queued, u) == Stack(s, u) && (u != t ==> (u in queued.inside <==> u in s.inside)) {
      assert u in queued.inside <==> u in queued.inside.Keys;
    }
  }

  lemma ReleaseFrame(s: Lock, t: Tid)
    requires Inv(s) && t !in s.inside && Stack(s, t) != []
    ensures var s' := Release(s, t).value;
      && Inv(s') && Stack(s', t) == Init(Stack(s, t)) && s'.inside.Keys == s.inside.Keys
      && (forall u :: u != t ==> Stack(s', u) == Stack(s, u))
  {
    ReleaseKeepsInv(s, t);
    assert forall w :: w in s.queue ==> QueuedProperly(s, w);
    ReleaseMovesOneStack(s, t);
  }

  lemma ReleaseMovesOneStack(s: Lock, t: Tid)
    requires Stack(s, t) != [] && forall w :: w in s.queue ==> w.tid in s.inside
    ensures var s' := Release(s, t).value;
      && Stack(s', t) == Init(Stack(s, t)) && s'.inside.Keys == s.inside.Keys
      && (forall u :: u != t ==> Stack(s', u) == Stack(s, u))
  {
    DispatchFrame(Uncharge(s, t));
  }

  /** The thread lock grants, queues or refuses a request; the flock layer does not move. */
  lemma GrantingKeepsLayers(p: Proc, t: Tid, r: (Lock, Outcome))
    requires Layered(p) && ModesProper(r.0) && PhaseOf(p, t).Running? && MovesOnly(p.lock, t, r)
    ensures Layered(Granting(p, t, r))
  {
    var p' := Granting(p, t, r);
    forall u ensures Settled(p', u) == Settled(p, u) && PhaseProper(p', u) && (BetweenLocks(p', u) <==> BetweenLocks(p, u)) {
      assert PhaseProper(p, u);
    }
    ThreadLayerMoves(p, p');
    SameUpgrades(p, p');
  }

  lemma SameUpgrades(p: Proc, p': Proc)
    requires forall u :: BetweenLocks(p', u) <==> BetweenLocks(p, u)
    ensures MidUpgrade(p') <==> MidUpgrade(p)
  {
    if u :| BetweenLocks(p, u) {
      assert BetweenLocks(p', u);
    }
  }

  lemma ThreadReleaseKeepsInv(p: Proc, t: Tid)
    requires ProcInv(p) && PhaseOf(p, t).MustRelease?
    ensures ProcInv(ThreadRelease(p, t))
  {
    assert PhaseProper(p, t);
    ReleaseFrame(p.lock, t);
    InvMakesModesProper(Release(p.lock, t).value);
    ReleasingKeepsLayers(p, t, Release(p.lock, t).value);
  }

  lemma ReleasingKeepsLayers(p: Proc, t: Tid, released: Lock)
    requires Layered(p) && ModesProper(released) && PhaseOf(p, t).MustRelease? && Stack(p.lock, t) != []
    requires Stack(released, t) == Init(Stack(p.lock, t)) && released.inside.Keys == p.lock.inside.Keys
    requires forall u :: u != t ==> Stack(released, u) == Stack(p.lock, u)
    ensures Layered(WithPhase(p, t, Running).(lock := released))
  {
    var p' := WithPhase(p, t, Running).(lock := released);
    forall u ensures Settled(p', u) == Settled(p, u) && PhaseProper(p', u) && (BetweenLocks(p', u) <==> BetweenLocks(p, u)) {
      assert PhaseProper(p, u);
    }
    ThreadLayerMoves(p, p');
    SameUpgrades(p, p');
  }

  /** A thread with a stack is the writer, or there is none. */
  lemma HolderVersusWriter(p: Proc, t: Tid)
    requires Layered(p) && Stack(p.lock, t) != []
    ensures p.lock.writer.None? || p.lock.writer == Some(t)
    ensures Last(Stack(p.lock, t)) ==> p.lock.writer == Some(t)
    ensures forall u :: BetweenLocks(p, u) ==> u == t && p.lock.writer == Some(t)
  {
    assert StackProper(p.lock, t);
    forall u | BetweenLocks(p, u) ensures u == t && p.lock.writer == Some(t) {
      assert PhaseProper(p, u) && StackProper(p.lock, u);
    }
  }

  /** The mode stack and the settled acquisitions of one thread gain or lose one entry together. */
  lemma FlockLayerMoves(p: Proc, p': Proc, t: Tid)
    requires Layered(p) && p'.lock == p.lock && Stack(p.lock, t) != []
    requires forall u :: u != t ==> Settled(p', u) == Settled(p, u)
    requires
      || (p'.modes == p.modes + [Last(Stack(p.lock, t))] && Settled(p', t) == Settled(p, t) + [Last(Stack(p.lock, t))])
      || (p.modes != [] && p'.modes == Init(p.modes) && Settled(p, t) != [] && Settled(p', t) == Init(Settled(p, t)))
    ensures Lockstep(p')
  {
    HolderVersusWriter(p, t);
    SumUpdate(Counts(p), t, |Settled(p', t)|);
    forall u | u in Counts(p') || u in Counts(p)[t := |Settled(p', t)|]
      ensures At(Counts(p'), u) == At(Counts(p)[t := |Settled(p', t)|], u)
    {
      assert u != t ==> Settled(p', u) == Settled(p, u);
    }
    SumAgrees(Counts(p'), Counts(p)[t := |Settled(p', t)|]);
  }

  /** Rights on the lock file change only by what the kernel granted, or downwards. */
  ghost predicate FlockMoves(p: Proc, p': Proc, freeShared: bool, freeExclusive: bool) {
    || p'.flock == p.flock
    || p'.flock == Unlocked
    || (p'.flock == SharedMode && (freeShared || p.flock == ExclusiveMode))
    || (p'.flock == ExclusiveMode && freeExclusive)
  }

  lemma PhasesKept(p: Proc, p': Proc, t: Tid)
    requires Layered(p) && p'.lock == p.lock && PhaseProper(p', t)
    requires forall u :: u != t ==> PhaseOf(p', u) == PhaseOf(p, u)
    ensures forall u :: PhaseProper(p', u)
    ensures forall u :: u != t ==> Settled(p', u) == Settled(p, u)
    ensures forall u :: u != t ==> (BetweenLocks(p', u) <==> BetweenLocks(p, u))
  {
    forall u ensures PhaseProper(p', u) {
      assert PhaseProper(p, u);
    }
  }

  /** Next to a thread that holds something, only that very thread can be mid-upgrade. */
  lemma NotMidUpgrade(p: Proc, p': Proc, t: Tid)
    requires Layered(p) && Stack(p.lock, t) != [] && !BetweenLocks(p', t)
    requires forall u :: u != t ==> (BetweenLocks(p', u) <==> BetweenLocks(p, u))
    ensures !MidUpgrade(p')
  {
    HolderVersusWriter(p, t);
  }

  lemma FirstFlockKeepsPhases(p: Proc, t: Tid)
    requires Layered(p) && PhaseOf(p, t).NeedFlock? && Stack(p.lock, t) != [] && p.modes == []
    ensures forall u :: PhaseProper(TakeFlock(p, t, true), u)
    ensures forall u :: u != t ==> Settled(TakeFlock(p, t, true), u) == Settled(p, u)
    ensures !MidUpgrade(TakeFlock(p, t, true))
  {
    var p' := TakeFlock(p, t, true);
    assert PhaseProper(p, t) && PhaseProper(p', t);
    PhasesKept(p, p', t);
    NotMidUpgrade(p, p', t);
  }

  lemma FirstFlockKeepsLayers(p: Proc, t: Tid)
    requires Layered(p) && PhaseOf(p, t).NeedFlock? && Stack(p.lock, t) != [] && p.modes == []
    ensures Layered(TakeFlock(p, t, true))
  {
    var p' := TakeFlock(p, t, true);
    FirstFlockKeepsPhases(p, t);
    assert Stack(p.lock, t) == Init(Stack(p.lock, t)) + [Last(Stack(p.lock, t))];
    FlockLayerMoves(p, p', t);
  }

  lemma StartUpgradeKeepsLayers(p: Proc, t: Tid)
    requires Layered(p) && PhaseOf(p, t).NeedFlock? && Stack(p.lock, t) != [] && p.modes != []
    requires Last(Stack(p.lock, t)) && true !in p.modes
    ensures Layered(TakeFlock(p, t, false)) && TakeFlock(p, t, false).flock == Unlocked
  {
    var p' := TakeFlock(p, t, false);
    HolderVersusWriter(p, t);
    assert PhaseProper(p, t) && PhaseProper(p', t);
    PhasesKept(p, p', t);
    assert Stack(p.lock, t) == Init(Stack(p.lock, t)) + [true];
    FlockLayerMoves(p, p', t);
    assert BetweenLocks(p', t);
  }

  lemma NestedFlockKeepsLayers(p: Proc, t: Tid)
    requires Layered(p) && PhaseOf(p, t).NeedFlock? && Stack(p.lock, t) != [] && p.modes != []
    requires Last(Stack(p.lock, t)) ==> true in p.modes
    ensures Layered(TakeFlock(p, t, false)) && TakeFlock(p, t, false).flock == p.flock
  {
    var p', exclusive := TakeFlock(p, t, false), Last(Stack(p.lock, t));
    NestedFlockKeepsPhases(p, t);
    assert Settled(p', t) == Settled(p, t) + [exclusive];
    FlockLayerMoves(p, p', t);
    assert (true in p'.modes) == (true in p.modes);
  }

  lemma NestedFlockKeepsPhases(p: Proc, t: Tid)
    requires Layered(p) && PhaseOf(p, t).NeedFlock? && Stack(p.lock, t) != [] && p.modes != []
    requires Last(Stack(p.lock, t)) ==> true in p.modes
    ensures forall u :: PhaseProper(TakeFlock(p, t, false), u)
    ensures forall u :: u != t ==> Settled(TakeFlock(p, t, false), u) == Settled(p, u)
    ensures !MidUpgrade(p) && !MidUpgrade(TakeFlock(p, t, false))
  {
    var p' := TakeFlock(p, t, false);
    assert PhaseProper(p, t) && PhaseProper(p', t);
    PhasesKept(p, p', t);
    NotMidUpgrade(p, p, t);
    NotMidUpgrade(p, p', t);
  }

  lemma TakeFlockKeepsLayers(p: Proc, t: Tid, free: bool)
    requires Layered(p) && PhaseOf(p, t).NeedFlock? && Stack(p.lock, t) != []
    ensures Layered(TakeFlock(p, t, free))
    ensures var exclusive := Last(Stack(p.lock, t));
      FlockMoves(p, TakeFlock(p, t, free), !exclusive && free, exclusive && free)
  {
    if p.modes == [] {
      if free {
        FirstFlockKeepsLayers(p, t);
      }
    } else if Last(Stack(p.lock, t)) && true !in p.modes {
      StartUpgradeKeepsLayers(p, t);
    } else {
      NestedFlockKeepsLayers(p, t);
    }
  }

  lemma TryUpgradeKeepsLayers(p: Proc, t: Tid, free: bool)
    requires Layered(p) && PhaseOf(p, t).Upgrading?
    ensures Layered(TryUpgrade(p, t, free)) && FlockMoves(p, TryUpgrade(p, t, free), false, free)
  {
    var p' := TryUpgrade(p, t, free);
    assert PhaseProper(p, t) && BetweenLocks(p, t);
    HolderVersusWriter(p, t);
    if free {
      PhasesKept(p, p', t);
      assert Settled(p', t) == Settled(p, t);
      ThreadLayerMoves(p, p');
      assert !MidUpgrade(p');
      assert Last(p.modes) in p.modes;
    }
  }

  lemma GiveUpKeepsLayers(p: Proc, t: Tid)
    requires Layered(p) && CanAct(p, t, DoGiveUp)
    ensures Layered(GiveUpFlock(p, t)) && GiveUpFlock(p, t).flock == p.flock
  {
    var p' := GiveUpFlock(p, t);
    assert PhaseProper(p, t);
    PhasesKept(p, p', t);
    assert Settled(p', t) == Settled(p, t);
    ThreadLayerMoves(p, p');
    assert BetweenLocks(p', t) <==> BetweenLocks(p, t);
    SameUpgrades(p, p');
  }

  lemma TryRestoreKeepsLayers(p: Proc, t: Tid, free: bool)
    requires Layered(p) && CanAct(p, t, DoTryRestore)
    ensures Layered(TryRestore(p, t, free)) && FlockMoves(p, TryRestore(p, t, free), free, false)
  {
    var p' := TryRestore(p, t, free);
    assert PhaseProper(p, t) && BetweenLocks(p, t);
    HolderVersusWriter(p, t);
    if free {
      PhasesKept(p, p', t);
      FlockLayerMoves(p, p', t);
      assert !MidUpgrade(p');
      assert p'.modes == Init(Stack(p.lock, t));
    }
  }

  /** A process with an acquisition behind it has a mode for it. */
  lemma HoldsAMode(p: Proc, t: Tid)
    requires Layered(p) && Settled(p, t) != []
    ensures p.modes != []
  {
    SumSplit(Counts(p), t);
  }

  lemma ReleaseFlockKeepsLayers(p: Proc, t: Tid)
    requires Layered(p) && CanAct(p, t, DoReleaseFlock)
    ensures Layered(ReleaseFlock(p, t)) && FlockMoves(p, ReleaseFlock(p, t), false, false)
  {
    var p' := ReleaseFlock(p, t);
    HoldsAMode(p, t);
    assert PhaseProper(p, t) && PhaseProper(p', t);
    PhasesKept(p, p', t);
    NotMidUpgrade(p, p, t);
    NotMidUpgrade(p, p', t);
    FlockLayerMoves(p, p', t);
    assert true in Init(p.modes) ==> true in p.modes;
  }

  lemma PerformKeepsInv(w: World, pid: Pid, t: Tid, action: Action)
    requires WorldInv(w) && pid in w && CanAct(w[pid], t, action)
    ensures ProcInv(Perform(w, pid, t, action))
    ensures FlockMoves(w[pid], Perform(w, pid, t, action), Free(w, pid, false), Free(w, pid, true))
  {
    var p := w[pid];
    match action
    case DoAcquire(exclusive, giveUp) => ThreadAcquireKeepsInv(p, t, exclusive, giveUp);
    case DoWake(expired) => ThreadWakeKeepsInv(p, t, expired);
    case DoTakeFlock => TakeFlockKeepsLayers(p, t, Free(w, pid, Last(Stack(p.lock, t))));
    case DoTryUpgrade => TryUpgradeKeepsLayers(p, t, Free(w, pid, true));
    case DoGiveUp => GiveUpKeepsLayers(p, t);
    case DoTryRestore => TryRestoreKeepsLayers(p, t, Free(w, pid, false));
    case DoReleaseFlock => ReleaseFlockKeepsLayers(p, t);
    case DoThreadRelease => ThreadReleaseKeepsInv(p, t);
  }

  lemma ThreadAcquireKeepsInv(p: Proc, t: Tid, exclusive: bool, giveUp: bool)
    requires ProcInv(p) && Outside(p, t)
    ensures ProcInv(ThreadAcquire(p, t, exclusive, giveUp))
    ensures ThreadAcquire(p, t, exclusive, giveUp).flock == p.flock
  {
    var r := Acquire(p.lock, t, exclusive, giveUp);
    AcquireFrame(p.lock, t, exclusive, giveUp);
    AcquireKeepsInv(p.lock, t, exclusive, giveUp);
    InvMakesModesProper(r.0);
    GrantingKeepsLayers(p, t, r);
  }

  lemma ThreadWakeKeepsInv(p: Proc, t: Tid, expired: bool)
    requires ProcInv(p) && t in p.lock.inside
    ensures ProcInv(ThreadWake(p, t, expired)) && ThreadWake(p, t, expired).flock == p.flock
  {
    assert PhaseProper(p, t);
    var r := Settle(p.lock, t, expired);
    SettleFrame(p.lock, t, expired);
    SettleKeepsInv(p.lock, t, expired);
    InvMakesModesProper(r.0);
    GrantingKeepsLayers(p, t, r);
  }

  lemma StartedInv()
    ensures ProcInv(STARTED)
  {
    forall t ensures Accounted(INIT, t) && PhaseProper(STARTED, t) && !BetweenLocks(STARTED, t) {}
    InvMakesModesProper(INIT);
    assert Counts(STARTED) == map[];
  }

  lemma FlockMovesKeepCompatible(w: World, pid: Pid, p': Proc)
    requires Compatible(w) && pid in w && FlockMoves(w[pid], p', Free(w, pid, false), Free(w, pid, true))
    ensures Compatible(w[pid := p'])
  {
  }

  lemma ActKeepsInv(w: World, pid: Pid, t: Tid, action: Action)
    requires WorldInv(w) && pid in w && CanAct(w[pid], t, action)
    ensures WorldInv(w[pid := Perform(w, pid, t, action)])
  {
    PerformKeepsInv(w, pid, t, action);
    FlockMovesKeepCompatible(w, pid, Perform(w, pid, t, action));
  }

  lemma StartKeepsInv(w: World, pid: Pid)
    requires WorldInv(w)
    ensures WorldInv(Next(w, Start(pid)))
  {
    if pid !in w {
      StartedInv();
      StartKeepsCompatible(w, pid);
      var w' := w[pid := STARTED];
      forall q | q in w' ensures ProcInv(w'[q]) {
        assert w'[q] == if q == pid then STARTED else w[q];
      }
    }
  }

  lemma StartKeepsCompatible(w: World, pid: Pid)
    requires Compatible(w) && pid !in w
    ensures Compatible(w[pid := STARTED])
  {
  }

  lemma ExitKeepsInv(w: World, pid: Pid)
    requires WorldInv(w)
    ensures WorldInv(Next(w, Exit(pid)))
  {
    assert forall q :: q in w - {pid} ==> q in w;
  }

  lemma NextKeepsInv(w: World, step: WorldStep)
    requires WorldInv(w)
    ensures WorldInv(Next(w, step))
  {
    match step
    case Start(pid) => StartKeepsInv(w, pid);
    case Exit(pid) => ExitKeepsInv(w, pid);
    case Act(pid, t, action) =>
      if pid in w && CanAct(w[pid], t, action) {
        ActKeepsInv(w, pid, t, action);
        assert Next(w, step) == w[pid := Perform(w, pid, t, action)];
      } else {
        assert Next(w, step) == w;
      }
  }

  /** Every reachable world satisfies the invariant. */
  lemma {:induction false} RunWorldKeepsInv(w: World, steps: seq<WorldStep>)
    requires WorldInv(w)
    ensures WorldInv(RunWorld(w, steps))
    decreases |steps|
  {
    if steps != [] {
      NextKeepsInv(w, steps[0]);
      RunWorldKeepsInv(Next(w, steps[0]), steps[1..]);
    }
  }
}
