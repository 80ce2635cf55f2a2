/** What the two layers of the graph lock promise together, over every run of every process. */
module GraphLockTheorems {
  import opened Wrappers
  import opened Sums
  import opened ThreadLock
  import opened ThreadLockTheorems
  import opened GraphLock

  const NOBODY: World := map[]

  /** A thread has a scope open: an acquisition went through both layers and none of them is
      taken away by an upgrade in progress. */
  ghost predicate InScope(p: Proc, t: Tid) {
    Settled(p, t) != [] && !BetweenLocks(p, t)
  }

  ghost predicate InWriteScope(p: Proc, t: Tid) {
    true in Settled(p, t) && !BetweenLocks(p, t)
  }

  lemma ReachableInv(steps: seq<WorldStep>)
    ensures WorldInv(RunWorld(NOBODY, steps))
  {
    RunWorldKeepsInv(NOBODY, steps);
  }

  lemma WriterHasExclusiveFlock(p: Proc, t: Tid)
    requires Layered(p) && InWriteScope(p, t)
    ensures p.flock == ExclusiveMode && p.lock.writer == Some(t) && p.modes == Settled(p, t)
  {
    assert PhaseProper(p, t) && StackProper(p.lock, t);
    assert forall b :: b in Settled(p, t) ==> b in Stack(p.lock, t);
    NotMidUpgrade(p, p, t);
  }

  lemma ReaderHasFlock(p: Proc, t: Tid)
    requires Layered(p) && InScope(p, t)
    ensures p.flock != Unlocked
  {
    HoldsAMode(p, t);
    NotMidUpgrade(p, p, t);
  }

  /** While a thread of any process is inside a write scope, no other thread of any process is
      inside a read or write scope. */
  lemma WriteScopeIsAlone(steps: seq<WorldStep>, pid: Pid, t: Tid, qid: Pid, u: Tid)
    requires var w := RunWorld(NOBODY, steps); pid in w && qid in w && InWriteScope(w[pid], t)
    requires pid != qid || t != u
    ensures !InScope(RunWorld(NOBODY, steps)[qid], u)
  {
    ReachableInv(steps);
    var w := RunWorld(NOBODY, steps);
    WriterHasExclusiveFlock(w[pid], t);
    if pid == qid {
      assert StackProper(w[pid].lock, u);
    } else if InScope(w[qid], u) {
      ReaderHasFlock(w[qid], u);
    }
  }

  /** The mode stack follows the thread lock: the writer's own acquisitions in order, or one shared
      mode per hold; and an exclusive mode leaves every other process no lock, and no modes but those
      of an upgrade that gave its lock up. */
  lemma LayersInLockstep(steps: seq<WorldStep>, pid: Pid)
    requires pid in RunWorld(NOBODY, steps)
    ensures var w := RunWorld(NOBODY, steps); var p := w[pid];
      && (p.lock.writer.Some? ==> p.modes == Settled(p, p.lock.writer.value))
      && (p.lock.writer.None? ==> true !in p.modes && |p.modes| == Sum(Counts(p)))
      && (true in p.modes && !MidUpgrade(p) ==>
            forall q :: q in w && q != pid ==> w[q].flock == Unlocked && (w[q].modes == [] <==> !MidUpgrade(w[q])))
  {
    ReachableInv(steps);
    var w := RunWorld(NOBODY, steps);
    InvIn(w, pid);
    forall q | q in w && q != pid && true in w[pid].modes && !MidUpgrade(w[pid])
      ensures w[q].flock == Unlocked && (w[q].modes == [] <==> !MidUpgrade(w[q]))
    {
      InvIn(w, q);
      UnlockedModes(w[q]);
    }
  }

  lemma InvIn(w: World, pid: Pid)
    requires WorldInv(w) && pid in w
    ensures ProcInv(w[pid])
  {
  }

  /** Modes without a lock are those of an upgrade in progress. */
  lemma UnlockedModes(p: Proc)
    requires Layered(p)
    ensures MidUpgrade(p) ==> p.modes != []
    ensures p.flock == Unlocked && !MidUpgrade(p) ==> p.modes == []
  {
    if t :| BetweenLocks(p, t) {
      assert PhaseProper(p, t) && StackProper(p.lock, t);
    }
  }

  // ---------------------------------------------------------------------------
  // One scope, entered and left
  // ---------------------------------------------------------------------------

  /** Take a scope while both layers grant it at once. */
  function Enter(p: Proc, t: Tid, exclusive: bool): Proc
    requires Outside(p, t) && Acquire(p.lock, t, exclusive, false).1.Granted?
    requires Stack(Acquire(p.lock, t, exclusive, false).0, t) != []
  {
    var taken := TakeFlock(ThreadAcquire(p, t, exclusive, false), t, true);
    if PhaseOf(taken, t).Upgrading? then TryUpgrade(taken, t, true) else taken
  }

  function LeaveScope(p: Proc, t: Tid): Proc {
    ThreadRelease(ReleaseFlock(p, t), t)
  }

  /** The flock layer alone: what it takes for one acquisition it gives back. */
  lemma FlockRoundTrip(p: Proc, t: Tid)
    requires Layered(p) && PhaseOf(p, t).NeedFlock? && Stack(p.lock, t) != []
    ensures var taken := TakeFlock(p, t, true);
      var held := if PhaseOf(taken, t).Upgrading? then TryUpgrade(taken, t, true) else taken;
      var left := ReleaseFlock(held, t);
      && left.modes == p.modes && left.flock == p.flock && left.lock == p.lock
      && PhaseOf(left, t).MustRelease? && forall u :: u != t ==> PhaseOf(left, u) == PhaseOf(p, u)
  {
    assert Init(p.modes + [Last(Stack(p.lock, t))]) == p.modes;
    NotMidUpgrade(p, p, t);
  }

  /** The way into a scope ends at the flock layer, with everything there still untouched. */
  lemma ThreadLockGranted(p: Proc, t: Tid, exclusive: bool)
    requires ProcInv(p) && Outside(p, t) && Acquire(p.lock, t, exclusive, false).1.Granted?
    ensures var granted := ThreadAcquire(p, t, exclusive, false);
      && Layered(granted) && PhaseOf(granted, t).NeedFlock? && Stack(granted.lock, t) != []
      && granted.lock == Acquire(p.lock, t, exclusive, false).0
      && granted.modes == p.modes && granted.flock == p.flock
      && forall u :: u != t ==> PhaseOf(granted, u) == PhaseOf(p, u)
  {
    AcquireFrame(p.lock, t, exclusive, false);
    ThreadAcquireKeepsInv(p, t, exclusive, false);
  }

  /** Entering a scope, nested or not, upgrading or not, and leaving it again restores the thread
      lock, the mode stack and the flock. */
  lemma ScopeRoundTrip(p: Proc, t: Tid, exclusive: bool)
    requires ProcInv(p) && Outside(p, t) && Acquire(p.lock, t, exclusive, false).1.Granted?
    ensures Stack(Acquire(p.lock, t, exclusive, false).0, t) != []
    ensures var p' := LeaveScope(Enter(p, t, exclusive), t);
      && Core(p'.lock) == Core(p.lock) && p'.modes == p.modes && p'.flock == p.flock
      && forall u :: PhaseOf(p', u) == PhaseOf(p, u)
  {
    ThreadLockGranted(p, t, exclusive);
    ThreadLockRoundTrip(p, t, exclusive);
    var granted := ThreadAcquire(p, t, exclusive, false);
    LeavingEnds(p, granted, t);
  }

  lemma LeavingEnds(p: Proc, granted: Proc, t: Tid)
    requires Layered(granted) && PhaseOf(p, t).Running?
    requires PhaseOf(granted, t).NeedFlock? && Stack(granted.lock, t) != []
    requires granted.modes == p.modes && granted.flock == p.flock
    requires forall u :: u != t ==> PhaseOf(granted, u) == PhaseOf(p, u)
    requires Release(granted.lock, t).Some? && Core(Release(granted.lock, t).value) == Core(p.lock)
    ensures var taken := TakeFlock(granted, t, true);
      var p' := LeaveScope(if PhaseOf(taken, t).Upgrading? then TryUpgrade(taken, t, true) else taken, t);
      && Core(p'.lock) == Core(p.lock) && p'.modes == p.modes && p'.flock == p.flock
      && forall u :: PhaseOf(p', u) == PhaseOf(p, u)
  {
    FlockRoundTrip(granted, t);
  }

  /** Entering a scope whose file lock cannot be had, because the first wait for it fails, restores all
      of that too. */
  lemma FailedEntryIsClean(p: Proc, t: Tid, exclusive: bool)
    requires ProcInv(p) && Outside(p, t) && Acquire(p.lock, t, exclusive, false).1.Granted? && p.modes == []
    ensures var granted := ThreadAcquire(p, t, exclusive, false);
      && CanAct(granted, t, DoTakeFlock) && TakeFlock(granted, t, false) == granted
      && CanAct(granted, t, DoGiveUp) && CanAct(GiveUpFlock(granted, t), t, DoThreadRelease)
    ensures var p' := ThreadRelease(GiveUpFlock(ThreadAcquire(p, t, exclusive, false), t), t);
      && Core(p'.lock) == Core(p.lock) && p'.modes == [] && p'.flock == p.flock
      && forall u :: PhaseOf(p', u) == PhaseOf(p, u)
  {
    ThreadLockGranted(p, t, exclusive);
    ThreadLockRoundTrip(p, t, exclusive);
  }

  lemma ThreadLockRoundTrip(p: Proc, t: Tid, exclusive: bool)
    requires Inv(p.lock) && Outside(p, t) && Acquire(p.lock, t, exclusive, false).1.Granted?
    ensures var released := Release(Acquire(p.lock, t, exclusive, false).0, t);
      released.Some? && Core(released.value) == Core(p.lock)
  {
    AcquireThenRelease(p.lock, t, exclusive, false);
  }

  // ---------------------------------------------------------------------------
  // A failed upgrade
  // ---------------------------------------------------------------------------

  ghost predicate SpareThread(steps: seq<WorldStep>, pid: Pid, t: Tid) {
    forall s :: s in steps ==> s != Exit(pid) && !(s.Act? && s.pid == pid && s.tid == t)
  }

  /** What a writing thread relies on: its place in both layers. */
  ghost predicate SamePlace(p: Proc, p': Proc, t: Tid) {
    && p'.lock.writer == p.lock.writer && Stack(p'.lock, t) == Stack(p.lock, t)
    && Shared(p'.lock, t) == Shared(p.lock, t) && WriterHolds(p'.lock, t) == WriterHolds(p.lock, t)
    && PhaseOf(p', t) == PhaseOf(p, t) && p'.modes == p.modes && p'.flock == p.flock
    && (t in p'.lock.inside <==> t in p.lock.inside)
  }

  /** In a writer's process every other thread can only ask, wait, or give up waiting. */
  lemma BystandersHoldNothing(p: Proc, t: Tid, u: Tid, action: Action)
    requires ProcInv(p) && p.lock.writer == Some(t) && u != t && CanAct(p, u, action)
    ensures action.DoAcquire? || action.DoWake?
    ensures Stack(p.lock, u) == [] && u !in p.lock.shared
  {
    assert StackProper(p.lock, u) && PhaseProper(p, u) && Accounted(p.lock, u);
  }

  lemma WriterBlocksAcquire(s: Lock, t: Tid, u: Tid, exclusive: bool, giveUp: bool)
    requires Inv(s) && s.writer == Some(t) && u != t && u !in s.inside && u !in s.shared
    ensures var r := Acquire(s, u, exclusive, giveUp);
      && !r.1.Granted? && r.0.(queue := s.queue, inside := s.inside, arrivals := s.arrivals, drops := s.drops) == s
      && (t in r.0.inside <==> t in s.inside)
  {
    var queued := Enqueue(s, u, exclusive);
    assert Dispatch(queued) == queued;
  }

  lemma WriterBlocksWake(s: Lock, t: Tid, u: Tid, expired: bool)
    requires Inv(s) && s.writer == Some(t) && u != t && u in s.inside
    ensures var r := Settle(s, u, expired);
      && !r.1.Granted? && r.0.(queue := s.queue, inside := s.inside, drops := s.drops) == s
      && (t in r.0.inside <==> t in s.inside)
  {
    assert Accounted(s, u) && WaitsProperly(s, u);
  }

  lemma NeighboursCannotMoveWriter(w: World, pid: Pid, t: Tid, u: Tid, action: Action)
    requires pid in w && ProcInv(w[pid]) && w[pid].lock.writer == Some(t) && u != t && CanAct(w[pid], u, action)
    ensures SamePlace(w[pid], Perform(w, pid, u, action), t)
  {
    BystandersHoldNothing(w[pid], t, u, action);
    if action.DoAcquire? {
      WriterBlocksAcquire(w[pid].lock, t, u, action.exclusive, action.giveUp);
    } else {
      WriterBlocksWake(w[pid].lock, t, u, action.expired);
    }
  }

  /** An enabled action moves its own process, and by what it says. */
  lemma Performed(w: World, pid: Pid, t: Tid, action: Action)
    requires pid in w && CanAct(w[pid], t, action)
    ensures pid in Next(w, Act(pid, t, action)) && Next(w, Act(pid, t, action))[pid] == Perform(w, pid, t, action)
  {
  }

  /** Nothing else moves it, unless it exits. */
  lemma Elsewhere(w: World, step: WorldStep, pid: Pid)
    requires pid in w && step != Exit(pid)
    requires step.Act? && step.pid == pid ==> !CanAct(w[pid], step.tid, step.action)
    ensures pid in Next(w, step) && Next(w, step)[pid] == w[pid]
  {
  }

  lemma OthersCannotMoveWriter(w: World, step: WorldStep, pid: Pid, t: Tid)
    requires pid in w && ProcInv(w[pid]) && w[pid].lock.writer == Some(t)
    requires step != Exit(pid) && !(step.Act? && step.pid == pid && step.tid == t)
    ensures pid in Next(w, step) && SamePlace(w[pid], Next(w, step)[pid], t)
  {
    if step.Act? && step.pid == pid && CanAct(w[pid], step.tid, step.action) {
      NeighboursCannotMoveWriter(w, pid, t, step.tid, step.action);
      Performed(w, pid, step.tid, step.action);
    } else {
      Elsewhere(w, step, pid);
    }
  }

  lemma {:induction false} Undisturbed(w: World, steps: seq<WorldStep>, pid: Pid, t: Tid)
    requires WorldInv(w) && pid in w && w[pid].lock.writer == Some(t) && SpareThread(steps, pid, t)
    ensures WorldInv(RunWorld(w, steps)) && pid in RunWorld(w, steps)
    ensures SamePlace(w[pid], RunWorld(w, steps)[pid], t)
    decreases |steps|
  {
    if steps != [] {
      assert steps[0] in steps;
      InvIn(w, pid);
      OthersCannotMoveWriter(w, steps[0], pid, t);
      NextKeepsInv(w, steps[0]);
      Undisturbed(Next(w, steps[0]), steps[1..], pid, t);
    }
  }

  lemma UpgradeStarts(p: Proc, t: Tid, free: bool)
    requires ProcInv(p) && Outside(p, t) && p.modes != [] && true !in p.modes
    requires Acquire(p.lock, t, true, false).1.Granted?
    ensures var granted := ThreadAcquire(p, t, true, false);
      && PhaseOf(granted, t).NeedFlock? && Stack(granted.lock, t) == Stack(p.lock, t) + [true]
      && granted.lock.writer == Some(t)
      && var p' := TakeFlock(granted, t, free);
         && p'.modes == p.modes + [true] && p'.flock == Unlocked && PhaseOf(p', t).Upgrading? && p'.lock == granted.lock
  {
    AcquireFrame(p.lock, t, true, false);
    AcquireGranted(p.lock, t, true, false);
  }

  lemma LostUpgradeEnds(p: Proc, t: Tid, stack: seq<bool>)
    requires ProcInv(p) && PhaseOf(p, t).MustRelease? && Stack(p.lock, t) == stack + [true] && true !in stack
    ensures var p' := ThreadRelease(p, t);
      && Outside(p', t) && Stack(p'.lock, t) == stack && p'.modes == p.modes && p'.flock == p.flock
      && Shared(p'.lock, t) == |stack| && WriterHolds(p'.lock, t) == 0
  {
    assert PhaseProper(p, t);
    ReleaseFrame(p.lock, t);
    SharedStack(Release(p.lock, t).value, t);
  }

  /** A thread that is not blocked and has only shared entries holds just those. */
  lemma SharedStack(s: Lock, t: Tid)
    requires Inv(s) && t !in s.inside && true !in Stack(s, t)
    ensures Shared(s, t) == |Stack(s, t)| && WriterHolds(s, t) == 0
  {
    assert Accounted(s, t);
    AllFalse(Stack(s, t));
  }

  lemma {:induction false} AllFalse(stack: seq<bool>)
    requires true !in stack
    ensures multiset(stack)[false] == |stack| && multiset(stack)[true] == 0
  {
    if stack != [] {
      assert stack == [stack[0]] + stack[1..] && stack[0] in stack;
      assert !stack[0] && multiset(stack) == multiset{false} + multiset(stack[1..]);
      AllFalse(stack[1..]);
    }
  }

  /** A thread that is the writer of its process, with an upgrade on top of its stack. */
  ghost predicate Aloft(p: Proc, t: Tid, stack: seq<bool>, phase: Phase, modes: seq<bool>, flock: Mode) {
    && p.lock.writer == Some(t) && Stack(p.lock, t) == stack + [true]
    && PhaseOf(p, t) == phase && p.modes == modes && p.flock == flock
  }

  ghost predicate MidFlight(w: World, pid: Pid, t: Tid, stack: seq<bool>, phase: Phase, modes: seq<bool>, flock: Mode) {
    WorldInv(w) && pid in w && Aloft(w[pid], t, stack, phase, modes, flock)
  }

  lemma StaysAloft(p: Proc, p': Proc, t: Tid, stack: seq<bool>, phase: Phase, modes: seq<bool>, flock: Mode)
    requires Aloft(p, t, stack, phase, modes, flock) && SamePlace(p, p', t)
    ensures Aloft(p', t, stack, phase, modes, flock)
  {
  }

  lemma StaysMidFlight(w: World, steps: seq<WorldStep>, pid: Pid, t: Tid, stack: seq<bool>, phase: Phase, modes: seq<bool>, flock: Mode)
    requires MidFlight(w, pid, t, stack, phase, modes, flock) && SpareThread(steps, pid, t)
    ensures MidFlight(RunWorld(w, steps), pid, t, stack, phase, modes, flock)
  {
    Undisturbed(w, steps, pid, t);
    StaysAloft(w[pid], RunWorld(w, steps)[pid], t, stack, phase, modes, flock);
  }

  /** The thread lock granted an upgrade, at once or after a wait; the flock layer has not moved. */
  ghost predicate UpgradeGranted(p: Proc, t: Tid, stack: seq<bool>) {
    PhaseOf(p, t).NeedFlock? && Stack(p.lock, t) == stack + [true] && stack != [] && true !in stack
  }

  /** By then the process holds just what the thread held before. */
  lemma OnlyOwnModesAreLeft(p: Proc, t: Tid, stack: seq<bool>)
    requires Layered(p) && UpgradeGranted(p, t, stack)
    ensures p.lock.writer == Some(t) && p.modes == stack
  {
    HolderVersusWriter(p, t);
    assert Init(stack + [true]) == stack;
  }

  lemma TakesOff(p: Proc, t: Tid, stack: seq<bool>, free: bool)
    requires UpgradeGranted(p, t, stack) && p.lock.writer == Some(t) && p.modes == stack
    ensures CanAct(p, t, DoTakeFlock)
    ensures Aloft(TakeFlock(p, t, free), t, stack, Upgrading, stack + [true], Unlocked)
  {
    assert Last(stack + [true]);
  }

  lemma UpgradeTakesOff(w: World, pid: Pid, t: Tid, stack: seq<bool>)
    requires WorldInv(w) && pid in w && UpgradeGranted(w[pid], t, stack)
    ensures MidFlight(AfterStart(w, pid, t), pid, t, stack, Upgrading, stack + [true], Unlocked)
  {
    InvIn(w, pid);
    OnlyOwnModesAreLeft(w[pid], t, stack);
    TakesOff(w[pid], t, stack, Free(w, pid, Last(Stack(w[pid].lock, t))));
    Performed(w, pid, t, DoTakeFlock);
    NextKeepsInv(w, Act(pid, t, DoTakeFlock));
  }

  lemma GivesUp(p: Proc, t: Tid, stack: seq<bool>, modes: seq<bool>)
    requires Aloft(p, t, stack, Upgrading, modes, Unlocked)
    ensures CanAct(p, t, DoGiveUp) && Aloft(GiveUpFlock(p, t), t, stack, Restoring, modes, Unlocked)
  {
  }

  lemma UpgradeGivesUp(w: World, pid: Pid, t: Tid, stack: seq<bool>, modes: seq<bool>)
    requires MidFlight(w, pid, t, stack, Upgrading, modes, Unlocked)
    ensures MidFlight(Next(w, Act(pid, t, DoGiveUp)), pid, t, stack, Restoring, modes, Unlocked)
  {
    GivesUp(w[pid], t, stack, modes);
    Performed(w, pid, t, DoGiveUp);
    NextKeepsInv(w, Act(pid, t, DoGiveUp));
  }

  lemma Restores(p: Proc, t: Tid, stack: seq<bool>, modes: seq<bool>)
    requires Aloft(p, t, stack, Restoring, modes + [true], Unlocked)
    ensures CanAct(p, t, DoTryRestore) && Aloft(TryRestore(p, t, true), t, stack, MustRelease, modes, SharedMode)
  {
    assert Init(modes + [true]) == modes;
  }

  lemma ShareIsRestored(w: World, pid: Pid, t: Tid, stack: seq<bool>, modes: seq<bool>)
    requires MidFlight(w, pid, t, stack, Restoring, modes + [true], Unlocked) && Free(w, pid, false)
    ensures MidFlight(Next(w, Act(pid, t, DoTryRestore)), pid, t, stack, MustRelease, modes, SharedMode)
  {
    Restores(w[pid], t, stack, modes);
    Performed(w, pid, t, DoTryRestore);
    NextKeepsInv(w, Act(pid, t, DoTryRestore));
  }

  /** From the start of the upgrade to the release of the thread lock, among any other steps. */
  lemma FlightPath(w: World, pid: Pid, t: Tid, polls: seq<WorldStep>, retries: seq<WorldStep>, rest: seq<WorldStep>,
                   stack: seq<bool>, modes: seq<bool>)
    requires MidFlight(AfterStart(w, pid, t), pid, t, stack, Upgrading, modes + [true], Unlocked)
    requires SpareThread(polls, pid, t) && SpareThread(retries, pid, t) && SpareThread(rest, pid, t)
    requires Free(BeforeRestore(w, pid, t, polls, retries), pid, false)
    ensures MidFlight(RunWorld(Next(BeforeRestore(w, pid, t, polls, retries), Act(pid, t, DoTryRestore)), rest),
                      pid, t, stack, MustRelease, modes, SharedMode)
  {
    var w1, before := AfterStart(w, pid, t), BeforeRestore(w, pid, t, polls, retries);
    StaysMidFlight(w1, polls, pid, t, stack, Upgrading, modes + [true], Unlocked);
    UpgradeGivesUp(RunWorld(w1, polls), pid, t, stack, modes + [true]);
    StaysMidFlight(Next(RunWorld(w1, polls), Act(pid, t, DoGiveUp)), retries, pid, t, stack, Restoring, modes + [true], Unlocked);
    ShareIsRestored(before, pid, t, stack, modes);
    StaysMidFlight(Next(before, Act(pid, t, DoTryRestore)), rest, pid, t, stack, MustRelease, modes, SharedMode);
  }

  lemma Lands(w: World, pid: Pid, t: Tid, stack: seq<bool>, modes: seq<bool>)
    requires MidFlight(w, pid, t, stack, MustRelease, modes, SharedMode) && true !in stack
    ensures var w' := Next(w, Act(pid, t, DoThreadRelease));
      pid in w' && Landed(w'[pid], t, stack, modes)
  {
    InvIn(w, pid);
    TouchesDown(w[pid], t, stack, modes);
    Performed(w, pid, t, DoThreadRelease);
  }

  lemma TouchesDown(p: Proc, t: Tid, stack: seq<bool>, modes: seq<bool>)
    requires ProcInv(p) && Aloft(p, t, stack, MustRelease, modes, SharedMode) && true !in stack
    ensures CanAct(p, t, DoThreadRelease) && Landed(ThreadRelease(p, t), t, stack, modes)
  {
    LostUpgradeEnds(p, t, stack);
  }

  /** The caller is a plain reader again, with its old acquisitions on every level. */
  ghost predicate Landed(p: Proc, t: Tid, stack: seq<bool>, modes: seq<bool>) {
    && Outside(p, t) && p.modes == modes && p.flock == SharedMode
    && Stack(p.lock, t) == stack && Shared(p.lock, t) == |stack| && WriterHolds(p.lock, t) == 0
  }

  /** An upgrade that loses the wait for the exclusive flock and gets its shared flock back leaves
      the caller's stack, its holds and the mode stack as they were, whatever other threads and
      processes do in between. */
  lemma LostUpgradeIsClean(w: World, pid: Pid, t: Tid, stack: seq<bool>, polls: seq<WorldStep>,
                           retries: seq<WorldStep>, rest: seq<WorldStep>)
    requires WorldInv(w) && pid in w && UpgradeGranted(w[pid], t, stack)
    requires SpareThread(polls, pid, t) && SpareThread(retries, pid, t) && SpareThread(rest, pid, t)
    requires Free(BeforeRestore(w, pid, t, polls, retries), pid, false)
    ensures var w' := AfterLoss(w, pid, t, polls, retries, rest);
      pid in w' && Landed(w'[pid], t, stack, stack)
  {
    UpgradeTakesOff(w, pid, t, stack);
    FlightPath(w, pid, t, polls, retries, rest, stack, stack);
    var before := RunWorld(Next(BeforeRestore(w, pid, t, polls, retries), Act(pid, t, DoTryRestore)), rest);
    Lands(before, pid, t, stack, stack);
  }

  /** The shared flock has been given up. */
  ghost function AfterStart(w: World, pid: Pid, t: Tid): World {
    Next(w, Act(pid, t, DoTakeFlock))
  }

  /** The wait for the exclusive flock failed and the thread polls for its shared one. */
  ghost function BeforeRestore(w: World, pid: Pid, t: Tid, polls: seq<WorldStep>, retries: seq<WorldStep>): World {
    RunWorld(Next(RunWorld(AfterStart(w, pid, t), polls), Act(pid, t, DoGiveUp)), retries)
  }

  /** The shared flock was had back and the thread lock released. */
  ghost function AfterLoss(w: World, pid: Pid, t: Tid, polls: seq<WorldStep>, retries: seq<WorldStep>,
                           rest: seq<WorldStep>): World {
    Next(RunWorld(Next(BeforeRestore(w, pid, t, polls, retries), Act(pid, t, DoTryRestore)), rest),
         Act(pid, t, DoThreadRelease))
  }

  // ---------------------------------------------------------------------------
  // Waiting for the thread lock first
  // ---------------------------------------------------------------------------

  /** The waiters of a thread in the queue are the one it remembers. */
  ghost predicate OwnWaiter(s: Lock, t: Tid) {
    t in s.inside && forall w :: w in s.queue && w.tid == t ==> w == s.inside[t].waiter
  }

  /** A blocked thread goes on waiting on the same waiter, or it stays granted. */
  ghost predicate SameWaiter(s: Lock, s': Lock, t: Tid) {
    OwnWaiter(s', t) && t in s.inside && s'.inside[t].waiter == s.inside[t].waiter
  }

  lemma {:induction false} DispatchKeepsWaiter(s: Lock, t: Tid)
    requires OwnWaiter(s, t)
    ensures SameWaiter(s, Dispatch(s), t)
    decreases |s.queue|
  {
    if s.queue != [] && Grantable(s, s.queue[0]) {
      DispatchKeepsWaiter(GrantHead(s), t);
    }
  }

  lemma {:induction false} WithoutIsSubset(q: seq<Waiter>, w: Waiter)
    ensures forall v :: v in Without(q, w) ==> v in q
  {
    if q != [] {
      WithoutIsSubset(q[1..], w);
    }
  }

  lemma SettleKeepsWaiter(s: Lock, t: Tid, u: Tid, giveUp: bool)
    requires OwnWaiter(s, t) && u != t && u in s.inside
    ensures SameWaiter(s, Settle(s, u, giveUp).0, t)
  {
    if !s.inside[u].granted && giveUp {
      WithoutIsSubset(s.queue, s.inside[u].waiter);
      if s.inside[u].waiter in s.queue {
        DispatchKeepsWaiter(Withdraw(s, u), t);
      }
    }
  }

  lemma AcquireKeepsWaiter(s: Lock, t: Tid, u: Tid, exclusive: bool, giveUp: bool)
    requires OwnWaiter(s, t) && u != t && u !in s.inside
    ensures SameWaiter(s, Acquire(s, u, exclusive, giveUp).0, t)
  {
    if !Nested(s, u, exclusive) {
      var queued := Enqueue(s, u, exclusive);
      DispatchKeepsWaiter(queued, t);
      DispatchKeepsInside(queued, u);
      SettleKeepsWaiter(Dispatch(queued), t, u, giveUp);
    }
  }

  /** A thread that asked for an upgrade: blocked with its old stack, or granted. */
  ghost predicate OnItsWay(p: Proc, t: Tid, stack: seq<bool>) {
    || (PhaseOf(p, t).Running? && t in p.lock.inside && p.lock.inside[t].waiter.exclusive && Stack(p.lock, t) == stack)
    || (PhaseOf(p, t).NeedFlock? && Stack(p.lock, t) == stack + [true])
  }

  /** The thread itself only comes back to look whether it was granted. */
  ghost predicate OnlyWakes(steps: seq<WorldStep>, pid: Pid, t: Tid) {
    forall s :: s in steps ==> s != Exit(pid) && (s.Act? && s.pid == pid && s.tid == t ==> s.action == DoWake(false))
  }

  lemma BlockedOwnsWaiter(s: Lock, t: Tid)
    requires Inv(s) && t in s.inside
    ensures OwnWaiter(s, t)
  {
    forall w | w in s.queue && w.tid == t ensures w == s.inside[t].waiter {
      assert QueuedProperly(s, w);
    }
  }

  /** No other thread of the process moves a thread that asked. */
  lemma NeighbourKeepsTheWay(w: World, pid: Pid, t: Tid, u: Tid, action: Action, stack: seq<bool>)
    requires pid in w && ProcInv(w[pid]) && u != t && CanAct(w[pid], u, action) && OnItsWay(w[pid], t, stack)
    ensures OnItsWay(Perform(w, pid, u, action), t, stack)
  {
    if action.DoAcquire? {
      NeighbourAsks(w[pid], t, u, action.exclusive, action.giveUp, stack);
    } else if action.DoWake? {
      NeighbourWakes(w[pid], t, u, action.expired, stack);
    } else if action.DoThreadRelease? {
      assert PhaseProper(w[pid], u);
      NeighbourReleases(w[pid], t, u, stack);
    }
  }

  /** The thread lock moved for another thread; the waiting one keeps its stack and waiter. */
  lemma OnItsWayStill(p: Proc, p': Proc, t: Tid, stack: seq<bool>)
    requires OnItsWay(p, t, stack) && PhaseOf(p', t) == PhaseOf(p, t) && Stack(p'.lock, t) == Stack(p.lock, t)
    requires t in p.lock.inside ==> SameWaiter(p.lock, p'.lock, t)
    ensures OnItsWay(p', t, stack)
  {
  }

  lemma NeighbourAsks(p: Proc, t: Tid, u: Tid, exclusive: bool, giveUp: bool, stack: seq<bool>)
    requires Inv(p.lock) && u != t && Outside(p, u) && OnItsWay(p, t, stack)
    ensures OnItsWay(ThreadAcquire(p, u, exclusive, giveUp), t, stack)
  {
    AcquireFrame(p.lock, u, exclusive, giveUp);
    if t in p.lock.inside {
      BlockedOwnsWaiter(p.lock, t);
      AcquireKeepsWaiter(p.lock, t, u, exclusive, giveUp);
    }
    OnItsWayStill(p, ThreadAcquire(p, u, exclusive, giveUp), t, stack);
  }

  lemma NeighbourWakes(p: Proc, t: Tid, u: Tid, expired: bool, stack: seq<bool>)
    requires Inv(p.lock) && u != t && u in p.lock.inside && OnItsWay(p, t, stack)
    ensures OnItsWay(ThreadWake(p, u, expired), t, stack)
  {
    SettleFrame(p.lock, u, expired);
    if t in p.lock.inside {
      BlockedOwnsWaiter(p.lock, t);
      SettleKeepsWaiter(p.lock, t, u, expired);
    }
    OnItsWayStill(p, ThreadWake(p, u, expired), t, stack);
  }

  lemma NeighbourReleases(p: Proc, t: Tid, u: Tid, stack: seq<bool>)
    requires Inv(p.lock) && u != t && PhaseOf(p, u).MustRelease? && OnItsWay(p, t, stack)
    requires u !in p.lock.inside && Stack(p.lock, u) != []
    ensures OnItsWay(ThreadRelease(p, u), t, stack)
  {
    ReleaseFrame(p.lock, u);
    if t in p.lock.inside {
      BlockedOwnsWaiter(p.lock, t);
      ReleaseKeepsWaiter(p.lock, t, u);
    }
    OnItsWayStill(p, ThreadRelease(p, u), t, stack);
  }

  lemma ReleaseKeepsWaiter(s: Lock, t: Tid, u: Tid)
    requires OwnWaiter(s, t) && Stack(s, u) != []
    ensures SameWaiter(s, Release(s, u).value, t)
  {
    DispatchKeepsWaiter(Uncharge(s, u), t);
  }

  /** Its own step is to look whether it was granted. */
  lemma WakingKeepsTheWay(p: Proc, t: Tid, stack: seq<bool>)
    requires OnItsWay(p, t, stack) && t in p.lock.inside && PhaseOf(p, t).Running?
    ensures OnItsWay(ThreadWake(p, t, false), t, stack)
  {
  }

  lemma StepKeepsTheWay(w: World, step: WorldStep, pid: Pid, t: Tid, stack: seq<bool>)
    requires pid in w && ProcInv(w[pid]) && OnItsWay(w[pid], t, stack)
    requires step != Exit(pid) && (step.Act? && step.pid == pid && step.tid == t ==> step.action == DoWake(false))
    ensures pid in Next(w, step) && OnItsWay(Next(w, step)[pid], t, stack)
  {
    if step.Act? && step.pid == pid && CanAct(w[pid], step.tid, step.action) {
      Performed(w, pid, step.tid, step.action);
      if step.tid == t {
        assert PhaseProper(w[pid], t);
        WakingKeepsTheWay(w[pid], t, stack);
      } else {
        NeighbourKeepsTheWay(w, pid, t, step.tid, step.action, stack);
      }
    } else {
      Elsewhere(w, step, pid);
    }
  }

  lemma {:induction false} WaitingKeepsTheWay(w: World, steps: seq<WorldStep>, pid: Pid, t: Tid, stack: seq<bool>)
    requires WorldInv(w) && pid in w && OnItsWay(w[pid], t, stack) && OnlyWakes(steps, pid, t)
    ensures WorldInv(RunWorld(w, steps)) && pid in RunWorld(w, steps)
    ensures OnItsWay(RunWorld(w, steps)[pid], t, stack)
    decreases |steps|
  {
    if steps != [] {
      assert steps[0] in steps;
      InvIn(w, pid);
      StepKeepsTheWay(w, steps[0], pid, t, stack);
      NextKeepsInv(w, steps[0]);
      WaitingKeepsTheWay(Next(w, steps[0]), steps[1..], pid, t, stack);
    }
  }

  /** Asking puts a reader on its way to the upgrade, granted at once or queued. */
  lemma AskingIsOnItsWay(w: World, pid: Pid, t: Tid)
    requires WorldInv(w) && pid in w && Outside(w[pid], t)
    ensures var w' := Next(w, Act(pid, t, DoAcquire(true, false)));
      WorldInv(w') && pid in w' && OnItsWay(w'[pid], t, Stack(w[pid].lock, t))
  {
    NextKeepsInv(w, Act(pid, t, DoAcquire(true, false)));
    AskingMoves(w[pid], t);
  }

  lemma AskingMoves(p: Proc, t: Tid)
    requires Inv(p.lock) && Outside(p, t)
    ensures OnItsWay(ThreadAcquire(p, t, true, false), t, Stack(p.lock, t))
  {
    AcquireFrame(p.lock, t, true, false);
    var r := Acquire(p.lock, t, true, false);
    if r.1.Granted? {
      AcquireGranted(p.lock, t, true, false);
    } else {
      var queued := Enqueue(p.lock, t, true);
      forall v | v in p.lock.queue ensures v.tid != t {
        assert QueuedProperly(p.lock, v);
      }
      DispatchKeepsWaiter(queued, t);
    }
  }

  /** The whole call of a reader that asks for an upgrade, waits for the thread lock as long as it
      takes, loses the wait for the exclusive flock and gets its share back: it ends with the stack
      and the holds it had before, and with those as the modes of its process. */
  lemma FailedUpgradeIsClean(w: World, pid: Pid, t: Tid, waits: seq<WorldStep>, polls: seq<WorldStep>,
                             retries: seq<WorldStep>, rest: seq<WorldStep>)
    requires WorldInv(w) && pid in w && Outside(w[pid], t)
    requires Stack(w[pid].lock, t) != [] && true !in Stack(w[pid].lock, t)
    requires OnlyWakes(waits, pid, t) && IsGranted(AfterWaiting(w, pid, t, waits), pid, t)
    requires SpareThread(polls, pid, t) && SpareThread(retries, pid, t) && SpareThread(rest, pid, t)
    requires Free(BeforeRestore(AfterWaiting(w, pid, t, waits), pid, t, polls, retries), pid, false)
    ensures var w' := AfterLoss(AfterWaiting(w, pid, t, waits), pid, t, polls, retries, rest);
      pid in w' && Landed(w'[pid], t, Stack(w[pid].lock, t), Stack(w[pid].lock, t))
    ensures Shared(w[pid].lock, t) == |Stack(w[pid].lock, t)| && WriterHolds(w[pid].lock, t) == 0
  {
    var stack := Stack(w[pid].lock, t);
    AskingIsOnItsWay(w, pid, t);
    WaitingKeepsTheWay(Next(w, Act(pid, t, DoAcquire(true, false))), waits, pid, t, stack);
    SharedStack(w[pid].lock, t);
    LostUpgradeIsClean(AfterWaiting(w, pid, t, waits), pid, t, stack, polls, retries, rest);
  }

  ghost predicate IsGranted(w: World, pid: Pid, t: Tid) {
    pid in w && PhaseOf(w[pid], t).NeedFlock?
  }

  /** From the call to the grant of the thread lock. */
  ghost function AfterWaiting(w: World, pid: Pid, t: Tid, waits: seq<WorldStep>): World {
    RunWorld(Next(w, Act(pid, t, DoAcquire(true, false))), waits)
  }

  // ---------------------------------------------------------------------------
  // A release by a thread that holds nothing
  // ---------------------------------------------------------------------------

  /** The flock layer pops a mode before the thread lock can object: a release by a thread that holds
      nothing keeps the layers in lockstep exactly when the process has no mode stacked. */
  lemma StrayRelease(p: Proc, t: Tid)
    requires ProcInv(p) && Outside(p, t) && Stack(p.lock, t) == []
    ensures LeaveScope(p, t).lock == p.lock
    ensures Lockstep(LeaveScope(p, t)) <==> p.modes == []
    ensures |p.modes| == 1 ==> LeaveScope(p, t).flock == Unlocked
  {
    StrayReleaseMoves(p, t);
    SettledIsAllThatCounts(p, LeaveScope(p, t));
  }

  lemma StrayReleaseMoves(p: Proc, t: Tid)
    requires Outside(p, t) && Stack(p.lock, t) == []
    ensures var p' := LeaveScope(p, t);
      && p'.lock == p.lock && p'.modes == (if p.modes == [] then [] else Init(p.modes))
      && (forall u :: PhaseOf(p', u) == PhaseOf(p, u))
      && (|p.modes| == 1 ==> p'.flock == Unlocked)
  {
  }

  /** As long as no settled acquisition moves, the layers are in lockstep with one mode stack only. */
  lemma SettledIsAllThatCounts(p: Proc, p': Proc)
    requires Lockstep(p) && p'.lock == p.lock && forall u :: PhaseOf(p', u) == PhaseOf(p, u)
    requires p'.modes == if p.modes == [] then [] else Init(p.modes)
    ensures Lockstep(p') <==> p.modes == []
  {
    forall u ensures Settled(p', u) == Settled(p, u) {}
    assert Counts(p') == Counts(p);
  }

  /** A process in which thread 1 has entered a read scope. */
  ghost function OneReader(): World {
    Next(Next(Next(NOBODY, Start(0)), Act(0, 1, DoAcquire(false, false))), Act(0, 1, DoTakeFlock))
  }

  lemma OneReaderIsGranted()
    ensures Acquire(INIT, 1, false, false).1.Granted?
  {
    var queued := Enqueue(INIT, 1, false);
    assert queued.queue == [Arriving(INIT, 1, false)] && Grantable(queued, queued.queue[0]);
    var granted := GrantHead(queued);
    assert granted.queue == [] && Dispatch(granted) == granted && Dispatch(queued) == granted;
  }

  lemma OneReaderGranted()
    ensures var p := ThreadAcquire(STARTED, 1, false, false);
      && p.modes == [] && PhaseOf(p, 1).NeedFlock? && PhaseOf(p, 2).Running?
      && Stack(p.lock, 1) == [false] && Stack(p.lock, 2) == [] && p.lock.inside == map[]
  {
    InitInv();
    OneReaderIsGranted();
    AcquireGranted(INIT, 1, false, false);
    assert Stack(Take(INIT, 1, false), 1) == [false] && Stack(Take(INIT, 1, false), 2) == [];
  }

  lemma OneReaderIsReached()
    ensures WorldInv(OneReader())
    ensures var p := ThreadAcquire(STARTED, 1, false, false);
      && PhaseOf(p, 1).NeedFlock? && Stack(p.lock, 1) != []
      && OneReader() == map[0 := TakeFlock(p, 1, true)]
  {
    OneReaderGranted();
    var granted := ThreadAcquire(STARTED, 1, false, false);
    var w1, w2 := map[0 := STARTED], map[0 := granted];
    assert Next(NOBODY, Start(0)) == w1 && Next(w1, Act(0, 1, DoAcquire(false, false))) == w2;
    assert Free(w2, 0, false) && Next(w2, Act(0, 1, DoTakeFlock)) == map[0 := TakeFlock(granted, 1, true)];
    ReachableInv([]);
    NextKeepsInv(NOBODY, Start(0));
    NextKeepsInv(w1, Act(0, 1, DoAcquire(false, false)));
    NextKeepsInv(w2, Act(0, 1, DoTakeFlock));
  }

  /** A release by another thread then: the scope is still open and its process holds no lock. */
  lemma StrayReleaseFrom(p: Proc)
    requires ProcInv(p) && p.modes == [false] && Stack(p.lock, 1) == [false] && PhaseOf(p, 1).Running?
    requires Outside(p, 2) && Stack(p.lock, 2) == []
    ensures var p' := LeaveScope(p, 2);
      InScope(p', 1) && p'.modes == [] && p'.flock == Unlocked && !Lockstep(p')
  {
    StrayRelease(p, 2);
  }

  /** For instance after one thread entered a read scope and a second one released. */
  lemma StrayReleaseUnlocksAReader()
    ensures var w := OneReader();
      && 0 in w && InScope(w[0], 1) && Outside(w[0], 2) && Stack(w[0].lock, 2) == []
      && var p' := LeaveScope(w[0], 2);
         InScope(p', 1) && p'.modes == [] && p'.flock == Unlocked && !Lockstep(p')
  {
    OneReaderGranted();
    OneReaderIsReached();
    StrayReleaseFrom(OneReader()[0]);
  }

  // ---------------------------------------------------------------------------
  // Nobody is stuck between the layers
  // ---------------------------------------------------------------------------

  /** A thread between the layers belongs to the writer's process and has its modes stacked. */
  lemma RestoringHasModes(p: Proc, t: Tid)
    requires Layered(p) && BetweenLocks(p, t)
    ensures p.modes != []
  {
    assert PhaseProper(p, t) && StackProper(p.lock, t);
    assert Last(Stack(p.lock, t)) in Stack(p.lock, t);
  }

  /** In every reachable world every thread of every process can take a step, whatever its phase; and
      when no other process holds the file, its next attempt at the flock brings it on. */
  lemma EveryThreadCanAct(steps: seq<WorldStep>, pid: Pid, t: Tid) returns (action: Action)
    requires pid in RunWorld(NOBODY, steps)
    ensures var p := RunWorld(NOBODY, steps)[pid];
      && CanAct(p, t, action)
      && ((forall q :: q in RunWorld(NOBODY, steps) && q != pid ==> RunWorld(NOBODY, steps)[q].flock == Unlocked) ==>
            !PhaseOf(p, t).Running? ==> PhaseOf(Perform(RunWorld(NOBODY, steps), pid, t, action), t) != PhaseOf(p, t))
  {
    ReachableInv(steps);
    var p := RunWorld(NOBODY, steps)[pid];
    assert PhaseProper(p, t);
    match PhaseOf(p, t)
    case Running => action := if t in p.lock.inside then DoWake(false) else DoAcquire(false, false);
    case NeedFlock => action := DoTakeFlock;
    case Upgrading => action := DoTryUpgrade;
    case Restoring =>
      RestoringHasModes(p, t);
      action := DoTryRestore;
    case MustRelease => action := DoThreadRelease;
  }

  ghost predicate InTheWay(w: World, pid: Pid, exclusive: bool, q: Pid) {
    q in w && q != pid && (w[q].flock == ExclusiveMode || (exclusive && w[q].flock == SharedMode))
  }

  /** An attempt of a thread at the file lock fails exactly when another process is in the way: a reader
      is kept out by another process's exclusive lock alone, so readers of several processes share the
      file, and a writer by any lock of another process. Nested acquisitions ask nothing. */
  lemma AttemptsFailExactly(steps: seq<WorldStep>, pid: Pid, t: Tid)
    requires pid in RunWorld(NOBODY, steps) && CanAct(RunWorld(NOBODY, steps)[pid], t, DoTakeFlock)
    ensures var w := RunWorld(NOBODY, steps);
      var p, exclusive := w[pid], Last(Stack(w[pid].lock, t));
      PhaseOf(Perform(w, pid, t, DoTakeFlock), t) == NeedFlock <==>
        p.modes == [] && exists q :: InTheWay(w, pid, exclusive, q)
  {
    var w := RunWorld(NOBODY, steps);
    var exclusive := Last(Stack(w[pid].lock, t));
    if !Free(w, pid, exclusive) {
      var q :| q in w && q != pid && if exclusive then w[q].flock != Unlocked else w[q].flock == ExclusiveMode;
      assert InTheWay(w, pid, exclusive, q);
    }
  }
}
