/** The task queue with its single worker, as a state machine over whole runs. */
module TaskQueue {
  import opened Wrappers
  import opened Sums
  import opened TaskPayload

  const TASK_KINDS := ["update", EMBED, "postprocess", "prepare"]
  const MAX_ATTEMPTS := 3
  const DEFAULT_PRIORITIES: map<string, int> := map["update" := 10, EMBED := 0, "postprocess" := 0, "prepare" := 10]

  datatype TaskState = Pending | Running | Dead

  datatype Task = Task(kind: string, priority: int, payload: Payload, state: TaskState, attempts: int, notBefore: real)

  type Tasks = map<nat, Task>

  // ---------------------------------------------------------------------------
  // Row operations
  // ---------------------------------------------------------------------------

  predicate IsTwin(tasks: Tasks, kind: string, id: nat) {
    id in tasks && tasks[id].state.Pending? && tasks[id].kind == kind
  }

  predicate Due(tasks: Tasks, now: real, id: nat) {
    id in tasks && tasks[id].state.Pending? && tasks[id].notBefore <= now
  }

  predicate Sooner(tasks: Tasks, a: nat, b: nat)
    requires a in tasks && b in tasks
  {
    tasks[a].priority > tasks[b].priority || (tasks[a].priority == tasks[b].priority && a <= b)
  }

  /** The row `ORDER BY priority DESC, id ASC LIMIT 1` yields among the due ones. */
  predicate IsNext(tasks: Tasks, now: real, id: nat) {
    Due(tasks, now, id) && forall other :: other in tasks && Due(tasks, now, other) ==> Sooner(tasks, id, other)
  }

  /** Row ids are handed out as one more than the largest in use, so they can come back. */
  predicate IsFreshId(tasks: Tasks, id: nat) {
    && id >= 1
    && (forall other :: other in tasks ==> other < id)
    && (id == 1 || id - 1 in tasks)
  }

  function Added(tasks: Tasks, id: nat, kind: string, payload: Payload, priority: int): Tasks {
    tasks[id := Task(kind, priority, payload, Pending, 0, 0.0)]
  }

  function Coalesced(tasks: Tasks, id: nat, payload: Payload, priority: int): Tasks
    requires id in tasks
  {
    var t := tasks[id];
    tasks[id := t.(payload := Merge(t.kind, t.payload, payload),
                   priority := if priority > t.priority then priority else t.priority)]
  }

  function Claimed(tasks: Tasks, id: nat): Tasks
    requires id in tasks
  {
    tasks[id := tasks[id].(state := Running, attempts := tasks[id].attempts + 1)]
  }

  function Completed(tasks: Tasks, id: nat): Tasks {
    if id in tasks && tasks[id].state.Running? then tasks - {id} else tasks
  }

  function Parked(tasks: Tasks, id: nat): Tasks {
    if id in tasks then tasks[id := tasks[id].(state := Dead)] else tasks
  }

  function Retried(tasks: Tasks, id: nat, notBefore: real): Tasks {
    if id in tasks then tasks[id := tasks[id].(state := Pending, notBefore := notBefore)] else tasks
  }

  function Failed(tasks: Tasks, id: nat, attempts: int, fatal: bool, notBefore: real): Tasks {
    if fatal || attempts >= MAX_ATTEMPTS then Parked(tasks, id) else Retried(tasks, id, notBefore)
  }

  function Recovered(t: Task): Task {
    if !t.state.Running? then t
    else t.(state := if t.attempts >= MAX_ATTEMPTS then Dead else Pending)
  }

  function Requeued(tasks: Tasks): Tasks {
    map id | id in tasks :: Recovered(tasks[id])
  }

  // ---------------------------------------------------------------------------
  // The queue, its worker and what became of every request
  // ---------------------------------------------------------------------------

  datatype Request = Request(kind: string, payload: Payload)

  /** The copy of a row a worker got from `claim`, and how many requests there were by then. */
  datatype Held = Held(id: nat, task: Task, at: nat)

  /** `busy` from a claim until its outcome is recorded; the copy stays around afterwards. */
  datatype Worker = Stopped | Live(held: Option<Held>, busy: bool)

  /** A request sits in a task, was done by one, or was thrown away by `clear`. */
  datatype Fate = InTask(id: nat) | Done(claim: Held) | Cleared

  datatype Sys = Sys(tasks: Tasks, worker: Worker, requests: seq<Request>, fates: seq<Fate>, claims: nat, added: nat)

  const EMPTY: Sys := Sys(map[], Stopped, [], [], 0, 0)

  datatype Step =
    | Enqueue(kind: string, payload: Payload, priority: int, twin: Option<nat>, newId: nat)
    | StartWorker
    | Claim(id: nat, now: real)
    | Complete
    | Fail(fatal: bool, notBefore: real)
    | Crash
    | Clear

  /** Any pending twin may be found, and one is found if there is any; a worker exists only while it
      holds the worker lock, and records the outcome of a task before it claims the next. */
  predicate Enabled(s: Sys, step: Step) {
    match step
    case Enqueue(kind, _, _, twin, newId) =>
      && kind in TASK_KINDS
      && (match twin
          case Some(id) => IsTwin(s.tasks, kind, id)
          case None => IsFreshId(s.tasks, newId) && forall id :: id in s.tasks ==> !IsTwin(s.tasks, kind, id))
    case StartWorker => s.worker.Stopped?
    case Claim(id, now) => s.worker.Live? && !s.worker.busy && IsNext(s.tasks, now, id)
    case Complete => s.worker.Live? && s.worker.held.Some?
    case Fail(_, _) => s.worker.Live? && s.worker.held.Some?
    case Crash => s.worker.Live?
    case Clear => true
  }

  function Settle(fates: seq<Fate>, id: nat, outcome: Fate): seq<Fate> {
    seq(|fates|, i requires 0 <= i < |fates| => if fates[i] == InTask(id) then outcome else fates[i])
  }

  function Forget(fates: seq<Fate>): seq<Fate> {
    seq(|fates|, i requires 0 <= i < |fates| => if fates[i].InTask? then Cleared else fates[i])
  }

  function Next(s: Sys, step: Step): Sys
    requires Enabled(s, step)
  {
    match step
    case Enqueue(kind, payload, priority, twin, newId) =>
      var s' := s.(requests := s.requests + [Request(kind, payload)]);
      (match twin
       case Some(id) => s'.(tasks := Coalesced(s.tasks, id, payload, priority), fates := s.fates + [InTask(id)])
       case None => s'.(tasks := Added(s.tasks, newId, kind, payload, priority), fates := s.fates + [InTask(newId)],
                        added := s.added + 1))
    case StartWorker => s.(tasks := Requeued(s.tasks), worker := Live(None, false))
    case Claim(id, now) =>
      var tasks := Claimed(s.tasks, id);
      s.(tasks := tasks, worker := Live(Some(Held(id, tasks[id], |s.requests|)), true), claims := s.claims + 1)
    case Complete =>
      var held := s.worker.held.value;
      s.(tasks := Completed(s.tasks, held.id),
         fates := if held.id in s.tasks && s.tasks[held.id].state.Running? then Settle(s.fates, held.id, Done(held)) else s.fates,
         worker := Live(Some(held), false))
    case Fail(fatal, notBefore) =>
      var held := s.worker.held.value;
      s.(tasks := Failed(s.tasks, held.id, held.task.attempts, fatal, notBefore), worker := Live(Some(held), false))
    case Crash => s.(worker := Stopped)
    case Clear => s.(tasks := map[], fates := Forget(s.fates))
  }

  function Run(s: Sys, steps: seq<Step>): Sys
    decreases |steps|
  {
    if steps == [] then s else Run(if Enabled(s, steps[0]) then Next(s, steps[0]) else s, steps[1..])
  }

  // ---------------------------------------------------------------------------
  // Invariant
  // ---------------------------------------------------------------------------

  ghost predicate RowProper(t: Task) {
    match t.state
    case Pending => 0 <= t.attempts < MAX_ATTEMPTS
    case Running => 1 <= t.attempts <= MAX_ATTEMPTS
    case Dead => 0 <= t.attempts <= MAX_ATTEMPTS
  }

  ghost predicate RowsProper(tasks: Tasks) {
    forall id :: id in tasks ==> RowProper(tasks[id])
  }

  /** A request that is still queued is part of its task; one that is done was part of a task
      claimed after it arrived. */
  ghost predicate Kept(s: Sys, i: nat)
    requires i < |s.requests| == |s.fates|
  {
    match s.fates[i]
    case InTask(id) => id in s.tasks && s.tasks[id].kind == s.requests[i].kind
                       && Includes(s.requests[i].kind, s.tasks[id].payload, s.requests[i].payload)
    case Done(claim) => claim.task.kind == s.requests[i].kind && i < claim.at
                     && Includes(s.requests[i].kind, claim.task.payload, s.requests[i].payload)
    case Cleared => true
  }

  ghost predicate AllKept(s: Sys) {
    |s.requests| == |s.fates| && forall i :: 0 <= i < |s.requests| ==> Kept(s, i)
  }

  /** A live worker's copy agrees with its row, and no other row is running. */
  ghost predicate WorkerProper(s: Sys) {
    s.worker.Live? ==>
      && (forall id :: id in s.tasks && s.tasks[id].state.Running? ==>
            s.worker.busy && s.worker.held.Some? && s.worker.held.value.id == id)
      && (s.worker.held.Some? ==>
            var h := s.worker.held.value;
            && 1 <= h.task.attempts <= MAX_ATTEMPTS && h.at <= |s.requests|
            && (h.id in s.tasks ==> s.tasks[h.id].attempts <= h.task.attempts)
            && (h.id in s.tasks && s.tasks[h.id].state.Running? ==>
                  && s.tasks[h.id].payload == h.task.payload && s.tasks[h.id].kind == h.task.kind
                  && forall i :: 0 <= i < |s.fates| && s.fates[i] == InTask(h.id) ==> i < h.at))
  }

  /** Attempts a row still has. */
  function Left(t: Task): nat {
    if t.attempts < MAX_ATTEMPTS then MAX_ATTEMPTS - t.attempts else 0
  }

  function Lefts(tasks: Tasks): map<nat, nat> {
    map id | id in tasks :: Left(tasks[id])
  }

  ghost predicate Inv(s: Sys) {
    RowsProper(s.tasks) && AllKept(s) && WorkerProper(s)
  }

  lemma EnqueueKeepsInv(s: Sys, step: Step)
    requires Inv(s) && step.Enqueue? && Enabled(s, step)
    ensures Inv(Next(s, step))
  {
    var s' := Next(s, step);
    forall i | 0 <= i < |s'.requests| ensures Kept(s', i) {
      if i < |s.requests| {
        assert Kept(s, i);
        if step.twin.Some? && s.fates[i] == InTask(step.twin.value) {
          MergeIncludes(step.kind, s.tasks[step.twin.value].payload, step.payload, s.requests[i].payload);
        }
      } else if step.twin.Some? {
        IncludesItself(step.kind, step.payload);
        MergeIncludes(step.kind, s.tasks[step.twin.value].payload, step.payload, step.payload);
      }
    }
  }

  lemma ClaimKeepsInv(s: Sys, step: Step)
    requires Inv(s) && step.Claim? && Enabled(s, step)
    ensures Inv(Next(s, step))
  {
    var s' := Next(s, step);
    forall i | 0 <= i < |s'.requests| ensures Kept(s', i) {
      assert Kept(s, i);
    }
  }

  lemma CompleteKeepsInv(s: Sys)
    requires Inv(s) && Enabled(s, Complete)
    ensures Inv(Next(s, Complete))
  {
    var s' := Next(s, Complete);
    forall i | 0 <= i < |s'.requests| ensures Kept(s', i) {
      assert Kept(s, i);
    }
  }

  lemma FailKeepsInv(s: Sys, step: Step)
    requires Inv(s) && step.Fail? && Enabled(s, step)
    ensures Inv(Next(s, step))
  {
    var s' := Next(s, step);
    forall i | 0 <= i < |s'.requests| ensures Kept(s', i) {
      assert Kept(s, i);
    }
  }

  lemma OtherKeepsInv(s: Sys, step: Step)
    requires Inv(s) && Enabled(s, step) && (step.StartWorker? || step.Crash? || step.Clear?)
    ensures Inv(Next(s, step))
  {
    var s' := Next(s, step);
    forall i | 0 <= i < |s'.requests| ensures Kept(s', i) {
      assert Kept(s, i);
    }
  }

  lemma NextKeepsInv(s: Sys, step: Step)
    requires Inv(s) && Enabled(s, step)
    ensures Inv(Next(s, step))
  {
    match step
    case Enqueue(_, _, _, _, _) => EnqueueKeepsInv(s, step);
    case Claim(_, _) => ClaimKeepsInv(s, step);
    case Complete => CompleteKeepsInv(s);
    case Fail(_, _) => FailKeepsInv(s, step);
    case _ => OtherKeepsInv(s, step);
  }

  lemma {:induction false} RunKeepsInv(s: Sys, steps: seq<Step>)
    requires Inv(s)
    ensures Inv(Run(s, steps))
    decreases |steps|
  {
    if steps != [] {
      if Enabled(s, steps[0]) {
        NextKeepsInv(s, steps[0]);
      }
      RunKeepsInv(if Enabled(s, steps[0]) then Next(s, steps[0]) else s, steps[1..]);
    }
  }

  /** No request is lost over any run: it is part of a pending, running or dead task of its kind, it
      was part of a task claimed after it and completed, or the queue was cleared explicitly. */
  lemma NoRequestLost(steps: seq<Step>, i: nat)
    requires i < |Run(EMPTY, steps).requests|
    ensures |Run(EMPTY, steps).fates| == |Run(EMPTY, steps).requests| && Kept(Run(EMPTY, steps), i)
  {
    RunKeepsInv(EMPTY, steps);
  }

  // ---------------------------------------------------------------------------
  // Bounded work
  // ---------------------------------------------------------------------------

  /** Claims made so far and claims the rows can still cost. */
  ghost function Budget(s: Sys): nat {
    s.claims + Sum(Lefts(s.tasks))
  }

  ghost function Cost(step: Step): nat {
    if step.Enqueue? && step.twin.None? then MAX_ATTEMPTS else 0
  }

  lemma EnqueueKeepsBudget(s: Sys, step: Step)
    requires Inv(s) && step.Enqueue? && Enabled(s, step)
    ensures Budget(Next(s, step)) <= Budget(s) + Cost(step)
  {
    var s' := Next(s, step);
    if step.twin.None? {
      SumUpdate(Lefts(s.tasks), step.newId, MAX_ATTEMPTS);
      assert Lefts(s'.tasks) == Lefts(s.tasks)[step.newId := MAX_ATTEMPTS];
    } else {
      assert Lefts(s'.tasks) == Lefts(s.tasks);
    }
  }

  lemma ClaimKeepsBudget(s: Sys, step: Step)
    requires Inv(s) && step.Claim? && Enabled(s, step)
    ensures Budget(Next(s, step)) <= Budget(s)
  {
    var s' := Next(s, step);
    SumUpdate(Lefts(s.tasks), step.id, Left(s'.tasks[step.id]));
    assert Lefts(s'.tasks) == Lefts(s.tasks)[step.id := Left(s'.tasks[step.id])];
  }

  lemma CompleteKeepsBudget(s: Sys)
    requires Inv(s) && Enabled(s, Complete)
    ensures Budget(Next(s, Complete)) <= Budget(s)
  {
    var s', id := Next(s, Complete), s.worker.held.value.id;
    SumRemove(Lefts(s.tasks), id);
    assert Lefts(s'.tasks) == Lefts(s.tasks) || Lefts(s'.tasks) == Lefts(s.tasks) - {id};
  }

  lemma NextKeepsBudget(s: Sys, step: Step)
    requires Inv(s) && Enabled(s, step)
    ensures Budget(Next(s, step)) <= Budget(s) + Cost(step)
  {
    match step
    case Enqueue(_, _, _, _, _) => EnqueueKeepsBudget(s, step);
    case Claim(_, _) => ClaimKeepsBudget(s, step);
    case Complete => CompleteKeepsBudget(s);
    case Clear => AllZero(Lefts(Next(s, step).tasks));
    case _ => assert Lefts(Next(s, step).tasks) == Lefts(s.tasks);
  }

  lemma {:induction false} RunKeepsBudget(s: Sys, steps: seq<Step>)
    requires Inv(s)
    ensures Run(s, steps).added >= s.added
    ensures Budget(Run(s, steps)) <= Budget(s) + MAX_ATTEMPTS * (Run(s, steps).added - s.added)
    decreases |steps|
  {
    if steps != [] {
      var next := if Enabled(s, steps[0]) then Next(s, steps[0]) else s;
      if Enabled(s, steps[0]) {
        NextKeepsInv(s, steps[0]);
        NextKeepsBudget(s, steps[0]);
      }
      RunKeepsBudget(next, steps[1..]);
    }
  }

  /** Whatever crashes, retries and coalesces, a row is claimed at most three times: n new rows cost
      at most 3n claims, and a queue nobody adds to is drained within what its rows have left. */
  lemma ClaimsAreBounded(steps: seq<Step>, more: seq<Step>)
    ensures var s, s' := Run(EMPTY, steps), Run(Run(EMPTY, steps), more);
      && s.claims <= MAX_ATTEMPTS * s.added && s.added <= |s.requests|
      && (s'.added == s.added ==> s'.claims - s.claims <= Sum(Lefts(s.tasks)) <= MAX_ATTEMPTS * s.added)
  {
    BudgetFromEmpty(steps);
    RunKeepsBudget(Run(EMPTY, steps), more);
  }

  lemma BudgetFromEmpty(steps: seq<Step>)
    ensures var s := Run(EMPTY, steps);
      Inv(s) && Budget(s) <= MAX_ATTEMPTS * s.added && s.added <= |s.requests|
  {
    EmptyHasNoBudget();
    BudgetFrom(EMPTY, steps);
  }

  lemma BudgetFrom(start: Sys, steps: seq<Step>)
    requires Inv(start) && Budget(start) == 0 && start.added == 0
    ensures var s := Run(start, steps);
      Inv(s) && Budget(s) <= MAX_ATTEMPTS * s.added && s.added <= |s.requests|
  {
    RunKeepsInv(start, steps);
    RunKeepsBudget(start, steps);
    AddedIsRequested(start, steps);
  }

  lemma EmptyHasNoBudget()
    ensures Inv(EMPTY) && Budget(EMPTY) == 0 && EMPTY.added == 0 && EMPTY.requests == []
  {
    assert Lefts(EMPTY.tasks) == map[];
  }

  lemma {:induction false} AddedIsRequested(s: Sys, steps: seq<Step>)
    requires s.added <= |s.requests|
    ensures Run(s, steps).added <= |Run(s, steps).requests|
    decreases |steps|
  {
    if steps != [] {
      AddedIsRequested(if Enabled(s, steps[0]) then Next(s, steps[0]) else s, steps[1..]);
    }
  }

  ghost predicate Best(tasks: Tasks, ids: set<nat>, best: nat)
    requires ids <= tasks.Keys
  {
    best in ids && forall other :: other in ids ==> Sooner(tasks, best, other)
  }

  lemma {:induction false} BestExists(tasks: Tasks, ids: set<nat>)
    requires ids != {} && ids <= tasks.Keys
    ensures exists best :: Best(tasks, ids, best)
    decreases ids
  {
    var x :| x in ids;
    var rest := ids - {x};
    if rest == {} {
      assert ids == {x};
      assert Best(tasks, ids, x);
    } else {
      BestExists(tasks, rest);
      var b :| Best(tasks, rest, b);
      if Sooner(tasks, x, b) {
        assert Best(tasks, rest + {x}, x);
      } else {
        assert Best(tasks, rest + {x}, b);
      }
      assert rest + {x} == ids;
    }
  }

  /** Whenever some pending task is past its backoff there is one to claim. */
  lemma NextExists(tasks: Tasks, now: real, due: nat)
    requires Due(tasks, now, due)
    ensures exists id :: IsNext(tasks, now, id)
  {
    var ids := set id | id in tasks && Due(tasks, now, id);
    assert due in ids;
    BestExists(tasks, ids);
    var best :| Best(tasks, ids, best);
    assert IsNext(tasks, now, best);
  }

  lemma NextIsUnique(tasks: Tasks, now: real, a: nat, b: nat)
    requires IsNext(tasks, now, a) && IsNext(tasks, now, b)
    ensures a == b
  {
  }

  // ---------------------------------------------------------------------------
  // The order of work
  // ---------------------------------------------------------------------------

  /** The rows that a new one comes before are exactly the due ones of a lower priority; of all others
      the next one stays the next. */
  lemma NewRowsPlace(tasks: Tasks, now: real, id: nat, kind: string, payload: Payload, priority: int)
    requires IsFreshId(tasks, id) && now >= 0.0
    ensures var tasks' := Added(tasks, id, kind, payload, priority);
      && (IsNext(tasks', now, id) <==>
            forall other :: other in tasks && Due(tasks, now, other) ==> tasks[other].priority < priority)
      && forall other :: other in tasks ==>
           (IsNext(tasks', now, other) <==> IsNext(tasks, now, other) && tasks[other].priority >= priority)
  {
    var tasks' := Added(tasks, id, kind, payload, priority);
    assert Due(tasks', now, id);
    forall other | other in tasks ensures Due(tasks', now, other) <==> Due(tasks, now, other) {
    }
    if forall other :: other in tasks && Due(tasks, now, other) ==> tasks[other].priority < priority {
      forall other | other in tasks' && Due(tasks', now, other) ensures Sooner(tasks', id, other) {
      }
    }
    forall other | other in tasks && IsNext(tasks, now, other) && tasks[other].priority >= priority
      ensures IsNext(tasks', now, other)
    {
      forall more | more in tasks' && Due(tasks', now, more) ensures Sooner(tasks', other, more) {
      }
    }
  }

  /** Raising a pending row never makes it later: if it was the next one it still is, and any row that
      was not outranked by its new priority keeps its place before it. */
  lemma CoalescingKeepsThePlace(tasks: Tasks, now: real, id: nat, payload: Payload, priority: int)
    requires id in tasks && IsNext(tasks, now, id)
    ensures IsNext(Coalesced(tasks, id, payload, priority), now, id)
  {
    var tasks' := Coalesced(tasks, id, payload, priority);
    forall other | other in tasks' && Due(tasks', now, other) ensures Sooner(tasks', id, other) {
      assert Due(tasks, now, other);
    }
  }

  /** A row that waits with the priority its kind has by default. */
  predicate IsBackfill(t: Task) {
    (t.kind == EMBED || t.kind == "postprocess") && t.kind in DEFAULT_PRIORITIES && t.priority == DEFAULT_PRIORITIES[t.kind]
  }

  lemma BackfillIsLow(t: Task)
    requires IsBackfill(t)
    ensures t.priority < DEFAULT_PRIORITIES["update"] == DEFAULT_PRIORITIES["prepare"]
  {
  }

  /** An edit does not sit behind a backfill: an update added after embeddings and postprocessing, each
      with its own priority, is the only next one. */
  lemma UpdateOvertakesEmbeds(tasks: Tasks, now: real, id: nat, payload: Payload)
    requires IsFreshId(tasks, id) && now >= 0.0
    requires forall other :: other in tasks && Due(tasks, now, other) ==> IsBackfill(tasks[other])
    ensures var tasks' := Added(tasks, id, "update", payload, DEFAULT_PRIORITIES["update"]);
      IsNext(tasks', now, id) && forall other :: IsNext(tasks', now, other) ==> other == id
  {
    forall other | other in tasks && Due(tasks, now, other)
      ensures tasks[other].priority < DEFAULT_PRIORITIES["update"]
    {
      BackfillIsLow(tasks[other]);
    }
    OnlyNext(tasks, now, id, "update", payload, DEFAULT_PRIORITIES["update"]);
  }

  lemma OnlyNext(tasks: Tasks, now: real, id: nat, kind: string, payload: Payload, priority: int)
    requires IsFreshId(tasks, id) && now >= 0.0
    requires forall other :: other in tasks && Due(tasks, now, other) ==> tasks[other].priority < priority
    ensures var tasks' := Added(tasks, id, kind, payload, priority);
      IsNext(tasks', now, id) && forall other :: IsNext(tasks', now, other) ==> other == id
  {
    NewRowsPlace(tasks, now, id, kind, payload, priority);
    var tasks' := Added(tasks, id, kind, payload, priority);
    forall other | IsNext(tasks', now, other) ensures other == id {
      NextIsUnique(tasks', now, id, other);
    }
  }

  // ---------------------------------------------------------------------------
  // Attempts
  // ---------------------------------------------------------------------------

  /** The row is claimed and its work fails, but not for good. */
  function Retry(tasks: Tasks, id: nat, notBefore: real): Tasks
    requires id in tasks
  {
    var claimed := Claimed(tasks, id);
    Failed(claimed, id, claimed[id].attempts, false, notBefore)
  }

  function Retries(tasks: Tasks, id: nat, notBefore: nat -> real, n: nat): (r: Tasks)
    requires id in tasks
    ensures id in r
  {
    if n == 0 then tasks else Retry(Retries(tasks, id, notBefore, n - 1), id, notBefore(n))
  }

  /** A task that keeps failing is put back, due after its delay and with its work as it was, until it
      was claimed three times; the third failure parks it. No other row is touched. */
  lemma {:induction false} ThreeAttempts(tasks: Tasks, id: nat, notBefore: nat -> real, n: nat)
    requires id in tasks && tasks[id].state.Pending? && 0 <= tasks[id].attempts < MAX_ATTEMPTS
    requires n <= MAX_ATTEMPTS - tasks[id].attempts
    ensures Retries(tasks, id, notBefore, n) == tasks[id := tasks[id].(
      attempts := tasks[id].attempts + n,
      state := if tasks[id].attempts + n < MAX_ATTEMPTS then Pending else Dead,
      notBefore := if n == 0 then tasks[id].notBefore
                   else if tasks[id].attempts + n < MAX_ATTEMPTS then notBefore(n)
                   else if n == 1 then tasks[id].notBefore else notBefore(n - 1))]
  {
    if n == 0 {
      assert tasks == tasks[id := tasks[id]];
    } else {
      ThreeAttempts(tasks, id, notBefore, n - 1);
    }
  }
}
