/** The queue as the object hooks and the worker call: each method is one transaction on the task
    rows, tied to the row operations of the state machine, and writes the bounded task log. */
module TaskQueueStore {
  import opened Wrappers
  import opened TaskPayload
  import Q = TaskQueue

  const LOG_RETENTION := 200

  datatype LogRow = LogRow(id: int, task: nat, kind: string, state: string)

  /** Rows with an id above a bound, in order. */
  function Above(log: seq<LogRow>, bound: int): seq<LogRow> {
    if log == [] then []
    else (if log[0].id > bound then [log[0]] else []) + Above(log[1..], bound)
  }

  ghost predicate Numbered(log: seq<LogRow>, first: int) {
    forall i :: 0 <= i < |log| ==> log[i].id == first + i
  }

  lemma {:induction false} AboveIsSuffix(log: seq<LogRow>, first: int, bound: int)
    requires Numbered(log, first)
    ensures Above(log, bound) == if bound < first then log else if bound - first < |log| then log[bound - first + 1..] else []
  {
    if log != [] {
      assert Numbered(log[1..], first + 1);
      AboveIsSuffix(log[1..], first + 1, bound);
      assert log[0].id == first;
      if bound < first {
        assert log == [log[0]] + log[1..];
      } else if bound - first < |log| {
        assert log[bound - first + 1..] == if bound == first then log[1..] else log[1..][bound - first..];
      }
    }
  }

  /** The last rows of a history, at most the retention. */
  ghost function Tail(history: seq<LogRow>): seq<LogRow> {
    if |history| <= LOG_RETENTION then history else history[|history| - LOG_RETENTION..]
  }

  /** Appending a row and deleting the ids that fell out of the retention keeps the tail. */
  lemma TailGrows(history: seq<LogRow>, row: LogRow)
    requires Numbered(history, 1) && row.id == |history| + 1
    ensures Above(Tail(history) + [row], row.id - LOG_RETENTION) == Tail(history + [row])
    ensures Numbered(history + [row], 1)
  {
    TailIsNumbered(history, row);
    AboveIsSuffix(Tail(history) + [row], |history| - |Tail(history)| + 1, row.id - LOG_RETENTION);
    TailOfGrown(history, row);
  }

  lemma TailOfGrown(history: seq<LogRow>, row: LogRow)
    ensures Tail(history + [row]) ==
      if |history| >= LOG_RETENTION then (Tail(history) + [row])[1..] else Tail(history) + [row]
  {
  }

  lemma TailIsNumbered(history: seq<LogRow>, row: LogRow)
    requires Numbered(history, 1) && row.id == |history| + 1
    ensures Numbered(Tail(history) + [row], |history| - |Tail(history)| + 1)
    ensures Numbered(history + [row], 1)
  {
  }

  datatype Action = WasAdded | WasCoalesced

  lemma {:induction false} LargestExists(ids: set<nat>)
    requires ids != {}
    ensures exists m :: m in ids && forall x :: x in ids ==> x <= m
    decreases ids
  {
    var x :| x in ids;
    var rest := ids - {x};
    assert forall y :: y in ids ==> y == x || y in rest;
    if rest != {} {
      LargestExists(rest);
      var m :| m in rest && forall y :: y in rest ==> y <= m;
      assert m in ids && x in ids;
    }
  }

  /** The rows a dead worker left running. */
  function Orphaned(tasks: Q.Tasks): set<nat> {
    set id | id in tasks && tasks[id].state.Running?
  }

  /** A running row is put back, or parked when its attempts are spent; any other stays. */
  predicate IsRecovered(before: Q.Task, after: Q.Task) {
    if before.state != Q.Running then after == before
    else if before.attempts < Q.MAX_ATTEMPTS then after == before.(state := Q.Pending)
    else after == before.(state := Q.Dead)
  }

  lemma AllRecovered(tasks: Q.Tasks)
    ensures Q.Requeued(tasks).Keys == tasks.Keys
    ensures forall id :: id in tasks ==> IsRecovered(tasks[id], Q.Requeued(tasks)[id])
  {
  }

  ghost function RecoveredSome(tasks: Q.Tasks, ids: set<nat>): Q.Tasks {
    map id | id in tasks :: if id in ids then Q.Recovered(tasks[id]) else tasks[id]
  }

  lemma RecoveredOneMore(tasks: Q.Tasks, ids: set<nat>, id: nat)
    requires id in tasks && id !in ids
    ensures RecoveredSome(tasks, ids + {id}) == RecoveredSome(tasks, ids)[id := Q.Recovered(tasks[id])]
    ensures RecoveredSome(tasks, ids)[id] == tasks[id]
  {
  }

  /** A log row that tells of a recovered task: put back, or parked with its attempts spent. */
  ghost predicate IsRecovery(tasks: Q.Tasks, row: LogRow) {
    && row.task in tasks && row.kind == tasks[row.task].kind
    && row.state == if tasks[row.task].attempts >= Q.MAX_ATTEMPTS then "dead" else "requeued"
  }

  ghost predicate IsNoted(before: seq<LogRow>, history: seq<LogRow>, id: nat) {
    exists k :: |before| <= k < |history| && history[k].task == id
  }

  /** The log rows since tell of these tasks and of no others. */
  ghost predicate Recoveries(tasks: Q.Tasks, before: seq<LogRow>, history: seq<LogRow>, ids: set<nat>) {
    && before <= history
    && (forall k :: |before| <= k < |history| ==> history[k].task in ids && IsRecovery(tasks, history[k]))
    && forall id :: id in ids ==> IsNoted(before, history, id)
  }

  lemma OneRecoveryMore(tasks: Q.Tasks, before: seq<LogRow>, middle: seq<LogRow>, after: seq<LogRow>, ids: set<nat>, id: nat)
    requires Recoveries(tasks, before, middle, ids)
    requires |after| == |middle| + 1 && after[..|middle|] == middle
    requires after[|middle|].task == id && IsRecovery(tasks, after[|middle|])
    ensures Recoveries(tasks, before, after, ids + {id})
  {
    forall other | other in ids + {id} ensures IsNoted(before, after, other) {
      if other in ids {
        assert IsNoted(before, middle, other);
        var k :| |before| <= k < |middle| && middle[k].task == other;
        assert after[k] == middle[k];
      } else {
        assert after[|middle|].task == other;
      }
    }
    assert forall k :: 0 <= k < |middle| ==> after[k] == middle[k];
  }

  /** Some of the orphaned rows are recovered and told of. */
  ghost predicate Halfway(before: Q.Tasks, log: seq<LogRow>, tasks: Q.Tasks, history: seq<LogRow>, done: set<nat>) {
    && tasks == RecoveredSome(before, done)
    && Recoveries(before, log, history, done) && |history| == |log| + |done|
  }

  lemma HalfwayStarts(before: Q.Tasks, log: seq<LogRow>)
    ensures Halfway(before, log, before, log, {})
  {
  }

  lemma HalfwayEnds(before: Q.Tasks, log: seq<LogRow>, tasks: Q.Tasks, history: seq<LogRow>, done: set<nat>)
    requires Halfway(before, log, tasks, history, done) && done == Orphaned(before)
    ensures tasks == Q.Requeued(before)
  {
  }

  lemma HalfwayMore(before: Q.Tasks, log: seq<LogRow>, middle: Q.Tasks, noted: seq<LogRow>, tasks: Q.Tasks,
    history: seq<LogRow>, done: set<nat>, id: nat)
    requires Halfway(before, log, middle, noted, done) && id in before && id !in done
    requires tasks == middle[id := Q.Recovered(middle[id])]
    requires |history| == |noted| + 1 && history[..|noted|] == noted
    requires history[|noted|].task == id && IsRecovery(middle, history[|noted|])
    ensures Halfway(before, log, tasks, history, done + {id})
  {
    RecoveredOneMore(before, done, id);
    OneRecoveryMore(before, log, noted, history, done, id);
  }

  class TaskQueue {
    var tasks: Q.Tasks
    var log: seq<LogRow>
    ghost var history: seq<LogRow>

    /** The log is the tail of everything ever logged, numbered without gaps. */
    ghost predicate Valid()
      reads this
    {
      Numbered(history, 1) && log == Tail(history)
    }

    constructor ()
      ensures Valid() && tasks == map[] && history == []
    {
      tasks, log, history := map[], [], [];
    }

    method Log(task: nat, kind: string, state: string)
      requires Valid()
      modifies this`log, this`history
      ensures Valid() && history == old(history) + [LogRow(|old(history)| + 1, task, kind, state)]
    {
      var id := if log == [] then 1 else log[|log| - 1].id + 1;
      var row := LogRow(id, task, kind, state);
      TailGrows(history, row);
      log := Above(log + [row], id - LOG_RETENTION);
      history := history + [row];
    }

    /** One more than the largest row id. */
    method NextId() returns (id: nat)
      requires forall other :: other in tasks ==> other >= 1
      ensures Q.IsFreshId(tasks, id)
    {
      if tasks == map[] {
        return 1;
      }
      LargestExists(tasks.Keys);
      var m :| m in tasks && forall x :: x in tasks ==> x <= m;
      return m + 1;
    }

    /** Add a task, or fold the request into a pending one of the same kind; never into a running one. */
    method Enqueue(kind: string, payload: Payload, priority: Option<int>) returns (r: Result<(Action, nat), string>)
      requires forall other :: other in tasks ==> other >= 1
      modifies this`tasks
      ensures r.Err? <==> kind !in Q.TASK_KINDS
      ensures r.Err? ==> tasks == old(tasks)
      ensures r.Ok? ==>
        var p := if priority.Some? then priority.value else Q.DEFAULT_PRIORITIES[kind];
        match r.value
        case (WasCoalesced, id) =>
          && id in old(tasks) && old(tasks)[id].state == Q.Pending && old(tasks)[id].kind == kind
          && tasks == Q.Coalesced(old(tasks), id, payload, p)
          && tasks == old(tasks)[id := old(tasks)[id].(
               payload := Merge(kind, old(tasks)[id].payload, payload),
               priority := if p > old(tasks)[id].priority then p else old(tasks)[id].priority)]
        case (WasAdded, id) =>
          && (forall other :: other in old(tasks) ==> other < id)
          && (forall other :: other in old(tasks) ==> !(old(tasks)[other].state == Q.Pending && old(tasks)[other].kind == kind))
          && Q.IsFreshId(old(tasks), id) && tasks == Q.Added(old(tasks), id, kind, payload, p)
          && tasks == old(tasks)[id := Q.Task(kind, p, payload, Q.Pending, 0, 0.0)]
      ensures forall other :: other in tasks ==> other >= 1
    {
      if kind !in Q.TASK_KINDS {
        return Err("unknown task kind");
      }
      var p := if priority.Some? then priority.value else Q.DEFAULT_PRIORITIES[kind];
      if twin :| twin in tasks && Q.IsTwin(tasks, kind, twin) {
        tasks := Q.Coalesced(tasks, twin, payload, p);
        return Ok((WasCoalesced, twin));
      }
      var id := NextId();
      tasks := Q.Added(tasks, id, kind, payload, p);
      return Ok((WasAdded, id));
    }

    /** Take the due task of highest priority, the oldest among equals. */
    method Claim(now: real) returns (r: Option<(nat, Q.Task)>)
      requires Valid()
      modifies this
      ensures Valid()
      ensures r.None? <==> forall id :: id in old(tasks) ==>
        !(old(tasks)[id].state == Q.Pending && old(tasks)[id].notBefore <= now)
      ensures r.None? ==> tasks == old(tasks) && history == old(history)
      ensures r.Some? ==> var (id, task) := r.value;
        && Q.IsNext(old(tasks), now, id) && tasks == Q.Claimed(old(tasks), id)
        && old(tasks)[id].state == Q.Pending && old(tasks)[id].notBefore <= now
        && (forall other :: other in old(tasks) && old(tasks)[other].state == Q.Pending && old(tasks)[other].notBefore <= now ==>
              old(tasks)[other].priority < task.priority || (old(tasks)[other].priority == task.priority && id <= other))
        && task == old(tasks)[id].(state := Q.Running, attempts := old(tasks)[id].attempts + 1)
        && tasks == old(tasks)[id := task]
        && history == old(history) + [LogRow(|old(history)| + 1, id, task.kind, "running")]
    {
      if id :| id in tasks && Q.IsNext(tasks, now, id) {
        var kind := tasks[id].kind;
        tasks := Q.Claimed(tasks, id);
        Log(id, kind, "running");
        return Some((id, tasks[id]));
      }
      forall id | id in tasks ensures !(tasks[id].state == Q.Pending && tasks[id].notBefore <= now) {
        if Q.Due(tasks, now, id) {
          Q.NextExists(tasks, now, id);
          assert false;
        }
      }
      return None;
    }

    /** Drop a running task; a row that is no longer running stays. */
    method Complete(id: nat, kind: string)
      requires Valid()
      modifies this
      ensures Valid() && tasks == Q.Completed(old(tasks), id)
      ensures tasks == if id in old(tasks) && old(tasks)[id].state == Q.Running then old(tasks) - {id} else old(tasks)
      ensures history == old(history) + [LogRow(|old(history)| + 1, id, kind, "done")]
    {
      Log(id, kind, "done");
      if id in tasks && tasks[id].state.Running? {
        tasks := tasks - {id};
      }
    }

    /** Record a failure, judged by the attempts of the claimed copy; true when it will be retried. */
    method Fail(id: nat, kind: string, attempts: int, fatal: bool, now: real, retryDelay: real) returns (retried: bool)
      requires Valid()
      modifies this
      ensures Valid() && retried == (!fatal && attempts < Q.MAX_ATTEMPTS)
      ensures tasks == Q.Failed(old(tasks), id, attempts, fatal, now + if retryDelay > 0.0 then retryDelay else 0.0)
      ensures id in old(tasks) && retried ==> tasks == old(tasks)[id := old(tasks)[id].(
        state := Q.Pending, notBefore := now + if retryDelay > 0.0 then retryDelay else 0.0)]
      ensures id in old(tasks) && !retried ==> tasks == old(tasks)[id := old(tasks)[id].(state := Q.Dead)]
      ensures id !in old(tasks) ==> tasks == old(tasks)
      ensures history == old(history) + [LogRow(|old(history)| + 1, id, kind, if retried then "retry" else "dead")]
    {
      if fatal || attempts >= Q.MAX_ATTEMPTS {
        Log(id, kind, "dead");
        tasks := Q.Parked(tasks, id);
        return false;
      }
      Log(id, kind, "retry");
      tasks := Q.Retried(tasks, id, now + if retryDelay > 0.0 then retryDelay else 0.0);
      return true;
    }

    /** Put one row back, or park it when its attempts are spent. */
    method RequeueOne(id: nat)
      requires Valid() && id in tasks && tasks[id].state.Running?
      modifies this
      ensures Valid() && tasks == old(tasks)[id := Q.Recovered(old(tasks)[id])]
      ensures |history| == |old(history)| + 1 && history[..|old(history)|] == old(history)
      ensures history[|old(history)|].task == id && IsRecovery(old(tasks), history[|old(history)|])
    {
      var row := tasks[id];
      if row.attempts >= Q.MAX_ATTEMPTS {
        Log(id, row.kind, "dead");
        tasks := Q.Parked(tasks, id);
      } else {
        Log(id, row.kind, "requeued");
        tasks := tasks[id := row.(state := Q.Pending)];
      }
    }

    method RequeueNext(id: nat, ghost before: Q.Tasks, ghost noted: seq<LogRow>, ghost done: set<nat>)
      requires Valid() && Halfway(before, noted, tasks, history, done)
      requires id in Orphaned(before) && id !in done
      modifies this
      ensures Valid() && Halfway(before, noted, tasks, history, done + {id})
    {
      RecoveredOneMore(before, done, id);
      RequeueOne(id);
      HalfwayMore(before, noted, old(tasks), old(history), tasks, history, done, id);
    }

    /** Every running row, and each is told of once in the log. */
    method RequeueStale() returns (recovered: nat)
      requires Valid()
      modifies this
      ensures Valid() && tasks == Q.Requeued(old(tasks)) && tasks.Keys == old(tasks).Keys
      ensures forall id :: id in tasks ==> IsRecovered(old(tasks)[id], tasks[id])
      ensures recovered == |Orphaned(old(tasks))|
      ensures |history| == |old(history)| + recovered
      ensures Recoveries(old(tasks), old(history), history, Orphaned(old(tasks)))
    {
      var rows := Orphaned(tasks);
      recovered := |rows|;
      ghost var done: set<nat> := {};
      HalfwayStarts(tasks, history);
      while rows != {}
        invariant Valid() && rows !! done && rows + done == Orphaned(old(tasks))
        invariant Halfway(old(tasks), old(history), tasks, history, done)
        decreases rows
      {
        var id :| id in rows;
        RequeueNext(id, old(tasks), old(history), done);
        rows, done := rows - {id}, done + {id};
      }
      HalfwayEnds(old(tasks), old(history), tasks, history, done);
      AllRecovered(old(tasks));
    }

    /** Drop every queued task. */
    method Clear() returns (removed: nat)
      modifies this`tasks
      ensures tasks == map[] && removed == |old(tasks)|
    {
      removed := |tasks|;
      tasks := map[];
    }
  }
}
