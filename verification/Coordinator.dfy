/** The plan scheduler (packages/agent/src/execution/coordinator.ts). */
module Coordinator {
  import opened Wrappers
  import opened ExecutionTypes
  import opened Locks
  import opened PlanMeaning

  /** The `pending` array and the insertion-ordered `completed` map of the scheduler. */
  datatype Ledger = Ledger(pending: seq<Task>, completed: Completed, order: seq<string>)

  /** The first dependency, in the task's own order, that has completed and failed or escalated. */
  function FindBlockingDependency(dependencies: seq<string>, completed: Completed): (r: Option<TaskResult>)
    ensures r.Some? <==> exists d | d in dependencies :: d in completed && Fatal(completed[d].status)
  {
    if dependencies == [] then None
    else if dependencies[0] in completed && Fatal(completed[dependencies[0]].status) then Some(completed[dependencies[0]])
    else FindBlockingDependency(dependencies[1..], completed)
  }

  function BlockedResult(task: Task, blocking: TaskResult, rootTraceId: string): TaskResult {
    var message := "Blocked by dependency " + blocking.taskId + ": " + blocking.summary;
    TaskResult(task.id, task.rootTaskId, task.parentTaskId, task.depth, task.specialist, Failed, message, None,
               [Issue("blocked_dependency", message, Some((blocking.taskId, blocking.status)))], "", rootTraceId)
  }

  /** `findIndex`, with the length of the list for "not found". */
  function IndexOf(pending: seq<Task>, id: string): (k: nat)
    ensures k <= |pending|
    ensures k < |pending| ==> pending[k].id == id
  {
    if pending == [] || pending[0].id == id then 0 else 1 + IndexOf(pending[1..], id)
  }

  lemma {:induction false} IndexOfFirst(pending: seq<Task>, id: string)
    ensures forall i | 0 <= i < IndexOf(pending, id) :: pending[i].id != id
  {
    if pending != [] && pending[0].id != id {
      IndexOfFirst(pending[1..], id);
    }
  }

  function RemoveById(pending: seq<Task>, id: string): (r: seq<Task>)
    ensures |r| <= |pending|
  {
    var k := IndexOf(pending, id);
    if k < |pending| then pending[..k] + pending[k + 1..] else pending
  }

  lemma RemoveShrinks(pending: seq<Task>, i: nat)
    requires i < |pending|
    ensures |RemoveById(pending, pending[i].id)| < |pending|
  {
    IndexOfFirst(pending, pending[i].id);
  }

  function Settle(l: Ledger, result: TaskResult): Ledger {
    Ledger(
      RemoveById(l.pending, result.taskId),
      l.completed[result.taskId := result],
      if result.taskId in l.completed then l.order else l.order + [result.taskId])
  }

  /** Fails a task that has a failed dependency, and leaves any other task pending. */
  function FailIfBlocked(task: Task, l: Ledger, rootTraceId: string): Ledger {
    match FindBlockingDependency(task.dependencies, l.completed)
    case None => l
    case Some(blocking) => Settle(l, BlockedResult(task, blocking, rootTraceId))
  }

  function Sweep(todo: seq<Task>, l: Ledger, rootTraceId: string): (r: Ledger)
    ensures |r.pending| <= |l.pending|
  {
    if todo == [] then l
    else FailIfBlocked(todo[|todo| - 1], Sweep(todo[..|todo| - 1], l, rootTraceId), rootTraceId)
  }

  function SettleAll(l: Ledger, results: seq<TaskResult>): (r: Ledger)
    ensures |r.pending| <= |l.pending|
  {
    if results == [] then l
    else Settle(SettleAll(l, results[..|results| - 1]), results[|results| - 1])
  }

  lemma {:induction false} SettleAllShrinks(l: Ledger, results: seq<TaskResult>, i: nat)
    requires results != [] && i < |l.pending| && l.pending[i].id == results[0].taskId
    ensures |SettleAll(l, results).pending| < |l.pending|
  {
    var shorter := results[..|results| - 1];
    if shorter == [] {
      RemoveShrinks(l.pending, i);
      assert SettleAll(l, shorter) == l;
    } else {
      SettleAllShrinks(l, shorter, i);
    }
  }

  function InputBindings(task: Task, completed: Completed): Bindings {
    map d | d in task.dependencies && d in completed :: BindingOf(completed[d])
  }

  function RunBatch(run: Runner, batch: seq<Task>, completed: Completed): (results: seq<TaskResult>)
    ensures |results| == |batch|
    ensures forall i | 0 <= i < |batch| :: results[i] == RunTask(run, batch[i], InputBindings(batch[i], completed))
  {
    seq(|batch|, i requires 0 <= i < |batch| => RunTask(run, batch[i], InputBindings(batch[i], completed)))
  }

  /** The completed results in insertion order. */
  function Results(order: seq<string>, completed: Completed): seq<TaskResult> {
    if order == [] then []
    else
      var rest := Results(order[..|order| - 1], completed);
      if order[|order| - 1] in completed then rest + [completed[order[|order| - 1]]] else rest
  }

  /** What was known when a batch started. */
  datatype Round = Round(before: Ledger, batch: seq<Task>)

  datatype Ending = Finished(results: seq<TaskResult>) | Stuck

  datatype Schedule = Schedule(rounds: seq<Round>, ending: Ending)

  /** The whole run of the scheduler from a ledger on. `cap` is 1 unless the strategy is parallel. */
  function ScheduleFrom(l: Ledger, cap: int, run: Runner, rootTraceId: string): Schedule
    decreases |l.pending|
  {
    if l.pending == [] then Schedule([], Finished(Results(l.order, l.completed)))
    else
      var swept := Sweep(l.pending, l, rootTraceId);
      if |swept.pending| < |l.pending| then ScheduleFrom(swept, cap, run, rootTraceId)
      else
        var batch := ReadyBatch(l.pending, l.completed, [], cap);
        if batch == [] then Schedule([], Stuck)
        else
          var next := AfterBatch(l, cap, run);
          var rest := ScheduleFrom(next, cap, run, rootTraceId);
          Schedule([Round(l, batch)] + rest.rounds, rest.ending)
  }

  function AfterBatch(l: Ledger, cap: int, run: Runner): (next: Ledger)
    ensures ReadyBatch(l.pending, l.completed, [], cap) != [] ==> |next.pending| < |l.pending|
  {
    var batch := ReadyBatch(l.pending, l.completed, [], cap);
    BatchConflictFree(l.pending, l.completed, [], cap);
    var results := RunBatch(run, batch, l.completed);
    BatchShrinks(l, batch, results);
    SettleAll(l, results)
  }

  lemma BatchShrinks(l: Ledger, batch: seq<Task>, results: seq<TaskResult>)
    requires |results| == |batch| && forall t | t in batch :: t in l.pending
    requires batch != [] ==> results[0].taskId == batch[0].id
    ensures batch != [] ==> |SettleAll(l, results).pending| < |l.pending|
  {
    if batch != [] {
      assert batch[0] in batch;
      var i :| 0 <= i < |l.pending| && l.pending[i] == batch[0];
      SettleAllShrinks(l, results, i);
    }
  }

  function Start(tasks: seq<Task>): Ledger {
    Ledger(tasks, map[], [])
  }

  // ------------------------------------------------------------------
  // The loop
  // ------------------------------------------------------------------

  method FailBlockedTasks(l: Ledger, rootTraceId: string) returns (r: Ledger, found: bool)
    ensures r == Sweep(l.pending, l, rootTraceId)
    ensures DistinctIds(l.pending) ==> (found <==> |r.pending| < |l.pending|)
  {
    r, found := l, false;
    for i := 0 to |l.pending|
      invariant r == Sweep(l.pending[..i], l, rootTraceId)
      invariant found ==> |r.pending| < |l.pending|
      invariant !found ==> r == l
    {
      var task := l.pending[i];
      assert l.pending[..i + 1][..i] == l.pending[..i];
      var blocking := FindBlockingDependency(task.dependencies, r.completed);
      if blocking.None? {
        continue;
      }
      if !found {
        RemoveShrinks(l.pending, i);
      }
      r := Settle(r, BlockedResult(task, blocking.value, rootTraceId));
      found := true;
    }
    assert l.pending[..|l.pending|] == l.pending;
  }

  /**
   * `executeRequestPlan` from the materialised tasks to the results it hands to the validator. `maxParallelAgents` is
   * the configured budget; `run` stands for `runTaskWithTrace`.
   */
  method ExecuteTasks(strategy: Strategy, tasks: seq<Task>, maxParallelAgents: int, run: Runner, rootTraceId: string)
    returns (ending: Ending, ghost rounds: seq<Round>)
    requires DistinctIds(tasks)
    ensures Schedule(rounds, ending)
         == ScheduleFrom(Start(tasks), if strategy.Parallel? then maxParallelAgents else 1, run, rootTraceId)
  {
    var l := Start(tasks);
    rounds := [];
    var cap := if strategy.Parallel? then maxParallelAgents else 1;
    ghost var whole := ScheduleFrom(l, cap, run, rootTraceId);
    while l.pending != []
      invariant DistinctIds(l.pending)
      invariant whole == var rest := ScheduleFrom(l, cap, run, rootTraceId); Schedule(rounds + rest.rounds, rest.ending)
      decreases |l.pending|
    {
      var swept, found := FailBlockedTasks(l, rootTraceId);
      if found {
        SweepDistinct(l.pending, l, rootTraceId);
        l := swept;
        continue;
      }
      var next, batch := RunReady(strategy, l, cap, run);
      if batch == [] {
        RoundsAdd(rounds, [], []);
        return Stuck, rounds;
      }
      ghost var rest := ScheduleFrom(next, cap, run, rootTraceId);
      RoundsAdd(rounds, [Round(l, batch)], rest.rounds);
      rounds := rounds + [Round(l, batch)];
      AfterBatchDistinct(l, cap, run);
      l := next;
    }
    RoundsAdd(rounds, [], []);
    ending := Finished(Results(l.order, l.completed));
  }

  lemma RoundsAdd(a: seq<Round>, b: seq<Round>, c: seq<Round>)
    ensures a + [] == a && a + (b + c) == a + b + c
  {
  }

  /** Picks a batch, runs it behind a barrier and records its results. Outside the parallel strategy only its first task runs. */
  method RunReady(strategy: Strategy, l: Ledger, cap: int, run: Runner) returns (next: Ledger, batch: seq<Task>)
    requires strategy.Parallel? || cap == 1
    ensures batch == ReadyBatch(l.pending, l.completed, [], cap)
    ensures next == AfterBatch(l, cap, run)
  {
    batch := BuildReadyBatch(l.pending, l.completed, [], cap);
    BatchConflictFree(l.pending, l.completed, [], cap);
    var results: seq<TaskResult> := [];
    if strategy.Parallel? || batch == [] {
      results := RunBatch(run, batch, l.completed);
    } else {
      results := [RunTask(run, batch[0], InputBindings(batch[0], l.completed))];
      assert results == RunBatch(run, batch, l.completed);
    }
    next := RecordAll(l, results);
  }

  method RecordAll(l: Ledger, results: seq<TaskResult>) returns (r: Ledger)
    ensures r == SettleAll(l, results)
  {
    r := l;
    for i := 0 to |results|
      invariant r == SettleAll(l, results[..i])
    {
      assert results[..i + 1][..i] == results[..i];
      r := Settle(r, results[i]);
    }
    assert results[..|results|] == results;
  }

  /** Removing an id from a list without repetition removes that task and nothing else. */
  lemma RemoveDistinct(pending: seq<Task>, id: string)
    requires DistinctIds(pending)
    ensures DistinctIds(RemoveById(pending, id))
    ensures forall t :: t in RemoveById(pending, id) <==> t in pending && t.id != id
  {
    var k := IndexOf(pending, id);
    IndexOfFirst(pending, id);
    if k < |pending| {
      assert pending == pending[..k] + [pending[k]] + pending[k + 1..];
    }
  }

  lemma {:induction false} SweepDistinct(todo: seq<Task>, l: Ledger, rootTraceId: string)
    requires DistinctIds(l.pending)
    ensures DistinctIds(Sweep(todo, l, rootTraceId).pending)
  {
    if todo != [] {
      SweepDistinct(todo[..|todo| - 1], l, rootTraceId);
      RemoveDistinct(Sweep(todo[..|todo| - 1], l, rootTraceId).pending, todo[|todo| - 1].id);
    }
  }

  lemma {:induction false} SettleAllDistinct(l: Ledger, results: seq<TaskResult>)
    requires DistinctIds(l.pending)
    ensures DistinctIds(SettleAll(l, results).pending)
  {
    if results != [] {
      SettleAllDistinct(l, results[..|results| - 1]);
      RemoveDistinct(SettleAll(l, results[..|results| - 1]).pending, results[|results| - 1].taskId);
    }
  }

  lemma AfterBatchDistinct(l: Ledger, cap: int, run: Runner)
    requires DistinctIds(l.pending)
    ensures DistinctIds(AfterBatch(l, cap, run).pending)
  {
    SettleAllDistinct(l, RunBatch(run, ReadyBatch(l.pending, l.completed, [], cap), l.completed));
  }
}
