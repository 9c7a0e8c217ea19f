/** What every run of the plan scheduler does, whatever the strategy and the cap. */
module Scheduling {
  import opened Wrappers
  import opened ExecutionTypes
  import opened Locks
  import opened PlanMeaning
  import opened Coordinator

  ghost predicate IsBlockedResult(r: TaskResult) {
    r.status == Failed && |r.issues| == 1 && r.issues[0].code == "blocked_dependency"
  }

  /** A recorded result says what the verdict says. Of a blocked task only the status and the kind of issue are fixed. */
  ghost predicate Agrees(r: TaskResult, v: Verdict) {
    match v
    case Unresolved => false
    case Blocked => IsBlockedResult(r)
    case Ran(result) => r == result
  }

  ghost predicate Partitioned(g: Graph, l: Ledger) {
    && DistinctIds(l.pending)
    && (forall id | id in g :: g[id].id == id)
    && (forall t | t in l.pending :: t.id in g && g[t.id] == t && t.id !in l.completed)
    && (forall id | id in g :: id in l.completed || g[id] in l.pending)
    && (forall id | id in l.completed :: id in g)
  }

  ghost predicate Sound(g: Graph, run: Runner, completed: Completed) {
    forall id | id in completed :: completed[id].taskId == id && Agrees(completed[id], Meaning(g, run)(id))
  }

  ghost predicate Ordered(l: Ledger) {
    && (forall i, j | 0 <= i < j < |l.order| :: l.order[i] != l.order[j])
    && (forall id :: id in l.order <==> id in l.completed)
  }

  ghost predicate Inv(g: Graph, run: Runner, l: Ledger) {
    Partitioned(g, l) && Sound(g, run, l.completed) && Ordered(l)
  }

  // ------------------------------------------------------------------
  // What each step keeps
  // ------------------------------------------------------------------

  lemma SettleKeeps(g: Graph, run: Runner, l: Ledger, r: TaskResult)
    requires Inv(g, run, l)
    requires r.taskId in g && g[r.taskId] in l.pending && Agrees(r, Meaning(g, run)(r.taskId))
    ensures Inv(g, run, Settle(l, r))
    ensures Settle(l, r).completed == l.completed[r.taskId := r]
    ensures forall t :: t in Settle(l, r).pending <==> t in l.pending && t.id != r.taskId
  {
    RemoveDistinct(l.pending, r.taskId);
    assert g[r.taskId].id == r.taskId;
  }

  lemma BlockedAgrees(g: Graph, run: Runner, l: Ledger, task: Task, rootTraceId: string)
    requires Inv(g, run, l) && task in l.pending
    requires FindBlockingDependency(task.dependencies, l.completed).Some?
    ensures Meaning(g, run)(task.id) == Blocked
    ensures Agrees(BlockedResult(task, FindBlockingDependency(task.dependencies, l.completed).value, rootTraceId), Blocked)
  {
    var d :| d in task.dependencies && d in l.completed && Fatal(l.completed[d].status);
    assert Bad(Meaning(g, run)(d));
    MeaningUnfolds(g, run, task.id);
  }

  lemma FailKeeps(g: Graph, run: Runner, l: Ledger, task: Task, rootTraceId: string)
    requires Inv(g, run, l) && task in l.pending
    ensures Inv(g, run, FailIfBlocked(task, l, rootTraceId))
    ensures forall t | t in l.pending && t.id != task.id :: t in FailIfBlocked(task, l, rootTraceId).pending
  {
    if FindBlockingDependency(task.dependencies, l.completed).Some? {
      BlockedAgrees(g, run, l, task, rootTraceId);
      SettleKeeps(g, run, l, BlockedResult(task, FindBlockingDependency(task.dependencies, l.completed).value, rootTraceId));
    }
  }

  lemma SweepNext(l: Ledger, n: nat, rootTraceId: string)
    requires 0 < n <= |l.pending|
    ensures Sweep(l.pending[..n], l, rootTraceId)
         == FailIfBlocked(l.pending[n - 1], Sweep(l.pending[..n - 1], l, rootTraceId), rootTraceId)
  {
    assert l.pending[..n][..n - 1] == l.pending[..n - 1];
  }

  /** The tasks of `tasks` from position `n` on are pending. */
  ghost predicate StillPending(tasks: seq<Task>, n: nat, pending: seq<Task>) {
    forall k | n <= k < |tasks| :: tasks[k] in pending
  }

  lemma StillPendingNext(tasks: seq<Task>, n: nat, before: seq<Task>, after: seq<Task>)
    requires n < |tasks| && DistinctIds(tasks) && StillPending(tasks, n, before)
    requires forall t | t in before && t.id != tasks[n].id :: t in after
    ensures StillPending(tasks, n + 1, after)
  {
  }

  lemma {:induction false} SweepGrows(todo: seq<Task>, l: Ledger, rootTraceId: string)
    ensures l.completed.Keys <= Sweep(todo, l, rootTraceId).completed.Keys
  {
    if todo != [] {
      SweepGrows(todo[..|todo| - 1], l, rootTraceId);
    }
  }

  lemma {:induction false} SweepKeeps(g: Graph, run: Runner, l: Ledger, n: nat, rootTraceId: string)
    requires Inv(g, run, l) && n <= |l.pending|
    ensures Inv(g, run, Sweep(l.pending[..n], l, rootTraceId))
    ensures StillPending(l.pending, n, Sweep(l.pending[..n], l, rootTraceId).pending)
  {
    if n > 0 {
      SweepKeeps(g, run, l, n - 1, rootTraceId);
      var earlier, last := Sweep(l.pending[..n - 1], l, rootTraceId), l.pending[n - 1];
      SweepNext(l, n, rootTraceId);
      FailKeeps(g, run, earlier, last, rootTraceId);
      StillPendingNext(l.pending, n - 1, earlier.pending, FailIfBlocked(last, earlier, rootTraceId).pending);
    }
  }

  /** A ready task runs to the result that its meaning gives it. */
  lemma ReadyAgrees(g: Graph, run: Runner, l: Ledger, task: Task)
    requires Inv(g, run, l) && task in l.pending
    requires forall d | d in task.dependencies :: DependencyAllows(l.completed, d)
    ensures Meaning(g, run)(task.id) == Ran(RunTask(run, task, InputBindings(task, l.completed)))
  {
    var m := Meaning(g, run);
    forall d | d in task.dependencies ensures Good(m(d)) && m(d) == Ran(l.completed[d]) {
      assert DependencyAllows(l.completed, d);
    }
    assert InputBindings(task, l.completed) == BindAll(task.dependencies, m);
    MeaningUnfolds(g, run, task.id);
    assert AllGood(task.dependencies, m) && !AnyBad(task.dependencies, m);
  }

  ghost predicate Runnable(l: Ledger, tasks: seq<Task>) {
    && DistinctIds(tasks)
    && forall t | t in tasks :: t in l.pending && forall d | d in t.dependencies :: DependencyAllows(l.completed, d)
  }

  lemma {:induction false} BatchKeeps(g: Graph, run: Runner, l: Ledger, batch: seq<Task>, n: nat)
    requires Inv(g, run, l) && Runnable(l, batch) && n <= |batch|
    ensures Inv(g, run, SettleAll(l, RunBatch(run, batch, l.completed)[..n]))
    ensures StillPending(batch, n, SettleAll(l, RunBatch(run, batch, l.completed)[..n]).pending)
  {
    if n == 0 {
      assert forall k | 0 <= k < |batch| :: batch[k] in batch;
    } else {
      var results, task := RunBatch(run, batch, l.completed), batch[n - 1];
      BatchKeeps(g, run, l, batch, n - 1);
      assert results[..n][..n - 1] == results[..n - 1];
      assert task in batch;
      ReadyAgrees(g, run, l, task);
      var earlier := SettleAll(l, results[..n - 1]);
      SettleKeeps(g, run, earlier, results[n - 1]);
      StillPendingNext(batch, n - 1, earlier.pending, Settle(earlier, results[n - 1]).pending);
    }
  }

  lemma BatchRunnable(g: Graph, run: Runner, l: Ledger, cap: int)
    requires Inv(g, run, l)
    ensures Runnable(l, ReadyBatch(l.pending, l.completed, [], cap))
  {
    BatchConflictFree(l.pending, l.completed, [], cap);
    BatchDistinct(l.pending, l.completed, [], cap);
  }

  lemma BatchDistinct(pending: seq<Task>, completed: Completed, inFlight: seq<Task>, cap: int)
    requires DistinctIds(pending)
    ensures DistinctIds(ReadyBatch(pending, completed, inFlight, cap))
  {
    FilterDistinct(pending, completed, LocksOf(inFlight));
    GreedyDistinct(Filter(pending, completed, LocksOf(inFlight)), LocksOf(inFlight), cap);
  }

  lemma {:induction false} FilterDistinct(pending: seq<Task>, completed: Completed, activeLocks: seq<string>)
    requires DistinctIds(pending)
    ensures DistinctIds(Filter(pending, completed, activeLocks))
  {
    if pending != [] {
      FilterDistinct(pending[..|pending| - 1], completed, activeLocks);
      FilterMembers(pending[..|pending| - 1], completed, activeLocks);
      FreshLast(pending, Filter(pending[..|pending| - 1], completed, activeLocks));
    }
  }

  lemma {:induction false} GreedyDistinct(ready: seq<Task>, activeLocks: seq<string>, cap: int)
    requires DistinctIds(ready)
    ensures DistinctIds(Greedy(ready, activeLocks, cap))
  {
    if ready != [] {
      GreedyDistinct(ready[..|ready| - 1], activeLocks, cap);
      GreedyMembers(ready[..|ready| - 1], activeLocks, cap);
      FreshLast(ready, Greedy(ready[..|ready| - 1], activeLocks, cap));
    }
  }

  lemma FreshLast(tasks: seq<Task>, chosen: seq<Task>)
    requires tasks != [] && DistinctIds(tasks) && DistinctIds(chosen)
    requires forall t | t in chosen :: t in tasks[..|tasks| - 1]
    ensures DistinctIds(chosen + [tasks[|tasks| - 1]])
  {
    var last := tasks[|tasks| - 1];
    forall i | 0 <= i < |chosen| ensures chosen[i].id != last.id {
      assert chosen[i] in chosen;
      var k :| 0 <= k < |tasks| - 1 && tasks[k] == chosen[i];
    }
  }

  // ------------------------------------------------------------------
  // When the scheduler gives up
  // ------------------------------------------------------------------

  lemma BlockedShrinks(task: Task, l: Ledger, rootTraceId: string)
    requires task in l.pending
    ensures |FailIfBlocked(task, l, rootTraceId).pending| <= |l.pending|
    ensures if FindBlockingDependency(task.dependencies, l.completed).None? then FailIfBlocked(task, l, rootTraceId) == l
            else |FailIfBlocked(task, l, rootTraceId).pending| < |l.pending|
  {
    var i :| 0 <= i < |l.pending| && l.pending[i] == task;
    RemoveShrinks(l.pending, i);
  }

  ghost predicate NoneBlocked(todo: seq<Task>, completed: Completed) {
    forall i | 0 <= i < |todo| :: FindBlockingDependency(todo[i].dependencies, completed).None?
  }

  lemma {:induction false} SweepIdle(todo: seq<Task>, l: Ledger, rootTraceId: string)
    requires (forall i | 0 <= i < |todo| :: todo[i] in l.pending) && |Sweep(todo, l, rootTraceId).pending| == |l.pending|
    ensures Sweep(todo, l, rootTraceId) == l
    ensures NoneBlocked(todo, l.completed)
  {
    if todo != [] {
      var earlier, last := todo[..|todo| - 1], todo[|todo| - 1];
      var swept := Sweep(earlier, l, rootTraceId);
      assert Sweep(todo, l, rootTraceId) == FailIfBlocked(last, swept, rootTraceId);
      assert |Sweep(todo, l, rootTraceId).pending| <= |swept.pending|;
      SweepIdle(earlier, l, rootTraceId);
      BlockedShrinks(last, l, rootTraceId);
    }
  }

  /** No pending task has a failed dependency, and each waits for one that has not succeeded. */
  ghost predicate Idle(l: Ledger) {
    forall t | t in l.pending ::
      && FindBlockingDependency(t.dependencies, l.completed).None?
      && exists d | d in t.dependencies :: !DependencyAllows(l.completed, d)
  }

  /** A task that is neither blocked nor ready stays unresolved by verdicts that only know completed tasks. */
  lemma WaitingUnresolved(run: Runner, task: Task, completed: Completed, verdict: string -> Verdict)
    requires FindBlockingDependency(task.dependencies, completed).None?
    requires exists d | d in task.dependencies :: !DependencyAllows(completed, d)
    requires forall d | d in task.dependencies && verdict(d) != Unresolved ::
               d in completed && (Fatal(completed[d].status) <==> Bad(verdict(d)))
    ensures Resolve(run, task, verdict) == Unresolved
  {
    var d :| d in task.dependencies && !DependencyAllows(completed, d);
    assert !Good(verdict(d));
  }

  lemma WaitingStays(g: Graph, run: Runner, completed: Completed, n: nat, task: Task)
    requires n > 0 && task.id in g && g[task.id] == task
    requires FindBlockingDependency(task.dependencies, completed).None?
    requires exists d | d in task.dependencies :: !DependencyAllows(completed, d)
    requires forall d | d in task.dependencies && Eval(g, run, n - 1)(d) != Unresolved ::
               d in completed && (Fatal(completed[d].status) <==> Bad(Eval(g, run, n - 1)(d)))
    ensures Eval(g, run, n)(task.id) == Unresolved
  {
    WaitingUnresolved(run, task, completed, Eval(g, run, n - 1));
    EvalStep(g, run, n, task.id);
  }

  /** Nothing blocked and nothing ready: no pending task is ever resolved. */
  lemma {:induction false} StuckUnresolved(g: Graph, run: Runner, l: Ledger, n: nat, task: Task)
    requires Inv(g, run, l) && task in l.pending
    requires Idle(l)
    ensures Eval(g, run, n)(task.id) == Unresolved
    decreases n, 0
  {
    if n > 0 {
      forall d | d in task.dependencies && Eval(g, run, n - 1)(d) != Unresolved
        ensures d in l.completed && (Fatal(l.completed[d].status) <==> Bad(Eval(g, run, n - 1)(d)))
      {
        OnlyCompletedResolve(g, run, l, n - 1, d);
      }
      WaitingStays(g, run, l.completed, n, task);
    }
  }

  lemma {:induction false} OnlyCompletedResolve(g: Graph, run: Runner, l: Ledger, n: nat, d: string)
    requires Inv(g, run, l)
    requires Idle(l)
    requires Eval(g, run, n)(d) != Unresolved
    ensures d in l.completed && (Fatal(l.completed[d].status) <==> Bad(Eval(g, run, n)(d)))
    decreases n, 1
  {
    assert d in g;
    if d !in l.completed {
      StuckUnresolved(g, run, l, n, g[d]);
      assert false;
    }
    MeaningIs(g, run, n, d);
  }

  // ------------------------------------------------------------------
  // Whole runs
  // ------------------------------------------------------------------

  /** One result for each task of the plan and no other, each saying what recursive evaluation says. */
  ghost predicate Complete(g: Graph, run: Runner, results: seq<TaskResult>) {
    && (forall i | 0 <= i < |results| :: results[i].taskId in g && Agrees(results[i], Meaning(g, run)(results[i].taskId)))
    && (forall i, j | 0 <= i < j < |results| :: results[i].taskId != results[j].taskId)
    && (forall id | id in g :: exists i | 0 <= i < |results| :: results[i].taskId == id)
  }

  ghost predicate AllResolve(g: Graph, run: Runner) {
    forall id | id in g :: Meaning(g, run)(id) != Unresolved
  }

  lemma {:induction false} ResultsInOrder(order: seq<string>, completed: Completed)
    requires forall id | id in order :: id in completed
    ensures |Results(order, completed)| == |order|
    ensures forall i | 0 <= i < |order| :: Results(order, completed)[i] == completed[order[i]]
  {
    if order != [] {
      ResultsInOrder(order[..|order| - 1], completed);
    }
  }

  lemma FinishedComplete(g: Graph, run: Runner, l: Ledger)
    requires Inv(g, run, l) && l.pending == []
    ensures Complete(g, run, Results(l.order, l.completed)) && AllResolve(g, run)
  {
    ResultsInOrder(l.order, l.completed);
    var results := Results(l.order, l.completed);
    forall i | 0 <= i < |results|
      ensures results[i].taskId == l.order[i] && l.order[i] in g && Agrees(results[i], Meaning(g, run)(l.order[i]))
    {
      assert l.order[i] in l.order;
    }
    forall id | id in g ensures Meaning(g, run)(id) != Unresolved && exists i | 0 <= i < |results| :: results[i].taskId == id {
      assert id in l.completed && id in l.order;
      var i :| 0 <= i < |l.order| && l.order[i] == id;
      assert results[i].taskId == id;
    }
  }

  lemma StuckMeans(g: Graph, run: Runner, l: Ledger, cap: int, rootTraceId: string)
    requires Inv(g, run, l) && cap >= 1 && l.pending != []
    requires |Sweep(l.pending, l, rootTraceId).pending| == |l.pending|
    requires ReadyBatch(l.pending, l.completed, [], cap) == []
    ensures !AllResolve(g, run)
  {
    SweepIdle(l.pending, l, rootTraceId);
    forall t | t in l.pending ensures FindBlockingDependency(t.dependencies, l.completed).None? {
      var i :| 0 <= i < |l.pending| && l.pending[i] == t;
    }
    BatchProgress(l.pending, l.completed, cap);
    var task := l.pending[0];
    if Meaning(g, run)(task.id) != Unresolved {
      var n := MeaningAtDepth(g, run, task.id);
      StuckUnresolved(g, run, l, n, task);
      assert false;
    }
  }

  /**
   * From any ledger the scheduler can reach: it finishes with the results that recursive evaluation gives, or throws,
   * and it throws exactly when some task of the plan has no meaning.
   */
  lemma {:induction false} ScheduleCorrect(g: Graph, l: Ledger, cap: int, run: Runner, rootTraceId: string)
    requires Inv(g, run, l) && cap >= 1
    ensures var ending := ScheduleFrom(l, cap, run, rootTraceId).ending;
            match ending
            case Finished(results) => AllResolve(g, run) && Complete(g, run, results)
            case Stuck => !AllResolve(g, run)
    decreases |l.pending|
  {
    if l.pending == [] {
      FinishedComplete(g, run, l);
    } else {
      var swept := Sweep(l.pending, l, rootTraceId);
      if |swept.pending| < |l.pending| {
        SweepKeeps(g, run, l, |l.pending|, rootTraceId);
        assert l.pending[..|l.pending|] == l.pending;
        ScheduleCorrect(g, swept, cap, run, rootTraceId);
      } else if ReadyBatch(l.pending, l.completed, [], cap) == [] {
        StuckMeans(g, run, l, cap, rootTraceId);
      } else {
        AfterBatchKeeps(g, run, l, cap);
        ScheduleCorrect(g, AfterBatch(l, cap, run), cap, run, rootTraceId);
      }
    }
  }

  lemma AfterBatchKeeps(g: Graph, run: Runner, l: Ledger, cap: int)
    requires Inv(g, run, l)
    ensures Inv(g, run, AfterBatch(l, cap, run))
    ensures l.completed.Keys <= AfterBatch(l, cap, run).completed.Keys
    ensures forall t | t in ReadyBatch(l.pending, l.completed, [], cap) :: t.id in AfterBatch(l, cap, run).completed
  {
    var batch := ReadyBatch(l.pending, l.completed, [], cap);
    var results := RunBatch(run, batch, l.completed);
    BatchRunnable(g, run, l, cap);
    BatchKeeps(g, run, l, batch, |batch|);
    assert results[..|batch|] == results;
    SettleAllRecords(l, results);
    RecordedGrows(l.completed, results);
    forall t | t in batch ensures t.id in AfterBatch(l, cap, run).completed {
      var i :| 0 <= i < |batch| && batch[i] == t;
      RecordedKey(l.completed, results, i);
    }
  }

  /** The completed map alone, as `SettleAll` leaves it. */
  function Recorded(completed: Completed, results: seq<TaskResult>): Completed {
    if results == [] then completed
    else
      var last := results[|results| - 1];
      Recorded(completed, results[..|results| - 1])[last.taskId := last]
  }

  lemma {:induction false} SettleAllRecords(l: Ledger, results: seq<TaskResult>)
    ensures SettleAll(l, results).completed == Recorded(l.completed, results)
  {
    if results != [] {
      SettleAllRecords(l, results[..|results| - 1]);
    }
  }

  lemma {:induction false} RecordedGrows(completed: Completed, results: seq<TaskResult>)
    ensures completed.Keys <= Recorded(completed, results).Keys
  {
    if results != [] {
      RecordedGrows(completed, results[..|results| - 1]);
    }
  }

  lemma {:induction false} RecordedKey(completed: Completed, results: seq<TaskResult>, i: nat)
    requires i < |results|
    ensures results[i].taskId in Recorded(completed, results)
  {
    if i < |results| - 1 {
      RecordedKey(completed, results[..|results| - 1], i);
    }
  }

  // ------------------------------------------------------------------
  // Rounds
  // ------------------------------------------------------------------

  /** A batch holds no conflicting locks, respects the cap, and each task of it starts once its dependencies succeeded. */
  ghost predicate SafeRound(g: Graph, run: Runner, cap: int, r: Round) {
    && Inv(g, run, r.before)
    && r.batch == ReadyBatch(r.before.pending, r.before.completed, [], cap)
    && ConflictFree(r.batch) && |r.batch| <= cap && DistinctIds(r.batch)
    && forall t | t in r.batch ::
         && t.id in g && g[t.id] == t && t.id !in r.before.completed
         && Meaning(g, run)(t.id) == Ran(RunTask(run, t, InputBindings(t, r.before.completed)))
         && forall d | d in t.dependencies :: DependencyAllows(r.before.completed, d)
  }

  /** What ran in a round is known in every later one, so it never runs again. */
  ghost predicate RunsOnce(rounds: seq<Round>) {
    forall j, k, t | 0 <= j < k < |rounds| && t in rounds[j].batch :: t.id in rounds[k].before.completed
  }

  lemma BatchSafe(g: Graph, run: Runner, l: Ledger, cap: int)
    requires Inv(g, run, l) && cap >= 0
    ensures SafeRound(g, run, cap, Round(l, ReadyBatch(l.pending, l.completed, [], cap)))
  {
    var batch := ReadyBatch(l.pending, l.completed, [], cap);
    BatchConflictFree(l.pending, l.completed, [], cap);
    BatchRunnable(g, run, l, cap);
    forall t | t in batch
      ensures Meaning(g, run)(t.id) == Ran(RunTask(run, t, InputBindings(t, l.completed)))
    {
      ReadyAgrees(g, run, l, t);
    }
  }

  /** Every round is safe and knows all of `known`. */
  ghost predicate AllSafe(g: Graph, run: Runner, cap: int, rounds: seq<Round>, known: set<string>) {
    forall r | r in rounds :: SafeRound(g, run, cap, r) && known <= r.before.completed.Keys
  }

  lemma AllSafeFirst(g: Graph, run: Runner, cap: int, first: Round, rest: seq<Round>, known: set<string>, more: set<string>)
    requires SafeRound(g, run, cap, first) && known <= first.before.completed.Keys
    requires AllSafe(g, run, cap, rest, more) && known <= more
    ensures AllSafe(g, run, cap, [first] + rest, known)
  {
  }

  /** Over a whole run every batch is safe, and no task is in two of them. */
  lemma {:induction false} RoundsSafe(g: Graph, l: Ledger, cap: int, run: Runner, rootTraceId: string)
    requires Inv(g, run, l) && cap >= 0
    ensures RunsOnce(ScheduleFrom(l, cap, run, rootTraceId).rounds)
    ensures AllSafe(g, run, cap, ScheduleFrom(l, cap, run, rootTraceId).rounds, l.completed.Keys)
    decreases |l.pending|
  {
    if l.pending != [] {
      var swept := Sweep(l.pending, l, rootTraceId);
      if |swept.pending| < |l.pending| {
        SweepKeeps(g, run, l, |l.pending|, rootTraceId);
        SweepGrows(l.pending, l, rootTraceId);
        assert l.pending[..|l.pending|] == l.pending;
        RoundsSafe(g, swept, cap, run, rootTraceId);
      } else if ReadyBatch(l.pending, l.completed, [], cap) != [] {
        var first, next := Round(l, ReadyBatch(l.pending, l.completed, [], cap)), AfterBatch(l, cap, run);
        var rest := ScheduleFrom(next, cap, run, rootTraceId).rounds;
        AfterBatchKeeps(g, run, l, cap);
        BatchSafe(g, run, l, cap);
        RoundsSafe(g, next, cap, run, rootTraceId);
        AllSafeFirst(g, run, cap, first, rest, l.completed.Keys, next.completed.Keys);
        FirstRoundFirst(first, next, rest);
      }
    }
  }

  lemma FirstRoundFirst(first: Round, next: Ledger, rest: seq<Round>)
    requires RunsOnce(rest) && forall r | r in rest :: next.completed.Keys <= r.before.completed.Keys
    requires forall t | t in first.batch :: t.id in next.completed
    ensures RunsOnce([first] + rest)
  {
    var rounds := [first] + rest;
    forall j, k, t | 0 <= j < k < |rounds| && t in rounds[j].batch ensures t.id in rounds[k].before.completed {
      assert rounds[k] == rest[k - 1] && rest[k - 1] in rest;
      if j > 0 {
        assert rounds[j] == rest[j - 1];
      }
    }
  }

  /** A run that finishes has run every task whose meaning is a run. */
  lemma {:induction false} RanInSomeRound(g: Graph, l: Ledger, cap: int, run: Runner, rootTraceId: string, id: string)
    requires Inv(g, run, l) && id in g && id !in l.completed && Meaning(g, run)(id).Ran?
    requires ScheduleFrom(l, cap, run, rootTraceId).ending.Finished?
    ensures exists r | r in ScheduleFrom(l, cap, run, rootTraceId).rounds :: g[id] in r.batch
    decreases |l.pending|
  {
    var swept := Sweep(l.pending, l, rootTraceId);
    if |swept.pending| < |l.pending| {
      SweepKeeps(g, run, l, |l.pending|, rootTraceId);
      SweepBlocksOnly(g, run, l, |l.pending|, rootTraceId, id);
      assert l.pending[..|l.pending|] == l.pending;
      RanInSomeRound(g, swept, cap, run, rootTraceId, id);
    } else {
      var next := AfterBatch(l, cap, run);
      var first := Round(l, ReadyBatch(l.pending, l.completed, [], cap));
      var rounds := ScheduleFrom(l, cap, run, rootTraceId).rounds;
      AfterBatchKeeps(g, run, l, cap);
      if g[id] in first.batch {
        assert first in rounds;
      } else {
        BatchOnly(g, run, l, cap, id);
        RanInSomeRound(g, next, cap, run, rootTraceId, id);
        var r :| r in ScheduleFrom(next, cap, run, rootTraceId).rounds && g[id] in r.batch;
        assert r in rounds;
      }
    }
  }

  lemma {:induction false} SweepBlocksOnly(g: Graph, run: Runner, l: Ledger, n: nat, rootTraceId: string, id: string)
    requires Inv(g, run, l) && n <= |l.pending| && id !in l.completed && !Meaning(g, run)(id).Blocked?
    ensures id !in Sweep(l.pending[..n], l, rootTraceId).completed
  {
    if n > 0 {
      var earlier, last := Sweep(l.pending[..n - 1], l, rootTraceId), l.pending[n - 1];
      SweepNext(l, n, rootTraceId);
      SweepBlocksOnly(g, run, l, n - 1, rootTraceId, id);
      SweepKeeps(g, run, l, n - 1, rootTraceId);
      BlocksOnly(g, run, earlier, last, rootTraceId, id);
    }
  }

  lemma BlocksOnly(g: Graph, run: Runner, l: Ledger, task: Task, rootTraceId: string, id: string)
    requires Inv(g, run, l) && task in l.pending && id !in l.completed && !Meaning(g, run)(id).Blocked?
    ensures id !in FailIfBlocked(task, l, rootTraceId).completed
  {
    if FindBlockingDependency(task.dependencies, l.completed).Some? {
      BlockedAgrees(g, run, l, task, rootTraceId);
    }
  }

  lemma BatchOnly(g: Graph, run: Runner, l: Ledger, cap: int, id: string)
    requires Inv(g, run, l) && id in g && id !in l.completed
    requires g[id] !in ReadyBatch(l.pending, l.completed, [], cap)
    ensures id !in AfterBatch(l, cap, run).completed
  {
    var batch := ReadyBatch(l.pending, l.completed, [], cap);
    var results := RunBatch(run, batch, l.completed);
    BatchRunnable(g, run, l, cap);
    forall i | 0 <= i < |results| ensures results[i].taskId != id {
      assert batch[i] in batch && batch[i] in l.pending;
    }
    SettlesOnly(l, results, id);
  }

  lemma {:induction false} SettlesOnly(l: Ledger, results: seq<TaskResult>, id: string)
    requires id !in l.completed && forall i | 0 <= i < |results| :: results[i].taskId != id
    ensures id !in SettleAll(l, results).completed
  {
    if results != [] {
      SettlesOnly(l, results[..|results| - 1], id);
    }
  }

  // ------------------------------------------------------------------
  // From the tasks of a plan
  // ------------------------------------------------------------------

  lemma {:induction false} GraphOfTasks(tasks: seq<Task>)
    requires DistinctIds(tasks)
    ensures forall t | t in tasks :: t.id in GraphOf(tasks) && GraphOf(tasks)[t.id] == t
    ensures forall id | id in GraphOf(tasks) :: GraphOf(tasks)[id].id == id && GraphOf(tasks)[id] in tasks
  {
    if tasks != [] {
      var earlier, last := tasks[..|tasks| - 1], tasks[|tasks| - 1];
      GraphOfTasks(earlier);
      assert tasks == earlier + [last];
      forall t | t in earlier ensures t.id != last.id {
        var k :| 0 <= k < |tasks| - 1 && tasks[k] == t;
      }
    }
  }

  lemma StartKeeps(tasks: seq<Task>, run: Runner)
    requires DistinctIds(tasks)
    ensures Inv(GraphOf(tasks), run, Start(tasks))
  {
    GraphOfTasks(tasks);
  }

  /**
   * The scheduler, for any tasks with distinct ids, any runner and any cap: it throws exactly when it may not run even
   * one task at a time or some task has no meaning, and otherwise its results are those of recursive evaluation.
   */
  lemma SchedulerComputesMeaning(tasks: seq<Task>, cap: int, run: Runner, rootTraceId: string)
    requires DistinctIds(tasks)
    ensures var g := GraphOf(tasks);
            match ScheduleFrom(Start(tasks), cap, run, rootTraceId).ending
            case Finished(results) => (tasks == [] || cap >= 1) && AllResolve(g, run) && Complete(g, run, results)
            case Stuck => tasks != [] && (cap < 1 || !AllResolve(g, run))
  {
    StartKeeps(tasks, run);
    if cap >= 1 || tasks == [] {
      ScheduleCorrect(GraphOf(tasks), Start(tasks), if cap >= 1 then cap else 1, run, rootTraceId);
    } else {
      NothingBlockedAtStart(tasks, tasks, rootTraceId);
      BatchProgress(tasks, map[], cap);
    }
  }

  lemma {:induction false} NothingBlockedAtStart(todo: seq<Task>, tasks: seq<Task>, rootTraceId: string)
    ensures Sweep(todo, Start(tasks), rootTraceId) == Start(tasks)
  {
    if todo != [] {
      NothingBlockedAtStart(todo[..|todo| - 1], tasks, rootTraceId);
    }
  }

  /** The status of the execution summary, before or after validation (reducer.ts:36-40). */
  function FoldStatus(results: seq<TaskResult>, validator: Option<TaskResult>): (status: Status)
    ensures status == Completed <==>
              (forall r | r in results :: r.status == Completed) && (validator.Some? ==> validator.value.status == Completed)
    ensures status != Failed <==>
              (forall r | r in results :: r.status != Failed) && (validator.Some? ==> validator.value.status != Failed)
    ensures status != Escalate
  {
    var all := if validator.Some? then results + [validator.value] else results;
    if exists r | r in all :: r.status == Failed then Failed
    else if exists r | r in all :: r.status == Partial || r.status == Escalate then Partial
    else Completed
  }

  ghost predicate HasResult(results: seq<TaskResult>, id: string, status: Status) {
    exists i | 0 <= i < |results| :: results[i].taskId == id && results[i].status == status
  }

  /** Every task with a result in `a` has one in `b`, with the same status. */
  ghost predicate Covers(a: seq<TaskResult>, b: seq<TaskResult>) {
    forall i | 0 <= i < |a| :: HasResult(b, a[i].taskId, a[i].status)
  }

  /** Two results for one task have one status, and are equal unless both say that a dependency blocked it. */
  ghost predicate SameOutcome(a: seq<TaskResult>, b: seq<TaskResult>) {
    forall i, j | 0 <= i < |a| && 0 <= j < |b| && a[i].taskId == b[j].taskId ::
      a[i] == b[j] || (IsBlockedResult(a[i]) && IsBlockedResult(b[j]))
  }

  /**
   * Two strategies or caps give the same outcome: both throw, or both end with the same tasks, the same status for each
   * task, the same result for each task that ran, and the same folded status.
   */
  lemma {:induction false} SchedulesAgree(
      tasks: seq<Task>, run: Runner, capA: int, capB: int, rootTraceA: string, rootTraceB: string)
    requires DistinctIds(tasks) && capA >= 1 && capB >= 1
    ensures var a := ScheduleFrom(Start(tasks), capA, run, rootTraceA).ending;
            var b := ScheduleFrom(Start(tasks), capB, run, rootTraceB).ending;
            || (a.Stuck? && b.Stuck?)
            || (a.Finished? && b.Finished?
                && Covers(a.results, b.results) && Covers(b.results, a.results)
                && SameOutcome(a.results, b.results)
                && FoldStatus(a.results, None) == FoldStatus(b.results, None))
  {
    SchedulerComputesMeaning(tasks, capA, run, rootTraceA);
    SchedulerComputesMeaning(tasks, capB, run, rootTraceB);
    var a := ScheduleFrom(Start(tasks), capA, run, rootTraceA).ending;
    var b := ScheduleFrom(Start(tasks), capB, run, rootTraceB).ending;
    if a.Finished? && b.Finished? {
      CompleteAgree(GraphOf(tasks), run, a.results, b.results);
      CompleteAgree(GraphOf(tasks), run, b.results, a.results);
      FoldCovers(a.results, b.results);
      FoldCovers(b.results, a.results);
    }
  }

  lemma CompleteAgree(g: Graph, run: Runner, a: seq<TaskResult>, b: seq<TaskResult>)
    requires Complete(g, run, a) && Complete(g, run, b)
    ensures SameOutcome(a, b) && Covers(a, b)
  {
    forall i | 0 <= i < |a| ensures HasResult(b, a[i].taskId, a[i].status) {
      assert a[i].taskId in g;
      var j :| 0 <= j < |b| && b[j].taskId == a[i].taskId;
      assert b[j].status == a[i].status;
    }
  }

  lemma FoldCovers(a: seq<TaskResult>, b: seq<TaskResult>)
    requires Covers(a, b)
    ensures FoldStatus(a, None) == Failed ==> FoldStatus(b, None) == Failed
    ensures FoldStatus(a, None) == Partial ==> FoldStatus(b, None) != Completed
  {
    forall r | r in a ensures exists s | s in b :: s.status == r.status {
      var i :| 0 <= i < |a| && a[i] == r;
      assert HasResult(b, a[i].taskId, a[i].status);
      var j :| 0 <= j < |b| && b[j].taskId == a[i].taskId && b[j].status == a[i].status;
      assert b[j] in b;
    }
  }

  // ------------------------------------------------------------------
  // Plan references
  // ------------------------------------------------------------------

  predicate IsDigit(c: char) {
    '0' <= c <= '9'
  }

  function DecimalValue(digits: string): (n: nat)
    requires forall c | c in digits :: IsDigit(c)
  {
    if digits == [] then 0
    else
      var last := digits[|digits| - 1];
      assert IsDigit(last);
      10 * DecimalValue(digits[..|digits| - 1]) + (last as int - '0' as int)
  }

  /** The index in a reference of the form "task-N". */
  function TaskReference(dependency: string): Option<nat> {
    if "task-" <= dependency && |dependency| > 5 && (forall c | c in dependency[5..] :: IsDigit(c))
    then Some(DecimalValue(dependency[5..]))
    else None
  }

  /** A number in decimal notation. */
  function Decimal(n: nat): (digits: string)
    ensures digits != [] && forall c | c in digits :: IsDigit(c)
  {
    var last := ['0' + (n % 10) as char];
    if n < 10 then last else Decimal(n / 10) + last
  }

  lemma {:induction false} DecimalIsValue(n: nat)
    ensures DecimalValue(Decimal(n)) == n
  {
    var digits := Decimal(n);
    if n >= 10 {
      DecimalIsValue(n / 10);
      assert digits[..|digits| - 1] == Decimal(n / 10);
    } else {
      assert digits[..0] == [];
    }
  }

  /** "task-0", "task-1" and so on are the references, and each names its number. */
  lemma ReferenceNamesPlace(n: nat)
    ensures TaskReference("task-" + Decimal(n)) == Some(n)
  {
    DecimalIsValue(n);
    assert ("task-" + Decimal(n))[5..] == Decimal(n);
  }

  /** Nothing else is a reference: the word, a hyphen and one or more digits, and no more. */
  lemma ReferencesHaveForm(s: string)
    ensures TaskReference(s).Some? <==> exists digits | s == "task-" + digits :: digits != [] && forall c | c in digits :: IsDigit(c)
  {
    if "task-" <= s {
      assert s == "task-" + s[5..];
    }
    forall digits | s == "task-" + digits ensures digits == s[5..] {
    }
  }

  function ResolveReference(dependency: string, ids: seq<string>): string {
    match TaskReference(dependency)
    case Some(n) => if n < |ids| then ids[n] else dependency
    case None => dependency
  }

  function MaterializeTask(plan: seq<PlannedTask>, ids: seq<string>, i: nat): Task
    requires |ids| == |plan| && i < |plan|
  {
    var deps := plan[i].dependencies;
    Task(ids[i], ids[0], plan[i].parentTaskId, 1, plan[i].specialist, plan[i].input,
         seq(|deps|, k requires 0 <= k < |deps| => ResolveReference(deps[k], ids)), plan[i].resourceLocks)
  }

  /** `materializePlan`, with the generated ids as a parameter. */
  function MaterializePlan(plan: seq<PlannedTask>, ids: seq<string>): (tasks: seq<Task>)
    requires |ids| == |plan|
    ensures |tasks| == |plan|
    ensures forall i | 0 <= i < |plan| ::
              && tasks[i].id == ids[i] && tasks[i].rootTaskId == ids[0]
              && tasks[i].specialist == plan[i].specialist && tasks[i].resourceLocks == plan[i].resourceLocks
              && tasks[i].input == plan[i].input && tasks[i].parentTaskId == plan[i].parentTaskId && tasks[i].depth == 1
              && |tasks[i].dependencies| == |plan[i].dependencies|
    ensures forall i, k | 0 <= i < |plan| && 0 <= k < |plan[i].dependencies| ::
              Refers(plan[i].dependencies[k], tasks[i].dependencies[k], tasks, ids)
  {
    seq(|plan|, i requires 0 <= i < |plan| => MaterializeTask(plan, ids, i))
  }

  /** A reference in range has become the id of the task at that place; any other dependency is kept as it was. */
  predicate Refers(reference: string, id: string, tasks: seq<Task>, ids: seq<string>)
    requires |tasks| == |ids|
  {
    match TaskReference(reference)
    case Some(n) => if n < |ids| then id == ids[n] else id == reference
    case None => id == reference
  }

  /** The place of an id in a list. */
  function PlaceOf(ids: seq<string>, id: string): (k: nat)
    ensures k <= |ids| && (k < |ids| ==> ids[k] == id)
    ensures id in ids ==> k < |ids|
  {
    if ids == [] || ids[0] == id then 0 else 1 + PlaceOf(ids[1..], id)
  }

  /** Every dependency is a reference, in range, to a task of smaller rank. */
  ghost predicate AcyclicReferences(plan: seq<PlannedTask>, rank: nat -> nat) {
    forall i, d | 0 <= i < |plan| && d in plan[i].dependencies ::
      TaskReference(d).Some? && TaskReference(d).value < |plan| && rank(TaskReference(d).value) < rank(i)
  }

  /** A plan whose references are in range and acyclic never throws, whatever its tasks do. */
  lemma {:induction false} AcyclicPlanFinishes(
      plan: seq<PlannedTask>, ids: seq<string>, rank: nat -> nat, cap: int, run: Runner, rootTraceId: string)
    requires |ids| == |plan| && (forall i, j | 0 <= i < j < |ids| :: ids[i] != ids[j])
    requires AcyclicReferences(plan, rank) && cap >= 1
    ensures ScheduleFrom(Start(MaterializePlan(plan, ids)), cap, run, rootTraceId).ending.Finished?
  {
    var tasks := MaterializePlan(plan, ids);
    var g := GraphOf(tasks);
    assert DistinctIds(tasks);
    GraphOfTasks(tasks);
    SchedulerComputesMeaning(tasks, cap, run, rootTraceId);
    var byId := (id: string) => rank(PlaceOf(ids, id));
    PlacesAre(ids);
    ReferencesRanked(plan, ids, rank, byId);
    forall id | id in g ensures Meaning(g, run)(id) != Unresolved {
      RankedResolves(g, run, byId, id);
    }
  }

  lemma PlacesAre(ids: seq<string>)
    requires forall i, j | 0 <= i < j < |ids| :: ids[i] != ids[j]
    ensures forall i | 0 <= i < |ids| :: PlaceOf(ids, ids[i]) == i
  {
  }

  /** A dependency of a task of an acyclic plan is the id of a task of smaller rank. */
  lemma ReferenceRanked(plan: seq<PlannedTask>, ids: seq<string>, rank: nat -> nat, i: nat, k: nat) returns (n: nat)
    requires |ids| == |plan| && AcyclicReferences(plan, rank) && i < |plan| && k < |plan[i].dependencies|
    ensures n < |plan| && rank(n) < rank(i) && MaterializePlan(plan, ids)[i].dependencies[k] == ids[n]
  {
    var reference := plan[i].dependencies[k];
    assert reference in plan[i].dependencies;
    n := TaskReference(reference).value;
    assert Refers(reference, MaterializePlan(plan, ids)[i].dependencies[k], MaterializePlan(plan, ids), ids);
  }

  lemma ReferencesRanked(plan: seq<PlannedTask>, ids: seq<string>, rank: nat -> nat, byId: string -> nat)
    requires |ids| == |plan| && (forall i, j | 0 <= i < j < |ids| :: ids[i] != ids[j])
    requires AcyclicReferences(plan, rank) && forall i | 0 <= i < |ids| :: byId(ids[i]) == rank(i)
    ensures Ranked(GraphOf(MaterializePlan(plan, ids)), byId)
  {
    var tasks := MaterializePlan(plan, ids);
    assert DistinctIds(tasks);
    GraphOfTasks(tasks);
    var g := GraphOf(tasks);
    forall id, d | id in g && d in g[id].dependencies ensures d in g && byId(d) < byId(id) {
      var i :| 0 <= i < |tasks| && tasks[i] == g[id];
      var k :| 0 <= k < |tasks[i].dependencies| && tasks[i].dependencies[k] == d;
      var n := ReferenceRanked(plan, ids, rank, i, k);
      assert tasks[n] in tasks && tasks[n].id == d;
    }
  }
}
