/**
 * What the results of a plan say of one another, without reference to how they are computed: who blames whom, and what each
 * runner was given (packages/agent/src/execution/coordinator.ts:38-64 and :415-424).
 */
module PlanResults {
  import opened Wrappers
  import opened ExecutionTypes
  import opened Locks
  import opened PlanMeaning
  import opened Coordinator
  import opened Scheduling

  // ------------------------------------------------------------------
  // What a runner is given
  // ------------------------------------------------------------------

  /** One binding for each completed dependency: its data if it has any, and otherwise its summary. */
  ghost predicate FedBy(deps: seq<string>, completed: Completed, bindings: Bindings) {
    && (forall d :: d in bindings <==> d in deps && d in completed)
    && forall d | d in bindings ::
         match completed[d].data
         case Some(json) => bindings[d] == Data(json)
         case None => bindings[d] == SummaryOnly(completed[d].summary)
  }

  lemma InputsFed(task: Task, completed: Completed)
    ensures FedBy(task.dependencies, completed, InputBindings(task, completed))
  {
  }

  /** The tasks of a round run on what their dependencies, all of them completed well by then, had left. */
  ghost predicate RoundFed(g: Graph, run: Runner, r: Round) {
    forall t | t in r.batch ::
      && (forall d | d in t.dependencies :: d in r.before.completed && !Fatal(r.before.completed[d].status))
      && exists bindings ::
           FedBy(t.dependencies, r.before.completed, bindings) && Meaning(g, run)(t.id) == Ran(RunTask(run, t, bindings))
  }

  /** Over a whole run, whatever the cap: every task that runs is given exactly what its dependencies left. */
  lemma RoundsFed(g: Graph, l: Ledger, cap: int, run: Runner, rootTraceId: string)
    requires Inv(g, run, l) && cap >= 0
    ensures forall r | r in ScheduleFrom(l, cap, run, rootTraceId).rounds :: RoundFed(g, run, r)
  {
    RoundsSafe(g, l, cap, run, rootTraceId);
    forall r | r in ScheduleFrom(l, cap, run, rootTraceId).rounds ensures RoundFed(g, run, r) {
      SafeIsFed(g, run, cap, r);
    }
  }

  lemma SafeIsFed(g: Graph, run: Runner, cap: int, r: Round)
    requires SafeRound(g, run, cap, r)
    ensures RoundFed(g, run, r)
  {
    forall t | t in r.batch
      ensures exists bindings ::
                FedBy(t.dependencies, r.before.completed, bindings) && Meaning(g, run)(t.id) == Ran(RunTask(run, t, bindings))
      ensures forall d | d in t.dependencies :: d in r.before.completed && !Fatal(r.before.completed[d].status)
    {
      InputsFed(t, r.before.completed);
      assert forall d | d in t.dependencies :: DependencyAllows(r.before.completed, d);
    }
  }

  // ------------------------------------------------------------------
  // Whom a blocked task blames
  // ------------------------------------------------------------------

  /** The result of a task that did not run because of `cause`. */
  predicate Blames(task: Task, r: TaskResult, cause: TaskResult, rootTraceId: string) {
    var message := "Blocked by dependency " + cause.taskId + ": " + cause.summary;
    r == TaskResult(task.id, task.rootTaskId, task.parentTaskId, task.depth, task.specialist, Failed, message, None,
                    [Issue("blocked_dependency", message, Some((cause.taskId, cause.status)))], "", rootTraceId)
  }

  ghost predicate BlamesSome(task: Task, r: TaskResult, completed: Completed, rootTraceId: string) {
    exists d | d in task.dependencies :: d in completed && Fatal(completed[d].status) && Blames(task, r, completed[d], rootTraceId)
  }

  ghost predicate Blamed(g: Graph, run: Runner, completed: Completed, rootTraceId: string) {
    forall id | id in completed && id in g && Meaning(g, run)(id).Blocked? ::
      BlamesSome(g[id], completed[id], completed, rootTraceId)
  }

  lemma SettleBlames(g: Graph, run: Runner, completed: Completed, r: TaskResult, rootTraceId: string)
    requires Blamed(g, run, completed, rootTraceId) && r.taskId !in completed && r.taskId in g
    requires Meaning(g, run)(r.taskId).Blocked? ==> BlamesSome(g[r.taskId], r, completed, rootTraceId)
    ensures Blamed(g, run, completed[r.taskId := r], rootTraceId)
  {
    var after := completed[r.taskId := r];
    forall id | id in after && id in g && Meaning(g, run)(id).Blocked?
      ensures BlamesSome(g[id], after[id], after, rootTraceId)
    {
      var d :| d in g[id].dependencies && d in completed && Fatal(completed[d].status)
               && Blames(g[id], after[id], completed[d], rootTraceId);
      assert after[d] == completed[d];
    }
  }

  lemma {:induction false} BlockingIsDependency(dependencies: seq<string>, completed: Completed)
    requires FindBlockingDependency(dependencies, completed).Some?
    ensures exists d | d in dependencies ::
              d in completed && Fatal(completed[d].status) && FindBlockingDependency(dependencies, completed).value == completed[d]
  {
    if !(dependencies[0] in completed && Fatal(completed[dependencies[0]].status)) {
      BlockingIsDependency(dependencies[1..], completed);
      var d :| d in dependencies[1..] && d in completed && Fatal(completed[d].status)
               && FindBlockingDependency(dependencies[1..], completed).value == completed[d];
      assert d in dependencies;
    }
  }

  lemma FailBlames(g: Graph, run: Runner, l: Ledger, task: Task, rootTraceId: string)
    requires task.id in g && g[task.id] == task && task.id !in l.completed && Blamed(g, run, l.completed, rootTraceId)
    ensures Blamed(g, run, FailIfBlocked(task, l, rootTraceId).completed, rootTraceId)
  {
    var blocking := FindBlockingDependency(task.dependencies, l.completed);
    if blocking.Some? {
      BlockingIsDependency(task.dependencies, l.completed);
      var d :| d in task.dependencies && d in l.completed && Fatal(l.completed[d].status) && blocking.value == l.completed[d];
      var r := BlockedResult(task, blocking.value, rootTraceId);
      assert Blames(task, r, l.completed[d], rootTraceId);
      SettleBlames(g, run, l.completed, r, rootTraceId);
    }
  }

  lemma PendingIsOpen(g: Graph, run: Runner, l: Ledger, task: Task)
    requires Inv(g, run, l) && task in l.pending
    ensures task.id in g && g[task.id] == task && task.id !in l.completed
  {
  }

  lemma {:induction false} SweepBlames(g: Graph, run: Runner, l: Ledger, n: nat, rootTraceId: string)
    requires Inv(g, run, l) && n <= |l.pending| && Blamed(g, run, l.completed, rootTraceId)
    ensures Blamed(g, run, Sweep(l.pending[..n], l, rootTraceId).completed, rootTraceId)
  {
    if n == 0 {
      assert l.pending[..0] == [];
    } else {
      var earlier, task := Sweep(l.pending[..n - 1], l, rootTraceId), l.pending[n - 1];
      SweepBlames(g, run, l, n - 1, rootTraceId);
      SweepKeeps(g, run, l, n - 1, rootTraceId);
      PendingIsOpen(g, run, earlier, task);
      SweepNext(l, n, rootTraceId);
      FailBlames(g, run, earlier, task, rootTraceId);
    }
  }

  /** Results of tasks that ran never make anyone blamed wrongly. */
  lemma {:induction false} RecordedBlames(g: Graph, run: Runner, completed: Completed, results: seq<TaskResult>, rootTraceId: string)
    requires Blamed(g, run, completed, rootTraceId)
    requires forall i | 0 <= i < |results| ::
               results[i].taskId in g && results[i].taskId !in completed && Meaning(g, run)(results[i].taskId).Ran?
    requires forall i, j | 0 <= i < j < |results| :: results[i].taskId != results[j].taskId
    ensures Blamed(g, run, Recorded(completed, results), rootTraceId)
    ensures forall id | id in Recorded(completed, results) :: id in completed || exists i | 0 <= i < |results| :: results[i].taskId == id
  {
    if results != [] {
      var n := |results| - 1;
      RecordedBlames(g, run, completed, results[..n], rootTraceId);
      SettleBlames(g, run, Recorded(completed, results[..n]), results[n], rootTraceId);
    }
  }

  lemma BatchBlames(g: Graph, run: Runner, l: Ledger, cap: int, rootTraceId: string)
    requires Inv(g, run, l) && Blamed(g, run, l.completed, rootTraceId)
    ensures Blamed(g, run, AfterBatch(l, cap, run).completed, rootTraceId)
  {
    var batch := ReadyBatch(l.pending, l.completed, [], cap);
    var results := RunBatch(run, batch, l.completed);
    BatchRunnable(g, run, l, cap);
    forall i | 0 <= i < |results|
      ensures results[i].taskId == batch[i].id && results[i].taskId in g && results[i].taskId !in l.completed
      ensures Meaning(g, run)(results[i].taskId).Ran?
    {
      assert batch[i] in batch;
      ReadyAgrees(g, run, l, batch[i]);
    }
    SettleAllRecords(l, results);
    RecordedBlames(g, run, l.completed, results, rootTraceId);
  }

  // ------------------------------------------------------------------
  // The results of a finished plan
  // ------------------------------------------------------------------

  /** The ledger from which a run that finishes takes its results. */
  lemma {:induction false} LastLedger(g: Graph, l: Ledger, cap: int, run: Runner, rootTraceId: string) returns (last: Ledger)
    requires Inv(g, run, l) && Blamed(g, run, l.completed, rootTraceId)
    requires ScheduleFrom(l, cap, run, rootTraceId).ending.Finished?
    ensures Inv(g, run, last) && Blamed(g, run, last.completed, rootTraceId) && last.pending == []
    ensures ScheduleFrom(l, cap, run, rootTraceId).ending.results == Results(last.order, last.completed)
    decreases |l.pending|
  {
    if l.pending == [] {
      last := l;
    } else {
      var swept := Sweep(l.pending, l, rootTraceId);
      if |swept.pending| < |l.pending| {
        SweepKeeps(g, run, l, |l.pending|, rootTraceId);
        SweepBlames(g, run, l, |l.pending|, rootTraceId);
        assert l.pending[..|l.pending|] == l.pending;
        last := LastLedger(g, swept, cap, run, rootTraceId);
      } else {
        AfterBatchKeeps(g, run, l, cap);
        BatchBlames(g, run, l, cap, rootTraceId);
        last := LastLedger(g, AfterBatch(l, cap, run), cap, run, rootTraceId);
      }
    }
  }

  /** The table holds exactly these results, each under its own task. */
  ghost predicate Tabulates(table: Completed, results: seq<TaskResult>) {
    && |results| == |table|
    && (forall i | 0 <= i < |results| :: results[i].taskId in table && table[results[i].taskId] == results[i])
    && (forall id | id in table :: exists i | 0 <= i < |results| :: results[i].taskId == id)
  }

  /**
   * The rule that each result obeys: the task blames a dependency that ended failed or escalated, if there is one;
   * otherwise all its dependencies ended well and the result is what its runner made of what they left.
   */
  ghost predicate Justified(task: Task, run: Runner, table: Completed, rootTraceId: string) {
    && task.id in table
    && if exists d | d in task.dependencies :: d in table && Fatal(table[d].status)
       then BlamesSome(task, table[task.id], table, rootTraceId)
       else (forall d | d in task.dependencies :: d in table)
            && exists bindings :: FedBy(task.dependencies, table, bindings) && table[task.id] == RunTask(run, task, bindings)
  }

  lemma JustifiedBlocks(task: Task, run: Runner, table: Completed, d: string, rootTraceId: string)
    requires Justified(task, run, table, rootTraceId) && d in task.dependencies && d in table && Fatal(table[d].status)
    ensures IsBlockedResult(table[task.id])
  {
    var e :| e in task.dependencies && e in table && Blames(task, table[task.id], table[e], rootTraceId);
  }

  lemma JustifiedAlone(task: Task, run: Runner, table: Completed, rootTraceId: string)
    requires Justified(task, run, table, rootTraceId) && task.dependencies == []
    ensures table[task.id] == RunTask(run, task, map[])
  {
    var bindings :| FedBy([], table, bindings) && table[task.id] == RunTask(run, task, bindings);
    assert bindings == map[];
  }

  lemma JustifiedAt(g: Graph, run: Runner, l: Ledger, task: Task, rootTraceId: string)
    requires Inv(g, run, l) && Blamed(g, run, l.completed, rootTraceId) && l.pending == []
    requires task.id in g && g[task.id] == task
    ensures Justified(task, run, l.completed, rootTraceId)
  {
    var m := Meaning(g, run);
    assert task.id in l.completed && Agrees(l.completed[task.id], m(task.id));
    MeaningUnfolds(g, run, task.id);
    if m(task.id).Blocked? {
      assert BlamesSome(task, l.completed[task.id], l.completed, rootTraceId);
    } else {
      RanOnWhatWasLeft(g, run, l, task);
    }
  }

  lemma RanOnWhatWasLeft(g: Graph, run: Runner, l: Ledger, task: Task)
    requires Inv(g, run, l) && l.pending == [] && task.id in g && g[task.id] == task
    requires Meaning(g, run)(task.id).Ran?
    ensures forall d | d in task.dependencies :: d in l.completed && !Fatal(l.completed[d].status)
    ensures FedBy(task.dependencies, l.completed, InputBindings(task, l.completed))
    ensures l.completed[task.id] == RunTask(run, task, InputBindings(task, l.completed))
  {
    var m := Meaning(g, run);
    MeaningUnfolds(g, run, task.id);
    assert AllGood(task.dependencies, m);
    forall d | d in task.dependencies ensures d in l.completed && m(d) == Ran(l.completed[d]) {
      RanIsRecorded(g, run, l, d);
    }
    InputsFed(task, l.completed);
    SameInputs(task, l.completed, m);
    RanIsRecorded(g, run, l, task.id);
  }

  lemma RanIsRecorded(g: Graph, run: Runner, l: Ledger, d: string)
    requires Inv(g, run, l) && l.pending == [] && Meaning(g, run)(d).Ran?
    ensures d in l.completed && Meaning(g, run)(d) == Ran(l.completed[d])
  {
    InGraph(g, run, d);
  }

  lemma SameInputs(task: Task, completed: Completed, verdict: string -> Verdict)
    requires forall d | d in task.dependencies :: d in completed && verdict(d) == Ran(completed[d])
    ensures InputBindings(task, completed) == BindAll(task.dependencies, verdict)
  {
  }

  lemma InGraph(g: Graph, run: Runner, id: string)
    ensures Meaning(g, run)(id) != Unresolved ==> id in g
  {
    if Meaning(g, run)(id) != Unresolved {
      var n := MeaningAtDepth(g, run, id);
      EvalStep(g, run, n, id);
    }
  }

  /**
   * The results of any plan that finishes, under any cap: one for each task, each justified by the others. Blocked tasks
   * name the dependency they blame; all others ran on the data, or else the summary, of every dependency.
   */
  lemma ResultsJustified(tasks: seq<Task>, cap: int, run: Runner, rootTraceId: string) returns (table: Completed)
    requires DistinctIds(tasks) && ScheduleFrom(Start(tasks), cap, run, rootTraceId).ending.Finished?
    ensures Tabulates(table, ScheduleFrom(Start(tasks), cap, run, rootTraceId).ending.results)
    ensures forall t | t in tasks :: Justified(t, run, table, rootTraceId)
    ensures forall id | id in table :: exists t | t in tasks :: t.id == id
  {
    var g := GraphOf(tasks);
    StartKeeps(tasks, run);
    GraphOfTasks(tasks);
    var last := LastLedger(g, Start(tasks), cap, run, rootTraceId);
    table := last.completed;
    TableOf(g, run, last);
    forall t | t in tasks ensures Justified(t, run, table, rootTraceId) {
      JustifiedAt(g, run, last, t, rootTraceId);
    }
    forall id | id in table ensures exists t | t in tasks :: t.id == id {
      assert id in g && g[id] in tasks;
    }
  }

  lemma TableOf(g: Graph, run: Runner, l: Ledger)
    requires Inv(g, run, l)
    ensures Tabulates(l.completed, Results(l.order, l.completed))
  {
    OrderTabulates(l.order, l.completed);
  }

  lemma OrderTabulates(order: seq<string>, completed: Completed)
    requires forall i, j | 0 <= i < j < |order| :: order[i] != order[j]
    requires forall id :: id in order <==> id in completed
    requires forall id | id in completed :: completed[id].taskId == id
    ensures Tabulates(completed, Results(order, completed))
  {
    ResultsInOrder(order, completed);
    DistinctCount(order, completed.Keys);
    var results := Results(order, completed);
    forall id | id in completed ensures exists i | 0 <= i < |results| :: results[i].taskId == id {
      var i :| 0 <= i < |order| && order[i] == id;
      assert results[i].taskId == id;
    }
    assert forall i | 0 <= i < |order| :: order[i] in order;
    assert |completed.Keys| == |completed|;
  }

  lemma {:induction false} DistinctCount(xs: seq<string>, s: set<string>)
    requires forall i, j | 0 <= i < j < |xs| :: xs[i] != xs[j]
    requires forall x :: x in xs <==> x in s
    ensures |xs| == |s|
  {
    if xs == [] {
      assert s == {};
    } else {
      var n := |xs| - 1;
      assert xs == xs[..n] + [xs[n]];
      assert xs[n] !in xs[..n];
      DistinctCount(xs[..n], s - {xs[n]});
    }
  }
}
