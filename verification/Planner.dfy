/** Locks and dependencies of a routed plan (packages/agent/src/execution/planner.ts), and the plan carried out. */
module Planner {
  import opened Wrappers
  import opened ExecutionTypes
  import opened Locks
  import opened PlanMeaning
  import opened Coordinator
  import opened Scheduling
  import opened PlanResults

  datatype Specialist = Browser | Computer | Research | Builder | Integration | Memory | Settings

  function Name(s: Specialist): string {
    match s
    case Browser => "browser"
    case Computer => "computer"
    case Research => "research"
    case Builder => "builder"
    case Integration => "integration"
    case Memory => "memory"
    case Settings => "settings"
  }

  datatype RouterTask = RouterTask(specialist: Specialist, goal: string, dependencies: seq<string>)

  function LocksFor(s: Specialist, pathHints: seq<string>): seq<string> {
    match s
    case Computer => ["computer-desktop"]
    case Builder =>
      if pathHints == [] then ["sandbox-workdir:/"]
      else seq(|pathHints|, i requires 0 <= i < |pathHints| => "fs-write:" + pathHints[i])
    case Integration => ["integration-write:external"]
    case Memory => ["memory-write"]
    case _ => []
  }

  function MaterializeRouted(task: RouterTask, pathHints: seq<string>): PlannedTask {
    PlannedTask(None, Name(task.specialist), task.goal, task.dependencies, LocksFor(task.specialist, pathHints))
  }

  function BackgroundTask(goal: string): PlannedTask {
    PlannedTask(None, Name(Builder), goal, [], ["sandbox-workdir:/"])
  }

  function MaterializeRouterOutput(strategy: Strategy, tasks: seq<RouterTask>, pathHints: seq<string>): (Strategy, seq<PlannedTask>) {
    if strategy.Direct? || tasks == [] then (Direct, [])
    else if strategy.Background? then (Background, [BackgroundTask(tasks[0].goal)])
    else (strategy, seq(|tasks|, i requires 0 <= i < |tasks| => MaterializeRouted(tasks[i], pathHints)))
  }

  /** The specialists that work on something of which there is one. */
  predicate Exclusive(s: Specialist) {
    s.Computer? || s.Builder? || s.Integration? || s.Memory?
  }

  function KindOf(s: Specialist, pathHints: seq<string>): string
    requires Exclusive(s)
  {
    match s
    case Computer => "computer-desktop"
    case Builder => if pathHints == [] then "sandbox-workdir" else "fs"
    case Integration => "integration-write"
    case Memory => "memory-write"
  }

  lemma ParseFsWrite(path: string)
    ensures ParseLock("fs-write:" + path) == Lock("fs", path, Some(Write))
  {
    var raw := "fs-write:" + path;
    assert raw[3] == 'w' && raw[|"fs-write:"|..] == path;
  }

  lemma ParseFixed()
    ensures ParseLock("computer-desktop") == Lock("computer-desktop", "computer-desktop", None)
    ensures ParseLock("memory-write") == Lock("memory-write", "memory-write", None)
  {
    assert "computer-desktop"[0] == 'c' && "memory-write"[0] == 'm';
  }

  lemma ParseIntegration()
    ensures ParseLock("integration-write:external") == Lock("integration-write", "external", None)
  {
    ParseIntegrationLock("external");
    assert "integration-write:" + "external" == "integration-write:external";
  }

  /** Every lock of a specialist is of one kind, and no such lock is compatible with itself. */
  lemma LockKinds(s: Specialist, pathHints: seq<string>, i: nat)
    requires i < |LocksFor(s, pathHints)|
    ensures Exclusive(s) && ParseLock(LocksFor(s, pathHints)[i]).kind == KindOf(s, pathHints)
    ensures LocksConflict(LocksFor(s, pathHints)[i], LocksFor(s, pathHints)[i])
  {
    if s.Builder? {
      BuilderLocks(pathHints, i);
    } else {
      ParseFixed();
      ParseIntegration();
    }
  }

  lemma BuilderLocks(pathHints: seq<string>, i: nat)
    requires i < |LocksFor(Builder, pathHints)|
    ensures ParseLock(LocksFor(Builder, pathHints)[i]).kind == KindOf(Builder, pathHints)
    ensures LocksConflict(LocksFor(Builder, pathHints)[i], LocksFor(Builder, pathHints)[i])
  {
    if pathHints != [] {
      ParseFsWrite(pathHints[i]);
    } else {
      ParseWorkdir("/");
      assert LocksFor(Builder, pathHints)[i] == "sandbox-workdir:" + "/";
    }
  }

  lemma KindsDiffer(s: Specialist, t: Specialist, pathHints: seq<string>)
    requires Exclusive(s) && Exclusive(t)
    ensures KindOf(s, pathHints) == KindOf(t, pathHints) <==> s == t
  {
    var heads := (KindOf(s, pathHints)[0], KindOf(t, pathHints)[0]);
    assert heads.0 == heads.1 ==> s == t || heads.0 == 'i';
  }

  /** Two tasks of one plan exclude each other exactly when they are of the same exclusive specialist. */
  lemma SameSpecialistExcludes(a: Task, b: Task, s: Specialist, t: Specialist, pathHints: seq<string>)
    requires a.resourceLocks == LocksFor(s, pathHints) && b.resourceLocks == LocksFor(t, pathHints)
    ensures TasksConflict(a, b) <==> s == t && Exclusive(s)
  {
    if s == t && Exclusive(s) {
      LockKinds(s, pathHints, 0);
      assert a.resourceLocks[0] in a.resourceLocks && b.resourceLocks[0] in b.resourceLocks;
    }
    forall i, j | 0 <= i < |a.resourceLocks| && 0 <= j < |b.resourceLocks| && LocksConflict(a.resourceLocks[i], b.resourceLocks[j])
      ensures s == t && Exclusive(s)
    {
      LockKinds(s, pathHints, i);
      LockKinds(t, pathHints, j);
      KindsDiffer(s, t, pathHints);
    }
  }

  // ------------------------------------------------------------------
  // The plan carried out
  // ------------------------------------------------------------------

  /** Task `i` of the plan is of specialist `specialists[i]`. */
  predicate Routed(plan: seq<PlannedTask>, specialists: seq<Specialist>, pathHints: seq<string>) {
    && |specialists| == |plan|
    && forall i :: 0 <= i < |plan| ==>
         plan[i].specialist == Name(specialists[i]) && plan[i].resourceLocks == LocksFor(specialists[i], pathHints)
  }

  lemma NamesDiffer(s: Specialist, t: Specialist)
    ensures Name(s) == Name(t) <==> s == t
  {
    var heads := (Name(s)[0], Name(t)[0]);
    assert heads.0 == heads.1 ==> s == t || heads.0 == 'b';
    assert Name(Browser)[1] != Name(Builder)[1];
  }

  /** No two tasks of one batch are of the same exclusive specialist. */
  ghost predicate OneEach(batch: seq<Task>) {
    forall i, j, s | 0 <= i < j < |batch| && batch[i].specialist == batch[j].specialist == Name(s) :: !Exclusive(s)
  }

  /** Whatever a routed plan's strategy, cap and results, the computer, the builder, memory and integrations each have one user at a time. */
  lemma OneUserAtATime(
    plan: seq<PlannedTask>, specialists: seq<Specialist>, pathHints: seq<string>, ids: seq<string>, cap: int, run: Runner,
    rootTraceId: string)
    requires Routed(plan, specialists, pathHints) && cap >= 0
    requires |ids| == |plan| && (forall i, j | 0 <= i < j < |ids| :: ids[i] != ids[j])
    ensures forall r | r in ScheduleFrom(Start(MaterializePlan(plan, ids)), cap, run, rootTraceId).rounds :: OneEach(r.batch)
  {
    var tasks := MaterializePlan(plan, ids);
    assert DistinctIds(tasks);
    StartKeeps(tasks, run);
    GraphOfTasks(tasks);
    RoundsSafe(GraphOf(tasks), Start(tasks), cap, run, rootTraceId);
    forall r | r in ScheduleFrom(Start(tasks), cap, run, rootTraceId).rounds
      ensures OneEach(r.batch)
    {
      assert SafeRound(GraphOf(tasks), run, cap, r);
      BatchOneEach(plan, specialists, pathHints, ids, r.batch);
    }
  }

  lemma BatchOneEach(
    plan: seq<PlannedTask>, specialists: seq<Specialist>, pathHints: seq<string>, ids: seq<string>, batch: seq<Task>)
    requires Routed(plan, specialists, pathHints) && |ids| == |plan|
    requires ConflictFree(batch) && forall t | t in batch :: t in MaterializePlan(plan, ids)
    ensures OneEach(batch)
  {
    forall i, j, s | 0 <= i < j < |batch| && batch[i].specialist == batch[j].specialist == Name(s)
      ensures !Exclusive(s)
    {
      assert batch[i] in batch && batch[j] in batch;
      var m :| 0 <= m < |plan| && MaterializePlan(plan, ids)[m] == batch[i];
      var n :| 0 <= n < |plan| && MaterializePlan(plan, ids)[n] == batch[j];
      NamesDiffer(specialists[m], s);
      NamesDiffer(specialists[n], s);
      SameSpecialistExcludes(batch[i], batch[j], s, s, pathHints);
      assert !TasksConflict(batch[i], batch[j]);
    }
  }

  /** A routed plan is one, unless it hands the work to the background. */
  lemma RouterOutputRouted(strategy: Strategy, tasks: seq<RouterTask>, pathHints: seq<string>) returns (specialists: seq<Specialist>)
    requires strategy.Sequential? || strategy.Parallel?
    ensures Routed(MaterializeRouterOutput(strategy, tasks, pathHints).1, specialists, pathHints)
  {
    specialists := seq(|tasks|, i requires 0 <= i < |tasks| => tasks[i].specialist);
  }

  /** The tasks routed become the tasks planned, in order, with nothing added and nothing lost. */
  lemma RouterOutputKeeps(strategy: Strategy, tasks: seq<RouterTask>, pathHints: seq<string>)
    ensures var (actual, plan) := MaterializeRouterOutput(strategy, tasks, pathHints);
            && (strategy.Direct? || tasks == [] ==> actual == Direct && plan == [])
            && (strategy.Background? && tasks != [] ==>
                  actual == Background && plan == [PlannedTask(None, "builder", tasks[0].goal, [], ["sandbox-workdir:/"])])
            && (strategy.Sequential? || strategy.Parallel? ==> (tasks != [] ==> actual == strategy) && |plan| == |tasks|)
    ensures strategy.Sequential? || strategy.Parallel? ==>
              forall i | 0 <= i < |tasks| ::
                var planned := MaterializeRouterOutput(strategy, tasks, pathHints).1[i];
                && planned.dependencies == tasks[i].dependencies && planned.input == tasks[i].goal
                && planned.specialist == Name(tasks[i].specialist) && planned.parentTaskId.None?
  {
  }

  /** A builder with path hints excludes other writers and readers of exactly the paths that overlap a hint. */
  lemma BuilderCovers(task: Task, pathHints: seq<string>, path: string)
    requires task.resourceLocks == LocksFor(Builder, pathHints) && pathHints != []
    ensures TaskConflicts(task, ["fs-write:" + path]) <==> exists hint | hint in pathHints :: PathsOverlap(hint, path)
    ensures TaskConflicts(task, ["fs-read:" + path]) <==> exists hint | hint in pathHints :: PathsOverlap(hint, path)
  {
    forall i | 0 <= i < |pathHints|
      ensures LocksConflict(task.resourceLocks[i], "fs-write:" + path) <==> PathsOverlap(pathHints[i], path)
      ensures LocksConflict(task.resourceLocks[i], "fs-read:" + path) <==> PathsOverlap(pathHints[i], path)
    {
      FileLocks(pathHints[i], path);
    }
    CoversOne(task.resourceLocks, pathHints, "fs-write:" + path, path);
    CoversOne(task.resourceLocks, pathHints, "fs-read:" + path, path);
  }

  lemma CoversOne(locks: seq<string>, pathHints: seq<string>, lock: string, path: string)
    requires |locks| == |pathHints|
    requires forall i | 0 <= i < |locks| :: LocksConflict(locks[i], lock) <==> PathsOverlap(pathHints[i], path)
    ensures SomeRelated(LocksConflict, locks, [lock]) <==> exists hint | hint in pathHints :: PathsOverlap(hint, path)
  {
    if hint :| hint in pathHints && PathsOverlap(hint, path) {
      var i :| 0 <= i < |pathHints| && pathHints[i] == hint;
      assert locks[i] in locks && lock in [lock];
    }
    if SomeRelated(LocksConflict, locks, [lock]) {
      var l :| l in locks && exists r | r in [lock] :: LocksConflict(l, r);
      var i :| 0 <= i < |locks| && locks[i] == l;
      assert pathHints[i] in pathHints;
    }
  }

  /** Task `i` as the router gave it: its goal, its specialist, and its references to other tasks of the plan. */
  predicate Carries(task: Task, routed: seq<RouterTask>, i: nat, ids: seq<string>)
    requires i < |routed| == |ids|
  {
    && task.id == ids[i] && task.rootTaskId == ids[0] && task.parentTaskId.None? && task.depth == 1
    && task.input == routed[i].goal && task.specialist == Name(routed[i].specialist)
    && |task.dependencies| == |routed[i].dependencies|
    && forall k | 0 <= k < |task.dependencies| ::
         match TaskReference(routed[i].dependencies[k])
         case Some(j) => if j < |ids| then task.dependencies[k] == ids[j] else task.dependencies[k] == routed[i].dependencies[k]
         case None => task.dependencies[k] == routed[i].dependencies[k]
  }

  /** The router made task `i` wait for task `j`. */
  predicate DependsOn(routed: seq<RouterTask>, i: nat, j: nat)
    requires i < |routed|
  {
    exists k | 0 <= k < |routed[i].dependencies| :: TaskReference(routed[i].dependencies[k]) == Some(j)
  }

  ghost predicate JustifiedPlace(
    routed: seq<RouterTask>, i: nat, ids: seq<string>, run: Runner, table: Completed, rootTraceId: string)
    requires i < |routed| == |ids|
  {
    ids[i] in table && exists task :: Carries(task, routed, i, ids) && Justified(task, run, table, rootTraceId)
  }

  /** Each routed task has one result, justified by the results of the tasks that the router made it wait for. */
  ghost predicate RoutedJustified(
    routed: seq<RouterTask>, ids: seq<string>, run: Runner, table: Completed, results: seq<TaskResult>, rootTraceId: string)
    requires |routed| == |ids|
  {
    && Tabulates(table, results) && |results| == |routed|
    && forall i | 0 <= i < |routed| :: JustifiedPlace(routed, i, ids, run, table, rootTraceId)
  }

  ghost predicate Honours(ids: seq<string>, i: nat, j: nat, table: Completed)
    requires i < |ids| && j < |ids|
  {
    ids[i] in table && ids[j] in table && (Fatal(table[ids[j]].status) ==> IsBlockedResult(table[ids[i]]))
  }

  /** A task fails as blocked when one that the router made it wait for failed or escalated. */
  ghost predicate DependentsHonoured(routed: seq<RouterTask>, ids: seq<string>, table: Completed)
    requires |routed| == |ids|
  {
    forall i, j | 0 <= i < |routed| && 0 <= j < |routed| && DependsOn(routed, i, j) :: Honours(ids, i, j, table)
  }

  lemma JustifiedHonours(
    routed: seq<RouterTask>, ids: seq<string>, run: Runner, table: Completed, results: seq<TaskResult>, rootTraceId: string)
    requires |routed| == |ids| && RoutedJustified(routed, ids, run, table, results, rootTraceId)
    ensures DependentsHonoured(routed, ids, table)
  {
    forall i, j | 0 <= i < |routed| && 0 <= j < |routed| && DependsOn(routed, i, j) ensures Honours(ids, i, j, table) {
      assert JustifiedPlace(routed, i, ids, run, table, rootTraceId) && JustifiedPlace(routed, j, ids, run, table, rootTraceId);
      PlaceHonours(routed, i, j, ids, run, table, rootTraceId);
    }
  }

  lemma PlaceHonours(
    routed: seq<RouterTask>, i: nat, j: nat, ids: seq<string>, run: Runner, table: Completed, rootTraceId: string)
    requires i < |routed| == |ids| && j < |ids| && DependsOn(routed, i, j)
    requires JustifiedPlace(routed, i, ids, run, table, rootTraceId) && ids[j] in table
    ensures Honours(ids, i, j, table)
  {
    var task :| Carries(task, routed, i, ids) && Justified(task, run, table, rootTraceId);
    var k :| 0 <= k < |routed[i].dependencies| && TaskReference(routed[i].dependencies[k]) == Some(j);
    assert task.dependencies[k] == ids[j] && task.dependencies[k] in task.dependencies;
    if Fatal(table[ids[j]].status) {
      JustifiedBlocks(task, run, table, ids[j], rootTraceId);
    }
  }

  lemma RoutedTaskCarries(strategy: Strategy, routed: seq<RouterTask>, pathHints: seq<string>, ids: seq<string>, i: nat)
    requires (strategy.Sequential? || strategy.Parallel?) && i < |routed| == |ids|
    ensures |MaterializeRouterOutput(strategy, routed, pathHints).1| == |ids|
    ensures Carries(MaterializePlan(MaterializeRouterOutput(strategy, routed, pathHints).1, ids)[i], routed, i, ids)
  {
    RouterOutputKeeps(strategy, routed, pathHints);
    var plan := MaterializeRouterOutput(strategy, routed, pathHints).1;
    var task := MaterializePlan(plan, ids)[i];
    forall k | 0 <= k < |task.dependencies|
      ensures Refers(routed[i].dependencies[k], task.dependencies[k], MaterializePlan(plan, ids), ids)
    {
    }
  }

  /** How many tasks a router's output comes to. */
  function PlannedCount(strategy: Strategy, routed: seq<RouterTask>): nat {
    if strategy.Direct? || routed == [] then 0 else if strategy.Background? then 1 else |routed|
  }

  lemma RoutedResults(
    strategy: Strategy, routed: seq<RouterTask>, pathHints: seq<string>, ids: seq<string>, cap: int, run: Runner, rootTraceId: string)
    returns (table: Completed)
    requires (strategy.Sequential? || strategy.Parallel?) && |routed| == |ids| && routed != []
    requires forall i, j | 0 <= i < j < |ids| :: ids[i] != ids[j]
    requires |MaterializeRouterOutput(strategy, routed, pathHints).1| == |ids|
    requires ScheduleFrom(Start(MaterializePlan(MaterializeRouterOutput(strategy, routed, pathHints).1, ids)), cap, run, rootTraceId).ending.Finished?
    ensures RoutedJustified(
              routed, ids, run, table,
              ScheduleFrom(Start(MaterializePlan(MaterializeRouterOutput(strategy, routed, pathHints).1, ids)), cap, run, rootTraceId)
                .ending.results,
              rootTraceId)
    ensures DependentsHonoured(routed, ids, table)
  {
    var tasks := MaterializePlan(MaterializeRouterOutput(strategy, routed, pathHints).1, ids);
    forall i | 0 <= i < |routed| ensures Carries(tasks[i], routed, i, ids) {
      RoutedTaskCarries(strategy, routed, pathHints, ids, i);
    }
    table := CarriedResults(routed, ids, tasks, cap, run, rootTraceId);
  }

  lemma CarriedResults(routed: seq<RouterTask>, ids: seq<string>, tasks: seq<Task>, cap: int, run: Runner, rootTraceId: string)
    returns (table: Completed)
    requires |routed| == |ids| == |tasks| && forall i, j | 0 <= i < j < |ids| :: ids[i] != ids[j]
    requires forall i | 0 <= i < |routed| :: Carries(tasks[i], routed, i, ids)
    requires ScheduleFrom(Start(tasks), cap, run, rootTraceId).ending.Finished?
    ensures RoutedJustified(routed, ids, run, table, ScheduleFrom(Start(tasks), cap, run, rootTraceId).ending.results, rootTraceId)
    ensures DependentsHonoured(routed, ids, table)
  {
    assert DistinctIds(tasks) by {
      assert forall i | 0 <= i < |tasks| :: tasks[i].id == ids[i];
    }
    table := ResultsJustified(tasks, cap, run, rootTraceId);
    CarriedJustified(routed, ids, tasks, run, table, ScheduleFrom(Start(tasks), cap, run, rootTraceId).ending.results, rootTraceId);
  }

  lemma CarriedJustified(
    routed: seq<RouterTask>, ids: seq<string>, tasks: seq<Task>, run: Runner, table: Completed, results: seq<TaskResult>,
    rootTraceId: string)
    requires |routed| == |ids| == |tasks| && forall i, j | 0 <= i < j < |ids| :: ids[i] != ids[j]
    requires forall i | 0 <= i < |routed| :: Carries(tasks[i], routed, i, ids)
    requires Tabulates(table, results) && forall t | t in tasks :: Justified(t, run, table, rootTraceId)
    requires forall id | id in table :: exists t | t in tasks :: t.id == id
    ensures RoutedJustified(routed, ids, run, table, results, rootTraceId)
    ensures DependentsHonoured(routed, ids, table)
  {
    forall i | 0 <= i < |routed|
      ensures JustifiedPlace(routed, i, ids, run, table, rootTraceId) && tasks[i].id == ids[i] && ids[i] in table
    {
      assert tasks[i] in tasks;
      CarriedPlace(routed, i, ids, tasks[i], run, table, rootTraceId);
    }
    SameCount(ids, table, tasks);
    JustifiedHonours(routed, ids, run, table, results, rootTraceId);
  }

  lemma CarriedPlace(
    routed: seq<RouterTask>, i: nat, ids: seq<string>, task: Task, run: Runner, table: Completed, rootTraceId: string)
    requires i < |routed| == |ids| && Carries(task, routed, i, ids) && Justified(task, run, table, rootTraceId)
    ensures JustifiedPlace(routed, i, ids, run, table, rootTraceId) && task.id == ids[i] && ids[i] in table
  {
  }

  lemma SameCount(ids: seq<string>, table: Completed, tasks: seq<Task>)
    requires forall i, j | 0 <= i < j < |ids| :: ids[i] != ids[j]
    requires |tasks| == |ids| && forall i | 0 <= i < |ids| :: tasks[i].id == ids[i] && ids[i] in table
    requires forall id | id in table :: exists t | t in tasks :: t.id == id
    ensures |table| == |ids|
  {
    forall x ensures x in ids <==> x in table.Keys {
      if x in table {
        var t :| t in tasks && t.id == x;
        var i :| 0 <= i < |tasks| && tasks[i] == t;
        assert ids[i] == x;
      }
    }
    DistinctCount(ids, table.Keys);
    assert |table.Keys| == |table|;
  }

  /**
   * Whatever the cap: a routed task runs in a round before which every task that the router made it wait for had completed
   * well, and is given exactly what they left.
   */
  lemma RoutedRunsAfter(
    strategy: Strategy, routed: seq<RouterTask>, pathHints: seq<string>, ids: seq<string>, cap: int, run: Runner, rootTraceId: string,
    r: Round, i: nat, j: nat)
    requires (strategy.Sequential? || strategy.Parallel?) && i < |routed| == |ids| && j < |routed| && cap >= 0
    requires forall i, j | 0 <= i < j < |ids| :: ids[i] != ids[j]
    requires |MaterializeRouterOutput(strategy, routed, pathHints).1| == |ids|
    requires r in ScheduleFrom(Start(MaterializePlan(MaterializeRouterOutput(strategy, routed, pathHints).1, ids)), cap, run, rootTraceId).rounds
    requires MaterializePlan(MaterializeRouterOutput(strategy, routed, pathHints).1, ids)[i] in r.batch && DependsOn(routed, i, j)
    ensures ids[j] in r.before.completed && !Fatal(r.before.completed[ids[j]].status)
  {
    var tasks := MaterializePlan(MaterializeRouterOutput(strategy, routed, pathHints).1, ids);
    assert DistinctIds(tasks);
    StartKeeps(tasks, run);
    RoundsFed(GraphOf(tasks), Start(tasks), cap, run, rootTraceId);
    RoutedTaskCarries(strategy, routed, pathHints, ids, i);
    var k :| 0 <= k < |routed[i].dependencies| && TaskReference(routed[i].dependencies[k]) == Some(j);
    assert tasks[i].dependencies[k] == ids[j] && tasks[i].dependencies[k] in tasks[i].dependencies;
    assert RoundFed(GraphOf(tasks), run, r);
  }

  /**
   * `executeRequestPlan` on a router's output, up to the results that it hands to the validator: what the results are
   * and when it throws instead, whatever the strategy.
   */
  method ExecuteRequestPlan(
    strategy: Strategy, routed: seq<RouterTask>, pathHints: seq<string>, ids: seq<string>, maxParallelAgents: int, run: Runner,
    rootTraceId: string)
    returns (ending: Ending)
    requires |ids| == PlannedCount(strategy, routed)
    requires forall i, j | 0 <= i < j < |ids| :: ids[i] != ids[j]
    ensures |MaterializeRouterOutput(strategy, routed, pathHints).1| == |ids|
    ensures var g := GraphOf(MaterializePlan(MaterializeRouterOutput(strategy, routed, pathHints).1, ids));
            match ending
            case Finished(results) => AllResolve(g, run) && Complete(g, run, results)
            case Stuck => !AllResolve(g, run) || (strategy.Parallel? && maxParallelAgents < 1)
    ensures strategy.Direct? || routed == [] ==> ending == Finished([])
    ensures strategy.Parallel? && routed != [] && maxParallelAgents < 1 ==> ending.Stuck?
    ensures (strategy.Sequential? || strategy.Parallel?) && ending.Finished? ==>
              exists table ::
                && RoutedJustified(routed, ids, run, table, ending.results, rootTraceId)
                && DependentsHonoured(routed, ids, table)
    ensures strategy.Background? && routed != [] ==>
              ending == Finished([RunTask(
                                    run, Task(ids[0], ids[0], None, 1, "builder", routed[0].goal, [], ["sandbox-workdir:/"]), map[])])
  {
    RouterOutputKeeps(strategy, routed, pathHints);
    var (actual, plan) := MaterializeRouterOutput(strategy, routed, pathHints);
    var tasks := MaterializePlan(plan, ids);
    assert DistinctIds(tasks);
    ghost var cap := if actual.Parallel? then maxParallelAgents else 1;
    SchedulerComputesMeaning(tasks, cap, run, rootTraceId);
    if actual.Direct? || plan == [] {
      assert (strategy.Sequential? || strategy.Parallel?) ==> RoutedJustified(routed, ids, run, map[], [], rootTraceId);
      return Finished([]);
    }
    ghost var rounds;
    ending, rounds := ExecuteTasks(actual, tasks, maxParallelAgents, run, rootTraceId);
    if strategy.Background? {
      OneTaskRuns(tasks, run, rootTraceId);
    } else if ending.Finished? {
      var table := RoutedResults(strategy, routed, pathHints, ids, cap, run, rootTraceId);
    }
  }

  lemma OneTaskRuns(tasks: seq<Task>, run: Runner, rootTraceId: string)
    requires |tasks| == 1 && tasks[0].dependencies == []
    ensures ScheduleFrom(Start(tasks), 1, run, rootTraceId).ending == Finished([RunTask(run, tasks[0], map[])])
  {
    OneTaskFinishes(tasks, run, rootTraceId);
    var table := ResultsJustified(tasks, 1, run, rootTraceId);
    assert tasks[0] in tasks;
    OnlyKey(tasks, table);
    OneFromTable(tasks[0], run, table, ScheduleFrom(Start(tasks), 1, run, rootTraceId).ending.results, rootTraceId);
  }

  lemma OnlyKey(tasks: seq<Task>, table: Completed)
    requires |tasks| == 1 && forall id | id in table :: exists t | t in tasks :: t.id == id
    ensures forall id | id in table :: id == tasks[0].id
  {
    forall id | id in table ensures id == tasks[0].id {
      var t :| t in tasks && t.id == id;
      var i :| 0 <= i < |tasks| && tasks[i] == t;
    }
  }

  lemma OneFromTable(task: Task, run: Runner, table: Completed, results: seq<TaskResult>, rootTraceId: string)
    requires task.dependencies == [] && Tabulates(table, results) && Justified(task, run, table, rootTraceId)
    requires forall id | id in table :: id == task.id
    ensures results == [RunTask(run, task, map[])]
  {
    JustifiedAlone(task, run, table, rootTraceId);
    assert table.Keys == {task.id};
    assert |table.Keys| == |table|;
    OneResult(table, results, task.id);
  }

  lemma OneTaskFinishes(tasks: seq<Task>, run: Runner, rootTraceId: string)
    requires |tasks| == 1 && tasks[0].dependencies == []
    ensures ScheduleFrom(Start(tasks), 1, run, rootTraceId).ending.Finished?
  {
    OneTaskResolves(tasks, run);
    SchedulerComputesMeaning(tasks, 1, run, rootTraceId);
  }

  lemma OneTaskResolves(tasks: seq<Task>, run: Runner)
    requires |tasks| == 1 && tasks[0].dependencies == []
    ensures AllResolve(GraphOf(tasks), run)
  {
    var g := GraphOf(tasks);
    GraphOfTasks(tasks);
    forall id | id in g ensures Meaning(g, run)(id) != Unresolved {
      assert g[id] in tasks;
      MeaningUnfolds(g, run, id);
    }
  }

  lemma OneResult(table: Completed, results: seq<TaskResult>, id: string)
    requires Tabulates(table, results) && |table| == 1 && id in table
    ensures results == [table[id]]
  {
    var i :| 0 <= i < |results| && results[i].taskId == id;
    assert i == 0;
  }
}
