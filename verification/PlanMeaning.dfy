/**
 * What a plan means, apart from any schedule: each task is resolved from the verdicts of its dependencies
 * (packages/agent/src/execution/coordinator.ts:26-36 and :416-424, locks.ts:71-73).
 */
module PlanMeaning {
  import opened Wrappers
  import opened ExecutionTypes
  import opened LeastFixpoint

  /** What a dependent task sees of a result: its data, or its summary when it has none. */
  datatype Binding = Data(json: string) | SummaryOnly(summary: string)

  type Bindings = map<string, Binding>

  /** What a specialist runner does with a task and its bindings: it returns a report or throws. */
  datatype Attempt =
    | Returned(status: Status, summary: string, data: Option<string>, issues: seq<Issue>, extras: string, traceId: string)
    | Threw(summary: string, traceId: string)

  type Runner = (Task, Bindings) -> Attempt

  function RunTask(run: Runner, task: Task, bindings: Bindings): (r: TaskResult)
    ensures r.taskId == task.id && r.rootTaskId == task.rootTaskId && r.parentTaskId == task.parentTaskId
    ensures r.depth == task.depth && r.specialist == task.specialist
    ensures var attempt := run(task, bindings);
            && r.summary == attempt.summary && r.traceId == attempt.traceId
            && (attempt.Threw? ==>
                  r.status == Failed && r.data.None? && r.extras == ""
                  && r.issues == [Issue("execution_failed", attempt.summary, None)])
            && (attempt.Returned? ==>
                  r.status == attempt.status && r.data == attempt.data && r.issues == attempt.issues && r.extras == attempt.extras)
  {
    match run(task, bindings)
    case Returned(status, summary, data, issues, extras, traceId) =>
      TaskResult(task.id, task.rootTaskId, task.parentTaskId, task.depth, task.specialist, status, summary, data, issues, extras, traceId)
    case Threw(message, traceId) =>
      TaskResult(task.id, task.rootTaskId, task.parentTaskId, task.depth, task.specialist, Failed, message, None,
                 [Issue("execution_failed", message, None)], "", traceId)
  }

  function BindingOf(result: TaskResult): Binding {
    match result.data
    case Some(json) => Data(json)
    case None => SummaryOnly(result.summary)
  }

  type Graph = map<string, Task>

  function GraphOf(tasks: seq<Task>): Graph {
    if tasks == [] then map[] else GraphOf(tasks[..|tasks| - 1])[tasks[|tasks| - 1].id := tasks[|tasks| - 1]]
  }

  datatype Verdict = Unresolved | Blocked | Ran(result: TaskResult)

  predicate Bad(v: Verdict) {
    v.Blocked? || (v.Ran? && Fatal(v.result.status))
  }

  predicate Good(v: Verdict) {
    v.Ran? && !Fatal(v.result.status)
  }

  ghost predicate AnyBad(deps: seq<string>, verdict: string -> Verdict) {
    exists d | d in deps :: Bad(verdict(d))
  }

  ghost predicate AllGood(deps: seq<string>, verdict: string -> Verdict) {
    forall d | d in deps :: Good(verdict(d))
  }

  ghost function BindAll(deps: seq<string>, verdict: string -> Verdict): Bindings {
    map d | d in deps && verdict(d).Ran? :: BindingOf(verdict(d).result)
  }

  /** One recursive step: the verdict on a task, given verdicts on its dependencies. */
  ghost function Resolve(run: Runner, task: Task, verdict: string -> Verdict): Verdict {
    if AnyBad(task.dependencies, verdict) then Blocked
    else if AllGood(task.dependencies, verdict) then Ran(RunTask(run, task, BindAll(task.dependencies, verdict)))
    else Unresolved
  }

  /** The equations of a plan: one for each of its tasks, over the verdicts on the task's dependencies. */
  ghost function StepOf(g: Graph, run: Runner): (string, string -> Verdict) -> Verdict {
    (id: string, verdict: string -> Verdict) => if id in g then Resolve(run, g[id], verdict) else Unresolved
  }

  ghost function DepsOf(g: Graph): string -> seq<string> {
    (id: string) => if id in g then g[id].dependencies else []
  }

  /** Recursive evaluation over the dependency graph, to depth `n`. */
  ghost function Eval(g: Graph, run: Runner, n: nat): string -> Verdict {
    Iterate(StepOf(g, run), Unresolved, n)
  }

  /** The verdict that recursive evaluation reaches at some depth; `Unresolved` when it reaches none. */
  ghost function Meaning(g: Graph, run: Runner): string -> Verdict {
    Limit(StepOf(g, run), Unresolved)
  }

  lemma EvalStep(g: Graph, run: Runner, n: nat, id: string)
    requires n > 0
    ensures Eval(g, run, n)(id) == if id in g then Resolve(run, g[id], Eval(g, run, n - 1)) else Unresolved
  {
  }

  lemma ResolveAgrees(run: Runner, task: Task, before: string -> Verdict, after: string -> Verdict)
    requires Extends(Unresolved, task.dependencies, before, after)
    requires Resolve(run, task, before) != Unresolved
    ensures Resolve(run, task, after) == Resolve(run, task, before)
  {
    var deps := task.dependencies;
    if AnyBad(deps, before) {
      var d :| d in deps && Bad(before(d));
      assert Bad(after(d));
    } else {
      forall d | d in deps ensures Good(after(d)) && after(d) == before(d) {
        assert Good(before(d));
      }
      assert BindAll(deps, before) == BindAll(deps, after);
    }
  }

  lemma PlanSettles(g: Graph, run: Runner)
    ensures Settles(StepOf(g, run), DepsOf(g), Unresolved)
  {
    var step, deps := StepOf(g, run), DepsOf(g);
    forall id, before, after | Extends(Unresolved, deps(id), before, after) && step(id, before) != Unresolved
      ensures step(id, after) == step(id, before)
    {
      ResolveAgrees(run, g[id], before, after);
    }
  }

  lemma MeaningIs(g: Graph, run: Runner, n: nat, id: string)
    requires Eval(g, run, n)(id) != Unresolved
    ensures Meaning(g, run)(id) == Eval(g, run, n)(id)
  {
    PlanSettles(g, run);
    LimitIs(StepOf(g, run), DepsOf(g), Unresolved, n, id);
  }

  lemma MeaningAtDepth(g: Graph, run: Runner, id: string) returns (n: nat)
    requires Meaning(g, run)(id) != Unresolved
    ensures Eval(g, run, n)(id) == Meaning(g, run)(id)
  {
    var step := StepOf(g, run);
    n :| Iterate(step, Unresolved, n)(id) != Unresolved && Limit(step, Unresolved)(id) == Iterate(step, Unresolved, n)(id);
  }

  /** The meaning solves its own recursive equation. */
  lemma MeaningUnfolds(g: Graph, run: Runner, id: string)
    requires id in g
    ensures Meaning(g, run)(id) == Resolve(run, g[id], Meaning(g, run))
  {
    PlanSettles(g, run);
    LimitSolves(StepOf(g, run), DepsOf(g), Unresolved, id);
    assert StepOf(g, run)(id, Meaning(g, run)) == Resolve(run, g[id], Meaning(g, run));
  }

  ghost predicate Solves(g: Graph, run: Runner, solution: string -> Verdict) {
    forall t | t in g :: solution(t) == Resolve(run, g[t], solution)
  }

  /** The meaning is the least solution: any map that solves the equation agrees wherever the meaning has resolved. */
  lemma MeaningIsLeast(g: Graph, run: Runner, solution: string -> Verdict, id: string)
    requires Solves(g, run, solution)
    requires Meaning(g, run)(id) != Unresolved
    ensures solution(id) == Meaning(g, run)(id)
  {
    PlanSettles(g, run);
    var step := StepOf(g, run);
    var n := MeaningAtDepth(g, run, id);
    forall k ensures step(k, solution) == Unresolved || solution(k) == step(k, solution) {
      assert k in g ==> step(k, solution) == Resolve(run, g[k], solution);
    }
    LimitIsLeast(step, DepsOf(g), Unresolved, solution, n, id);
  }

  // ------------------------------------------------------------------
  // Acyclic plans
  // ------------------------------------------------------------------

  /** Every dependency is a task of the plan with a smaller rank. */
  ghost predicate Ranked(g: Graph, rank: string -> nat) {
    forall id, d | id in g && d in g[id].dependencies :: d in g && rank(d) < rank(id)
  }

  /** Every task of an acyclic plan whose dependencies lie in the plan is resolved. */
  lemma {:induction false} RankedResolves(g: Graph, run: Runner, rank: string -> nat, id: string)
    requires Ranked(g, rank) && id in g
    ensures Meaning(g, run)(id) != Unresolved
    decreases rank(id)
  {
    forall d | d in g[id].dependencies ensures Meaning(g, run)(d) != Unresolved {
      RankedResolves(g, run, rank, d);
    }
    MeaningUnfolds(g, run, id);
  }

  // ------------------------------------------------------------------
  // Blocked tasks
  // ------------------------------------------------------------------

  /** A chain of tasks of the plan, each depending on the next, from `path[0]` to its last element. */
  ghost predicate DependencyPath(g: Graph, path: seq<string>) {
    && |path| > 0
    && forall i | 0 <= i < |path| - 1 :: path[i] in g && path[i + 1] in g[path[i]].dependencies
  }

  ghost predicate RanAndFailed(v: Verdict) {
    v.Ran? && Fatal(v.result.status)
  }

  /** `id` depends, over one step or more, on a task that ran and ended failed or escalated. */
  ghost predicate HasFailedAncestor(g: Graph, run: Runner, id: string) {
    exists path :: DependencyPath(g, path) && |path| > 1 && path[0] == id && RanAndFailed(Meaning(g, run)(path[|path| - 1]))
  }

  /** A task is blocked exactly when it has a transitive dependency that ran and ended failed or escalated. */
  lemma {:induction false} BlockedIffFailedAncestor(g: Graph, run: Runner, id: string)
    ensures Meaning(g, run)(id).Blocked? <==> HasFailedAncestor(g, run, id)
  {
    if Meaning(g, run)(id).Blocked? {
      var n := MeaningAtDepth(g, run, id);
      var path := FailedPath(g, run, n, id);
    }
    if HasFailedAncestor(g, run, id) {
      var path :| DependencyPath(g, path) && |path| > 1 && path[0] == id && RanAndFailed(Meaning(g, run)(path[|path| - 1]));
      FailureSpreads(g, run, path);
    }
  }

  lemma PathGrows(g: Graph, id: string, path: seq<string>)
    requires DependencyPath(g, path) && id in g && path[0] in g[id].dependencies
    ensures DependencyPath(g, [id] + path)
  {
    var longer := [id] + path;
    forall i | 0 <= i < |longer| - 1 ensures longer[i] in g && longer[i + 1] in g[longer[i]].dependencies {
      if i > 0 {
        assert longer[i] == path[i - 1] && longer[i + 1] == path[i - 1 + 1];
      }
    }
  }

  lemma {:induction false} FailedPath(g: Graph, run: Runner, n: nat, id: string) returns (path: seq<string>)
    requires Eval(g, run, n)(id).Blocked?
    ensures DependencyPath(g, path) && |path| > 1 && path[0] == id && RanAndFailed(Meaning(g, run)(path[|path| - 1]))
  {
    EvalStep(g, run, n, id);
    var before := Eval(g, run, n - 1);
    var d :| d in g[id].dependencies && Bad(before(d));
    MeaningIs(g, run, n - 1, d);
    var rest := [d];
    if before(d).Blocked? {
      rest := FailedPath(g, run, n - 1, d);
    }
    PathGrows(g, id, rest);
    path := [id] + rest;
    assert path[|path| - 1] == rest[|rest| - 1];
  }

  lemma {:induction false} FailureSpreads(g: Graph, run: Runner, path: seq<string>)
    requires DependencyPath(g, path) && |path| > 1 && RanAndFailed(Meaning(g, run)(path[|path| - 1]))
    ensures Meaning(g, run)(path[0]).Blocked?
  {
    var rest := path[1..];
    if |rest| > 1 {
      forall i | 0 <= i < |rest| - 1 ensures rest[i] in g && rest[i + 1] in g[rest[i]].dependencies {
        assert rest[i] == path[i + 1] && rest[i + 1] == path[i + 2];
      }
      FailureSpreads(g, run, rest);
    }
    assert path[0] in g && path[0 + 1] in g[path[0]].dependencies;
    MeaningUnfolds(g, run, path[0]);
  }
}
