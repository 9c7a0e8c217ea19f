/** Plans, tasks and results (packages/agent/src/types/execution.ts). */
module ExecutionTypes {
  import opened Wrappers

  datatype Strategy = Direct | Sequential | Parallel | Background

  datatype Status = Completed | Partial | Failed | Escalate

  /** A task of the router's plan. Its dependencies are references such as "task-0". */
  datatype PlannedTask = PlannedTask(
    parentTaskId: Option<string>,
    specialist: string,
    input: string,
    dependencies: seq<string>,
    resourceLocks: seq<string>)

  datatype Task = Task(
    id: string,
    rootTaskId: string,
    parentTaskId: Option<string>,
    depth: int,
    specialist: string,
    input: string,
    dependencies: seq<string>,
    resourceLocks: seq<string>)

  datatype Issue = Issue(code: string, message: string, dependency: Option<(string, Status)>)

  /** `extras` stands for the artifacts, metrics and background reference, which the scheduler only carries. */
  datatype TaskResult = TaskResult(
    taskId: string,
    rootTaskId: string,
    parentTaskId: Option<string>,
    depth: int,
    specialist: string,
    status: Status,
    summary: string,
    data: Option<string>,
    issues: seq<Issue>,
    extras: string,
    traceId: string)

  /** A dependency that ended this way fails its dependents. */
  predicate Fatal(status: Status) {
    status == Failed || status == Escalate
  }

  ghost predicate DistinctIds(tasks: seq<Task>) {
    forall i, j | 0 <= i < j < |tasks| :: tasks[i].id != tasks[j].id
  }
}
