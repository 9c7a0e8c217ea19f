/**
 * The supervisor's heartbeat loop (packages/computer/src/harness/supervisor.ts) and the probe of one task
 * (packages/computer/src/harness/reconciliation.ts), which both conclude a task through the store.
 *
 * What a method read before its last await is a parameter, so the store may have moved on since.
 */
module TaskSupervisor {
  import opened Wrappers
  import opened TaskRows
  import opened TaskStore
  import opened TaskWriters

  datatype ActiveTask = ActiveTask(startedAt: int, timeoutSeconds: int, consecutiveFailures: nat, hasCallbacks: bool)

  /** One turn of the heartbeat loop for a task: a call to its sandbox threw, or how the command is. */
  datatype Beat = Threw | Passed(exitCode: Option<int>)

  /** What the loop does about it: keep watching, stop watching, or write and stop watching. */
  datatype Decision = Watch(task: ActiveTask) | Forget | Conclude(writer: Writer)

  predicate Overdue(task: ActiveTask, now: int) {
    now - task.startedAt > 1000 * task.timeoutSeconds
  }

  /** `current` is the status read before the write, if it could be read. */
  function Decide(task: ActiveTask, beat: Beat, current: Option<Status>, data: Option<ExecutionData>, now: int): Decision {
    var finished := current.Some? && IsTerminal(current.value);
    match beat
    case Threw =>
      if task.consecutiveFailures + 1 < MAX_HEARTBEAT_FAILURES
      then Watch(task.(consecutiveFailures := task.consecutiveFailures + 1))
      else if current.None? || finished then Forget
      else Conclude(HeartbeatLost)
    case Passed(exitCode) =>
      if !task.hasCallbacks && exitCode.Some? then
        if finished then Forget else Conclude(Finalize(exitCode.value, data))
      else if Overdue(task, now) then
        if current.None? || finished then Forget else Conclude(Timeout)
      else if task.hasCallbacks then Watch(task)
      else Watch(task.(consecutiveFailures := 0))
  }

  class TaskSupervisor {
    const store: TaskStore
    var activeTasks: map<string, ActiveTask>
    /** Trace events appended when a task ended. */
    var traced: seq<(string, Status)>

    constructor (store: TaskStore)
      ensures this.store == store && activeTasks == map[] && traced == []
    {
      this.store, activeTasks, traced := store, map[], [];
    }

    /** `completeTask`, and the trace event if that changed the row. */
    method Finish(taskId: string, w: Writer, eventId: string, now: int) returns (outcome: Outcome)
      requires store.Valid()
      modifies this`traced, store
      ensures store.Valid()
      ensures (outcome, store.Cells()) == Finished(old(store.Cells()), taskId, w, eventId, now)
      ensures traced == if outcome.Committed? then old(traced) + [(taskId, FinishOf(w).status)] else old(traced)
    {
      outcome := store.CompleteTask(taskId, FinishOf(w), eventId, now);
      if outcome.Committed? {
        traced := traced + [(taskId, FinishOf(w).status)];
      }
    }

    method FinalizeTask(taskId: string, exitCode: int, current: Option<Status>, data: Option<ExecutionData>, eventId: string, now: int)
      requires store.Valid()
      modifies this, store
      ensures store.Valid() && activeTasks == old(activeTasks) - {taskId}
      ensures taskId !in old(activeTasks) || (current.Some? && IsTerminal(current.value)) ==>
                store.Cells() == old(store.Cells()) && traced == old(traced)
      ensures taskId in old(activeTasks) && !(current.Some? && IsTerminal(current.value)) ==>
                Concluded(old(store.Cells()), old(traced), taskId, Finalize(exitCode, data), eventId, now)
      ensures taskId in old(store.Cells()) && taskId in store.Cells() && store.Cells()[taskId].row != old(store.Cells())[taskId].row ==>
                && store.Cells()[taskId].row.status == (if exitCode == 0 then Succeeded else Failed)
                && store.Cells()[taskId].row.completion.exitCode == Some(exitCode)
    {
      if taskId !in activeTasks {
        return;
      }
      if !(current.Some? && IsTerminal(current.value)) {
        var _ := Finish(taskId, Finalize(exitCode, data), eventId, now);
      }
      activeTasks := activeTasks - {taskId};
    }

    method TimeoutTask(taskId: string, current: Option<Status>, eventId: string, now: int)
      requires store.Valid()
      modifies this, store
      ensures store.Valid() && activeTasks == old(activeTasks) - {taskId}
      ensures current.None? || IsTerminal(current.value) ==> store.Cells() == old(store.Cells()) && traced == old(traced)
      ensures current.Some? && !IsTerminal(current.value) ==>
                Concluded(old(store.Cells()), old(traced), taskId, Timeout, eventId, now)
      ensures taskId in old(store.Cells()) && taskId in store.Cells() && store.Cells()[taskId].row != old(store.Cells())[taskId].row ==>
                store.Cells()[taskId].row.status == TimedOut
    {
      if current.Some? && !IsTerminal(current.value) {
        var _ := Finish(taskId, Timeout, eventId, now);
      }
      activeTasks := activeTasks - {taskId};
    }

    ghost predicate Concluded(
      cells: map<string, Cell>, before: seq<(string, Status)>, taskId: string, w: Writer, eventId: string, now: int)
      reads this, store
      requires store.Valid()
    {
      var (outcome, after) := Finished(cells, taskId, w, eventId, now);
      && store.Cells() == after
      && traced == if outcome.Committed? then before + [(taskId, FinishOf(w).status)] else before
    }

    /** A call to the sandbox threw. */
    method OnThrow(taskId: string, current: Option<Status>, eventId: string, now: int)
      requires store.Valid() && taskId in activeTasks
      modifies this, store
      ensures store.Valid()
      ensures match Decide(old(activeTasks)[taskId], Threw, current, None, now)
              case Watch(next) =>
                activeTasks == old(activeTasks)[taskId := next] && store.Cells() == old(store.Cells()) && traced == old(traced)
              case Forget =>
                activeTasks == old(activeTasks) - {taskId} && store.Cells() == old(store.Cells()) && traced == old(traced)
              case Conclude(w) =>
                activeTasks == old(activeTasks) - {taskId} && Concluded(old(store.Cells()), old(traced), taskId, w, eventId, now)
    {
      var task := activeTasks[taskId];
      task := task.(consecutiveFailures := task.consecutiveFailures + 1);
      activeTasks := activeTasks[taskId := task];
      if task.consecutiveFailures >= MAX_HEARTBEAT_FAILURES {
        if current.Some? && !IsTerminal(current.value) {
          var _ := Finish(taskId, HeartbeatLost, eventId, now);
        }
        activeTasks := activeTasks - {taskId};
      }
    }

    method OnBeat(
      taskId: string, beat: Beat, current: Option<Status>, data: Option<ExecutionData>, eventId: string, now: int)
      requires store.Valid() && taskId in activeTasks
      modifies this, store
      ensures store.Valid()
      ensures var task := old(activeTasks)[taskId];
              var cells := if beat.Passed? && !task.hasCallbacks then Beaten(old(store.Cells()), taskId, now) else old(store.Cells());
              match Decide(task, beat, current, data, now)
              case Watch(next) =>
                activeTasks == old(activeTasks)[taskId := next] && store.Cells() == cells && traced == old(traced)
              case Forget =>
                activeTasks == old(activeTasks) - {taskId} && store.Cells() == cells && traced == old(traced)
              case Conclude(w) =>
                activeTasks == old(activeTasks) - {taskId} && Concluded(cells, old(traced), taskId, w, eventId, now)
    {
      var task := activeTasks[taskId];
      if beat.Threw? {
        OnThrow(taskId, current, eventId, now);
        return;
      }
      if task.hasCallbacks {
        if Overdue(task, now) {
          TimeoutTask(taskId, current, eventId, now);
        }
        return;
      }
      store.Heartbeat(taskId, now);
      task := task.(consecutiveFailures := 0);
      activeTasks := activeTasks[taskId := task];
      if beat.exitCode.Some? {
        FinalizeTask(taskId, beat.exitCode.value, current, data, eventId, now);
      } else if Overdue(task, now) {
        TimeoutTask(taskId, current, eventId, now);
      }
    }

    /** `probeSingleTask` on the row `snapshot` that the caller read. */
    method ProbeSingleTask(taskId: string, snapshot: Row, seen: Seen, eventIds: (string, string), now: int)
      requires store.Valid()
      modifies this`traced, store
      ensures store.Valid()
      ensures match ProbeVerdict(snapshot, seen, now)
              case Leave => store.Cells() == old(store.Cells()) && traced == old(traced)
              case Touch(note) =>
                store.Cells() == Noted(Probed(old(store.Cells()), taskId, now), note, taskId, eventIds.1, now) && traced == old(traced)
              case Write(w) =>
                var (outcome, cells) := Finished(old(store.Cells()), taskId, w, eventIds.0, now);
                && store.Cells() == Noted(cells, outcome.Committed?, taskId, eventIds.1, now)
                && traced == if outcome.Committed? then old(traced) + [(taskId, FinishOf(w).status)] else old(traced)
      ensures taskId in old(store.Cells()) ==>
                taskId in store.Cells()
                && ProbeLeaves(old(store.Cells())[taskId], store.Cells()[taskId].row, snapshot, seen, eventIds.0, now)
    {
      if taskId in store.Cells() {
        ProbeLeft(store.Cells()[taskId], snapshot, seen, eventIds.0, now);
      }
      match ProbeVerdict(snapshot, seen, now)
      case Leave =>
      case Touch(note) =>
        store.TouchProbe(taskId, now);
        if note {
          var _ := store.AppendEvent(taskId, EventRow(eventIds.1, Maintenance, MaintenanceProbe, None, now));
        }
      case Write(w) =>
        var outcome := Finish(taskId, w, eventIds.0, now);
        if outcome.Committed? {
          var _ := store.AppendEvent(taskId, EventRow(eventIds.1, Maintenance, MaintenanceProbe, None, now));
        }
    }
  }

  ghost function Beaten(cells: map<string, Cell>, taskId: string, now: int): map<string, Cell> {
    if taskId in cells then cells[taskId := cells[taskId].(row := cells[taskId].row.(heartbeatAt := Some(now)))] else cells
  }

  ghost function Probed(cells: map<string, Cell>, taskId: string, now: int): map<string, Cell> {
    if taskId in cells then cells[taskId := cells[taskId].(row := cells[taskId].row.(lastProbeAt := Some(now)))] else cells
  }

  /** The event row that records a probe, unless its id is taken or the task is unknown. */
  ghost function Noted(cells: map<string, Cell>, note: bool, taskId: string, eventId: string, now: int): map<string, Cell> {
    if !note || taskId !in cells || HasEvent(cells[taskId].events, eventId) then cells
    else cells[taskId := cells[taskId].(events := cells[taskId].events + [EventRow(eventId, Maintenance, MaintenanceProbe, None, now)])]
  }

  // ------------------------------------------------------------------
  // What a probe leaves
  // ------------------------------------------------------------------

  /** What was found lets the probe end the task: see `shouldSkipProbeFinalize` for the six minutes. */
  predicate Conclusive(snapshot: Row, seen: Seen, now: int) {
    match seen
    case NoSession => true
    case Unreachable => false
    case Command(exitCode, file, data) =>
      && data.Some?
      && if exitCode.Some? then snapshot.lastEventSeq <= 0 || snapshot.lastEventAt.None? || now - snapshot.lastEventAt.value >= 360000
         else file.Some? && snapshot.lastEventSeq == 0
  }

  /**
   * The row after a probe. It is ended exactly when what was found is conclusive and neither the snapshot nor the row had ended;
   * then the command's exit code decides, or else the reported status, and the rest is what was collected in the sandbox. What was
   * found without being conclusive only leaves the time of the probe.
   */
  ghost predicate ProbeLeaves(before: Cell, after: Row, snapshot: Row, seen: Seen, eventId: string, now: int) {
    var ended := !IsTerminal(before.row.status) && IsTerminal(after.status);
    && (ended <==>
          && !IsTerminal(before.row.status) && !HasEvent(before.events, eventId)
          && !IsTerminal(snapshot.status) && Conclusive(snapshot, seen, now))
    && (!ended ==>
          after == if !IsTerminal(snapshot.status) && !Conclusive(snapshot, seen, now) then before.row.(lastProbeAt := Some(now)) else before.row)
    && (ended ==>
          match seen
          case NoSession =>
            && after.status == Lost && after.completion.exitCode == before.row.completion.exitCode
            && after.completion.error == before.row.completion.error
          case Unreachable => false
          case Command(exitCode, file, data) =>
            var failed := if exitCode.Some? then exitCode.value != 0 else !file.value.0;
            && after.status == (if failed then Failed else Succeeded)
            && after.completion.exitCode ==
               Some(if exitCode.Some? then exitCode.value else file.value.1.GetOr(if failed then 1 else 0))
            && after.completion.summary == Some(Clip(data.value.summary, 2000))
            && after.completion.artifacts == Some(data.value.artifacts)
            && after.completion.output == (if data.value.output != "" then Some(data.value.output) else before.row.completion.output)
            && after.completion.error == (if failed then Some(Clip(data.value.summary, 4000)) else before.row.completion.error)
            && after.completion.completedAt == Some(now))
  }

  lemma ProbeLeft(c: Cell, snapshot: Row, seen: Seen, eventId: string, now: int)
    ensures match ProbeVerdict(snapshot, seen, now)
            case Leave => ProbeLeaves(c, c.row, snapshot, seen, eventId, now)
            case Touch(_) => ProbeLeaves(c, c.row.(lastProbeAt := Some(now)), snapshot, seen, eventId, now)
            case Write(w) => ProbeLeaves(c, Completed(c, FinishOf(w), eventId, now).1.row, snapshot, seen, eventId, now)
  {
    var verdict := ProbeVerdict(snapshot, seen, now);
    if verdict.Write? {
      assert Conclusive(snapshot, seen, now);
      WrittenLeft(c, snapshot, seen, verdict.writer, eventId, now);
    }
  }

  lemma WrittenLeft(c: Cell, snapshot: Row, seen: Seen, w: Writer, eventId: string, now: int)
    requires ProbeVerdict(snapshot, seen, now) == Write(w) && Conclusive(snapshot, seen, now)
    ensures ProbeLeaves(c, Completed(c, FinishOf(w), eventId, now).1.row, snapshot, seen, eventId, now)
  {
    CompletedRecords(c, FinishOf(w), eventId, now);
  }

  // ------------------------------------------------------------------
  // When a watched task ends
  // ------------------------------------------------------------------

  /**
   * A watched task is timed out exactly when a beat passes, the task was seen not to have ended, more time has passed since its
   * start than it was given, and, where the loop asks for it, the command has not exited.
   */
  lemma TimesOutExactlyWhen(task: ActiveTask, beat: Beat, current: Option<Status>, data: Option<ExecutionData>, now: int)
    ensures Decide(task, beat, current, data, now) == Conclude(Timeout) <==>
            && beat.Passed? && (task.hasCallbacks || beat.exitCode.None?)
            && current.Some? && !IsTerminal(current.value)
            && now > task.startedAt + 1000 * task.timeoutSeconds
  {
  }

  /** It is finalized exactly when it has no callbacks and the command has exited, unless it was seen to have ended. */
  lemma FinalizesExactlyWhen(task: ActiveTask, beat: Beat, current: Option<Status>, data: Option<ExecutionData>, now: int, exitCode: int)
    ensures Decide(task, beat, current, data, now) == Conclude(Finalize(exitCode, data)) <==>
            beat == Passed(Some(exitCode)) && !task.hasCallbacks && !(current.Some? && IsTerminal(current.value))
  {
  }

  // ------------------------------------------------------------------
  // When a task is declared lost
  // ------------------------------------------------------------------

  /** The decision on the last beat, if no earlier one ended the watch; `current` and `now` may differ at each beat. */
  function Watched(task: ActiveTask, beats: seq<Beat>, current: nat -> Option<Status>, now: nat -> int): Decision {
    if beats == [] then Watch(task)
    else
      var last := |beats| - 1;
      var before := Watched(task, beats[..last], current, now);
      if before.Watch? then Decide(before.task, beats[last], current(last), None, now(last)) else before
  }

  function Throws(beats: seq<Beat>): nat {
    if beats == [] then 0 else Throws(beats[..|beats| - 1]) + if beats[|beats| - 1].Threw? then 1 else 0
  }

  function TrailingThrows(beats: seq<Beat>): nat {
    if beats == [] || beats[|beats| - 1].Passed? then 0 else 1 + TrailingThrows(beats[..|beats| - 1])
  }

  lemma {:induction false} TrailingThrowsAre(beats: seq<Beat>)
    ensures TrailingThrows(beats) <= |beats|
    ensures forall i :: |beats| - TrailingThrows(beats) <= i < |beats| ==> beats[i].Threw?
    ensures TrailingThrows(beats) < |beats| ==> beats[|beats| - TrailingThrows(beats) - 1].Passed?
  {
    if beats != [] && beats[|beats| - 1].Threw? {
      TrailingThrowsAre(beats[..|beats| - 1]);
    }
  }

  /**
   * While a task is watched its counter holds the throws in a row, but for a task with callbacks every throw since it
   * was started: for those the branch that passes goes on to the next task without clearing the counter.
   */
  lemma {:induction false} FailuresCounted(task: ActiveTask, beats: seq<Beat>, current: nat -> Option<Status>, now: nat -> int)
    requires task.consecutiveFailures == 0 && Watched(task, beats, current, now).Watch?
    ensures var t := Watched(task, beats, current, now).task;
            t == task.(consecutiveFailures := if task.hasCallbacks then Throws(beats) else TrailingThrows(beats))
            && t.consecutiveFailures < MAX_HEARTBEAT_FAILURES
  {
    if beats != [] {
      FailuresCounted(task, beats[..|beats| - 1], current, now);
    }
  }

  /**
   * A task still watched is declared lost at the next beat exactly when that beat throws, its status can be read and is
   * not terminal, and it is the third throw: in a row for a task without callbacks, in all for a task with them.
   */
  lemma LostExactlyWhen(task: ActiveTask, beats: seq<Beat>, beat: Beat, current: nat -> Option<Status>, now: nat -> int)
    requires task.consecutiveFailures == 0 && Watched(task, beats, current, now).Watch?
    ensures Watched(task, beats + [beat], current, now) == Conclude(HeartbeatLost) <==>
            && beat.Threw?
            && current(|beats|).Some? && !IsTerminal(current(|beats|).value)
            && (if task.hasCallbacks then Throws(beats + [beat]) else TrailingThrows(beats + [beat])) >= MAX_HEARTBEAT_FAILURES
    ensures Watched(task, beats + [beat], current, now) == Conclude(HeartbeatLost) && !task.hasCallbacks ==>
              |beats| >= 2 && beats[|beats| - 1].Threw? && beats[|beats| - 2].Threw?
  {
    var all := beats + [beat];
    assert all[..|all| - 1] == beats;
    FailuresCounted(task, beats, current, now);
    TrailingThrowsAre(all);
    assert |beats| >= 2 ==> all[|all| - 2] == beats[|beats| - 1] && all[|all| - 3] == beats[|beats| - 2];
  }

  /** Throws that were not in a row do lose a task with callbacks; one without them survives the same beats. */
  lemma ScatteredThrowsLoseCallbackTasks(task: ActiveTask, current: nat -> Option<Status>, now: nat -> int)
    requires task.consecutiveFailures == 0 && (forall i: nat :: !Overdue(task, now(i)))
    requires forall i: nat :: current(i) == Some(Running)
    ensures var beats := [Threw, Passed(None), Threw, Passed(None), Threw];
            (Watched(task, beats, current, now) == Conclude(HeartbeatLost) <==> task.hasCallbacks)
            && (Watched(task, beats, current, now).Watch? <==> !task.hasCallbacks)
  {
    var b1, b2 := [Threw], [Threw, Passed(None)];
    var b3, b4 := b2 + [Threw], b2 + [Threw, Passed(None)];
    var beats := b4 + [Threw];
    assert b1[..0] == [] && b2[..1] == b1 && b3[..2] == b2 && b4[..3] == b3 && beats[..4] == b4;
    var one := task.(consecutiveFailures := 1);
    assert Watched(task, b1, current, now) == Watch(one);
    var two := if task.hasCallbacks then one else task;
    assert Watched(task, b2, current, now) == Watch(two);
    assert Watched(task, b3, current, now) == Watch(two.(consecutiveFailures := two.consecutiveFailures + 1));
    assert Watched(task, b4, current, now).Watch?;
    assert beats == [Threw, Passed(None), Threw, Passed(None), Threw];
  }
}
