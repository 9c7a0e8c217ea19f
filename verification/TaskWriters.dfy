/**
 * The writers that finish a task without its callbacks: the supervisor's heartbeat loop and recovery
 * (packages/computer/src/harness/supervisor.ts) and the reconciler's probe (packages/computer/src/harness/reconciliation.ts).
 */
module TaskWriters {
  import opened Wrappers
  import opened TaskRows
  import opened TaskStore

  const MAX_HEARTBEAT_FAILURES: nat := 3
  const STALE_HEARTBEAT_MS := 3 * 60 * 1000

  /** Everything that calls `completeTask` for a sandbox task, with what it passes. */
  datatype Writer =
    | Finalize(exitCode: int, data: Option<ExecutionData>)
    | Timeout
    | HeartbeatLost
    | StalePreparing
    | MissingSession
    | RecoveryFailed
    | StartupFailed(message: string)
    | ProbedNoSession
    | ProbedExit(exitCode: int, collected: ExecutionData)
    | ProbedFile(success: bool, reported: Option<int>, collected: ExecutionData)

  function Collected(status: Status, exitCode: int, data: ExecutionData): (f: Finish)
    ensures f.status == status && f.exitCode == Some(exitCode) && (f.error.Some? <==> status.Failed?)
    ensures f.summary == Clip(data.summary, 2000) && (f.error.Some? ==> f.error.value == Clip(data.summary, 4000))
    ensures f.artifacts == Some(data.artifacts) && f.output.GetOr("") == data.output && f.output != Some("")
  {
    Finish(status, if data.output != "" then Some(data.output) else None, Some(data.artifacts), Clip(data.summary, 2000),
           if status.Failed? then Some(Clip(data.summary, 4000)) else None, Some(exitCode))
  }

  /** A finish without output or exit code. */
  function Bare(status: Status, summary: string, error: Option<string>): Finish {
    Finish(status, None, None, summary, error, None)
  }

  function Reason(w: Writer): string {
    match w
    case Timeout => "Task timed out."
    case HeartbeatLost => "Task lost after repeated heartbeat failures."
    case StalePreparing => "Task did not start in time."
    case MissingSession => "Task lost because the sandbox session metadata is missing."
    case RecoveryFailed => "Task lost because sandbox recovery failed."
    case StartupFailed(message) => message
    case ProbedNoSession => "Task lost because session metadata is missing."
    case _ => "Task completed"
  }

  /** The status with which a writer ends the task. */
  function EndOf(w: Writer): (s: Status)
    ensures CanFinishWith(s) && Announced(s)
    ensures s.TimedOut? <==> w.Timeout?
    ensures s.Lost? <==> w.HeartbeatLost? || w.StalePreparing? || w.MissingSession? || w.RecoveryFailed? || w.ProbedNoSession?
    ensures s.Succeeded? <==> (w.Finalize? && w.exitCode == 0) || (w.ProbedExit? && w.exitCode == 0) || (w.ProbedFile? && w.success)
  {
    match w
    case Finalize(code, _) => if code == 0 then Succeeded else Failed
    case ProbedExit(code, _) => if code == 0 then Succeeded else Failed
    case ProbedFile(success, _, _) => if success then Succeeded else Failed
    case Timeout => TimedOut
    case StartupFailed(_) => Failed
    case _ => Lost
  }

  function FinishOf(w: Writer): (f: Finish)
    ensures f.status == EndOf(w)
    ensures f.error.Some? <==> f.status.Failed? || w.StalePreparing?
    ensures f.exitCode.Some? <==> w.Finalize? || w.ProbedExit? || w.ProbedFile?
    ensures w.Finalize? || w.ProbedExit? ==> f.exitCode == Some(w.exitCode)
    ensures w.ProbedFile? ==> f.exitCode == Some(w.reported.GetOr(if w.success then 0 else 1))
  {
    match w
    case Finalize(code, data) => Collected(EndOf(w), code, data.GetOr(ExecutionData("", "[]", Reason(w))))
    case ProbedExit(code, data) => Collected(EndOf(w), code, data)
    case ProbedFile(success, reported, data) => Collected(EndOf(w), reported.GetOr(if success then 0 else 1), data)
    case _ => Bare(EndOf(w), Reason(w), if w.StalePreparing? || w.StartupFailed? then Some(Reason(w)) else None)
  }

  /** `run.sh` writes "succeeded" with exit code 0 and "failed" with any other. */
  predicate Coherent(w: Writer) {
    w.ProbedFile? && w.reported.Some? ==> (w.success <==> w.reported.value == 0)
  }

  /** The statuses for which `buildNotificationMessage` has a text. */
  predicate Announced(s: Status) {
    s.Succeeded? || s.Failed? || s.TimedOut? || s.Lost?
  }

  /** Whoever ends a task records an exit code that fits its status, if the status file is as `run.sh` writes it. */
  lemma WriterExitFits(w: Writer)
    requires Coherent(w)
    ensures ExitFits(FinishOf(w).status, FinishOf(w).exitCode)
  {
    match w
    case ProbedFile(success, reported, data) =>
      assert FinishOf(w).exitCode == Some(reported.GetOr(if success then 0 else 1));
    case _ =>
  }

  // ------------------------------------------------------------------
  // The probe
  // ------------------------------------------------------------------

  /** What the probe finds in the sandbox: nothing to ask, an error, or the command and `status.json`. */
  datatype Seen =
    | NoSession
    | Unreachable
    | Command(exitCode: Option<int>, file: Option<(bool, Option<int>)>, data: Option<ExecutionData>)

  datatype Verdict = Leave | Touch(note: bool) | Write(writer: Writer)

  /** `shouldSkipProbeFinalize`. */
  predicate StreamIsLive(snapshot: Row, now: int) {
    snapshot.lastEventSeq > 0 && snapshot.lastEventAt.Some? && now - snapshot.lastEventAt.value < 2 * STALE_HEARTBEAT_MS
  }

  function ProbeVerdict(snapshot: Row, seen: Seen, now: int): Verdict {
    if IsTerminal(snapshot.status) then Leave
    else
      match seen
      case NoSession => Write(ProbedNoSession)
      case Unreachable => Touch(false)
      case Command(Some(code), _, data) =>
        if StreamIsLive(snapshot, now) then Touch(true)
        else if data.None? then Touch(false)
        else Write(ProbedExit(code, data.value))
      case Command(None, Some((success, reported)), data) =>
        if snapshot.lastEventSeq != 0 then Touch(true)
        else if data.None? then Touch(false)
        else Write(ProbedFile(success, reported, data.value))
      case Command(None, None, _) => Touch(true)
  }

  /** What a writer leaves in the tables. */
  ghost function Finished(cells: map<string, Cell>, taskId: string, w: Writer, eventId: string, now: int): (Outcome, map<string, Cell>) {
    if taskId !in cells then (Rejected, cells)
    else
      var (o, c) := Completed(cells[taskId], FinishOf(w), eventId, now);
      (o, cells[taskId := c])
  }
}
