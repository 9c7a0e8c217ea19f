/**
 * Task rows and the transactions on them (packages/core/src/domain/task.ts, packages/computer/src/harness/task-state.ts,
 * packages/db/src/repositories/task-store-live.ts and the commit of apps/api/src/handlers/task-events.ts).
 */
module TaskRows {
  import opened Wrappers

  datatype Status =
    | Pending | AwaitingAuth | Preparing | Running
    | Succeeded | Partial | Escalated | Failed | Cancelled | TimedOut | Lost

  predicate IsTerminal(s: Status) {
    !(s.Pending? || s.AwaitingAuth? || s.Preparing? || s.Running?)
  }

  predicate IsLegalTransition(from: Status, to: Status) {
    if from == to then true
    else if IsTerminal(from) then false
    else if IsTerminal(to) then true
    else
      match to
      case Running => from.Pending? || from.AwaitingAuth? || from.Preparing? || from.Running?
      case Preparing => from.Pending? || from.AwaitingAuth?
      case AwaitingAuth => from.Pending? || from.AwaitingAuth?
      case Pending => from.Pending?
      case _ => false
  }

  /** How far a task has come. */
  function Rank(s: Status): nat {
    match s
    case Pending => 0
    case AwaitingAuth => 1
    case Preparing => 2
    case Running => 3
    case _ => 4
  }

  /** The legal transitions are those that stay or move forward, and the seven ends are as far as a task can come. */
  lemma LegalIsForward(from: Status, to: Status)
    ensures IsLegalTransition(from, to) <==> from == to || Rank(from) < Rank(to)
    ensures IsTerminal(from) <==> from in {Succeeded, Partial, Escalated, Failed, Cancelled, TimedOut, Lost}
    ensures IsTerminal(from) && IsLegalTransition(from, to) ==> to == from
  {
  }

  datatype Kind =
    | Created | Started | Progress | HeartbeatEvent
    | CompletedEvent | PartialEvent | EscalatedEvent | FailedEvent | TimedOutEvent | LostEvent
    | NotificationSent | BackendNotify | MaintenanceProbe

  predicate TerminalKind(k: Kind) {
    k.CompletedEvent? || k.PartialEvent? || k.EscalatedEvent? || k.FailedEvent? || k.TimedOutEvent? || k.LostEvent?
  }

  datatype Source = Server | Runtime | Backend | Maintenance

  datatype EventRow = EventRow(eventId: string, source: Source, kind: Kind, seqNo: Option<int>, occurredAt: int)

  /** The columns that only a terminal write fills. */
  datatype Completion = Completion(
    output: Option<string>,
    artifacts: Option<string>,
    summary: Option<string>,
    error: Option<string>,
    exitCode: Option<int>,
    completedAt: Option<int>)

  const NOT_COMPLETED := Completion(None, None, None, None, None, None)

  datatype Row = Row(
    status: Status,
    lastEventSeq: int,
    lastEventAt: Option<int>,
    heartbeatAt: Option<int>,
    lastProbeAt: Option<int>,
    hasSecret: bool,
    completion: Completion,
    notifiedStatus: Option<Status>)

  /** One task: its row and its events in insertion order. */
  datatype Cell = Cell(row: Row, events: seq<EventRow>)

  /** The unique index on (task, event id). */
  predicate HasEvent(events: seq<EventRow>, eventId: string) {
    exists e | e in events :: e.eventId == eventId
  }

  /** A transaction commits, changes nothing because its guard fails, or throws and is rolled back. */
  datatype Outcome = Committed | Rejected | RolledBack

  /** An exit code that goes with the status: 0 with success, any other with failure, or none with failure. */
  predicate ExitFits(s: Status, exitCode: Option<int>) {
    (s.Succeeded? ==> exitCode == Some(0)) && (s.Failed? ==> exitCode != Some(0))
  }

  datatype Finish = Finish(
    status: Status,
    output: Option<string>,
    artifacts: Option<string>,
    summary: string,
    error: Option<string>,
    exitCode: Option<int>)

  /** The statuses that `completeTask` accepts; there is no event kind for "cancelled". */
  predicate CanFinishWith(s: Status) {
    IsTerminal(s) && !s.Cancelled?
  }

  function KindOf(s: Status): Kind
    requires CanFinishWith(s)
  {
    match s
    case Succeeded => CompletedEvent
    case Partial => PartialEvent
    case Escalated => EscalatedEvent
    case Failed => FailedEvent
    case TimedOut => TimedOutEvent
    case Lost => LostEvent
  }

  function Clip(text: string, limit: nat): (r: string)
    ensures |r| <= limit && r <= text
    ensures r == text || |r| == limit
  {
    if |text| <= limit then text else text[..limit]
  }

  /** A callback of the kind that records an end leads to the status of that end; the two that a callback cannot bring are named. */
  lemma KindsOfEnds()
    ensures forall s | s in {Succeeded, Partial, Escalated, Failed} :: StatusOf(Of(KindOf(s))) == Some(s)
    ensures KindOf(TimedOut) == TimedOutEvent && KindOf(Lost) == LostEvent
    ensures StatusOf(Of(CompletedEvent)) == Some(Succeeded) && StatusOf(Of(FailedEvent)) == Some(Failed)
    ensures StatusOf(Of(PartialEvent)) == Some(Partial) && StatusOf(Of(EscalatedEvent)) == Some(Escalated)
    ensures forall k | k in {Started, HeartbeatEvent, Progress} :: StatusOf(Of(k)) == Some(Running)
  {
  }

  /**
   * `completeTask` ends a task exactly when it has not ended and the event id is new: the row then says what the caller gave, the
   * secret is gone, one event is added, and nothing else changes. Otherwise nothing changes at all.
   */
  lemma CompletedRecords(c: Cell, f: Finish, eventId: string, now: int)
    requires CanFinishWith(f.status)
    ensures var (outcome, d) := Completed(c, f, eventId, now);
            && (outcome.Committed? <==> !IsTerminal(c.row.status) && !HasEvent(c.events, eventId))
            && (!outcome.Committed? ==> d == c)
            && (outcome.Committed? ==>
                  && d.row == c.row.(status := f.status, hasSecret := false, completion := d.row.completion)
                  && d.row.completion.summary == Some(f.summary) && d.row.completion.completedAt == Some(now)
                  && (c.row.completion == NOT_COMPLETED ==>
                        d.row.completion == Completion(f.output, f.artifacts, Some(f.summary), f.error, f.exitCode, Some(now)))
                  && d.events == c.events + [EventRow(eventId, Server, KindOf(f.status), None, now)])
  {
  }

  /** A column set to `undefined` keeps its value. */
  function Keep<T>(value: Option<T>, before: Option<T>): Option<T> {
    if value.Some? then value else before
  }

  function Completed(c: Cell, f: Finish, eventId: string, now: int): (Outcome, Cell)
    requires CanFinishWith(f.status)
  {
    if IsTerminal(c.row.status) then (Rejected, c)
    else if HasEvent(c.events, eventId) then (RolledBack, c)
    else
      var before := c.row.completion;
      var completion := Completion(
        Keep(f.output, before.output), Keep(f.artifacts, before.artifacts), Some(f.summary), Keep(f.error, before.error),
        Keep(f.exitCode, before.exitCode), Some(now));
      (Committed, Cell(
        c.row.(status := f.status, completion := completion, hasSecret := false),
        c.events + [EventRow(eventId, Server, KindOf(f.status), None, now)]))
  }

  function Progressed(c: Cell, seqNo: int, status: Option<Status>, kind: Kind, eventId: string, at: int): (Outcome, Cell) {
    if !(c.row.lastEventSeq < seqNo) || IsTerminal(c.row.status) then (Rejected, c)
    else if HasEvent(c.events, eventId) then (RolledBack, c)
    else (Committed, Cell(
      c.row.(status := status.GetOr(c.row.status), lastEventSeq := seqNo, lastEventAt := Some(at), heartbeatAt := Some(at)),
      c.events + [EventRow(eventId, Runtime, kind, Some(seqNo), at)]))
  }

  // ------------------------------------------------------------------
  // Callbacks
  // ------------------------------------------------------------------

  datatype EventType = Of(kind: Kind) | CodexNotify | ReconcilerProbe | Unknown

  datatype Body = Body(
    eventId: string,
    eventType: EventType,
    seqNo: Option<int>,
    exitCode: Option<int>,
    message: Option<string>,
    sentAt: int)

  function NormalizeEventKind(t: EventType): Option<Kind> {
    match t
    case Of(kind) => Some(kind)
    case CodexNotify => Some(BackendNotify)
    case ReconcilerProbe => Some(MaintenanceProbe)
    case Unknown => None
  }

  function SourceOf(t: EventType): Source {
    if t.CodexNotify? || t == Of(BackendNotify) then Backend else Runtime
  }

  function StatusOf(t: EventType): Option<Status> {
    match t
    case Of(Started) => Some(Running)
    case Of(HeartbeatEvent) => Some(Running)
    case Of(Progress) => Some(Running)
    case Of(CompletedEvent) => Some(Succeeded)
    case Of(PartialEvent) => Some(Partial)
    case Of(EscalatedEvent) => Some(Escalated)
    case Of(FailedEvent) => Some(Failed)
    case _ => None
  }

  /** What the handler answers after reading the row; it goes on only with the last. */
  datatype Answer = NotAccepting | Unauthorized | Ack | UnknownKind | Proceed

  function AnswerTo(snapshot: Row, body: Body): Answer {
    if IsTerminal(snapshot.status) then NotAccepting
    else if !snapshot.hasSecret then Unauthorized
    else if body.seqNo.Some? && body.seqNo.value <= snapshot.lastEventSeq then Ack
    else if NormalizeEventKind(body.eventType).None? then UnknownKind
    else Proceed
  }

  /** Execution data fetched from the sandbox, if that worked. */
  datatype ExecutionData = ExecutionData(output: string, artifacts: string, summary: string)

  function StatusAllowed(snapshot: Row, body: Body): bool {
    StatusOf(body.eventType).None? || IsLegalTransition(snapshot.status, StatusOf(body.eventType).value)
  }

  /** The kinds for which the handler collects results and clears the callback secret. */
  predicate Finishing(body: Body) {
    body.eventType in {Of(CompletedEvent), Of(PartialEvent), Of(EscalatedEvent), Of(FailedEvent)}
  }

  function CallbackCompletion(before: Completion, body: Body, data: Option<ExecutionData>): (r: Completion)
    ensures r.completedAt == Some(body.sentAt)
    ensures body.exitCode.Some? ==> r.exitCode == body.exitCode
    ensures body.exitCode.None? ==> (r.exitCode == Some(0) <==> body.eventType != Of(FailedEvent))
    ensures body.eventType != Of(FailedEvent) ==> r.error == before.error
    ensures body.eventType == Of(FailedEvent) && r.error != before.error ==>
              r.error.Some? && r.summary.Some? && r.summary.value <= r.error.value
    ensures data.None? ==> r.output == before.output && r.artifacts == before.artifacts
    ensures data.None? && body.message.Some? && body.message.value != "" ==>
              && r.summary == Some(Clip(body.message.value, 2000))
              && (body.eventType == Of(FailedEvent) ==> r.error == Some(Clip(body.message.value, 4000)))
    ensures data.Some? ==>
              && r.summary == Some(Clip(data.value.summary, 2000)) && r.artifacts == Some(data.value.artifacts)
              && r.output.GetOr("") == data.value.output && r.output != Some("")
              && (body.eventType == Of(FailedEvent) ==> r.error == Some(Clip(data.value.summary, 4000)))
  {
    var failed := body.eventType == Of(FailedEvent);
    var exitCode := Some(body.exitCode.GetOr(if failed then 1 else 0));
    match data
    case Some(d) =>
      Completion(if d.output != "" then Some(d.output) else None, Some(d.artifacts), Some(Clip(d.summary, 2000)),
                 if failed then Some(Clip(d.summary, 4000)) else before.error, exitCode, Some(body.sentAt))
    case None =>
      if body.message.Some? && body.message.value != ""
      then before.(summary := Some(Clip(body.message.value, 2000)), error := if failed then Some(Clip(body.message.value, 4000)) else before.error, exitCode := exitCode,
                completedAt := Some(body.sentAt))
      else before.(exitCode := exitCode, completedAt := Some(body.sentAt))
  }

  /** The last transaction of the handler, on the row as it is by then; the patch was built from the snapshot. */
  function CallbackCommitted(c: Cell, snapshot: Row, body: Body, data: Option<ExecutionData>, now: int): (Outcome, Cell)
    requires NormalizeEventKind(body.eventType).Some?
  {
    var kind := NormalizeEventKind(body.eventType).value;
    var event := EventRow(body.eventId, SourceOf(body.eventType), kind, if kind.BackendNotify? then None else body.seqNo, body.sentAt);
    if kind.BackendNotify? then
      if HasEvent(c.events, body.eventId) then (RolledBack, c)
      else (Committed, Cell(
        if IsTerminal(c.row.status) then c.row else c.row.(lastEventAt := Some(body.sentAt)), c.events + [event]))
    else if IsTerminal(c.row.status) || (body.seqNo.Some? && !(c.row.lastEventSeq < body.seqNo.value)) then (Rejected, c)
    else if HasEvent(c.events, body.eventId) then (RolledBack, c)
    else
      var allowed := StatusAllowed(snapshot, body);
      var row := c.row.(
        lastEventSeq := body.seqNo.GetOr(snapshot.lastEventSeq), lastEventAt := Some(body.sentAt), heartbeatAt := Some(now),
        status := if allowed then StatusOf(body.eventType).GetOr(c.row.status) else c.row.status);
      (Committed, Cell(
        if allowed && Finishing(body)
        then row.(completion := CallbackCompletion(c.row.completion, body, data), hasSecret := false) else row,
        c.events + [event]))
  }
}
