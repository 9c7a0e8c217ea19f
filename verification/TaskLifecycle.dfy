/**
 * The life of one sandbox task, from its creation, under every interleaving of its writers: callbacks that are lost,
 * repeated and reordered and whose handlers commit long after they read the row, the supervisor, the recovery, the
 * reconciler and the notifier (apps/api/src/handlers/task-events.ts, packages/db/src/repositories/task-store-live.ts,
 * packages/computer/src/harness/supervisor.ts, packages/computer/src/harness/reconciliation.ts).
 */
module TaskLifecycle {
  import opened Wrappers
  import opened TaskRows
  import opened TaskWriters
  import opened RunScript

  /** A callback handler between its read of the row and its commit. */
  datatype Handler = Handler(snapshot: Row, body: Body)

  /**
   * `owed` counts the writers that changed the row and have yet to append the trace's terminal event, `traced` the
   * appended ones; `picked` holds the statuses that notifiers read from pending rows.
   */
  datatype Life = Life(cell: Cell, handlers: map<nat, Handler>, owed: nat, traced: nat, picked: seq<Status>)

  datatype Step =
    | MarkRunning(now: int)
    | Receive(handler: nat, body: Body)
    | Commit(handler: nat, data: Option<ExecutionData>, now: int)
    | Abandon(handler: nat)
    | Conclude(writer: Writer, eventId: string, now: int)
    | AppendTrace
    | LoseTrace
    | Heartbeat(now: int)
    | TouchProbe(now: int)
    | NoteProbe(eventId: string, now: int)
    | PickNotice
    | MarkNotified(notice: nat)

  function Prepared(eventId: string, now: int): Life {
    Life(
      Cell(Row(Preparing, 0, None, None, None, true, NOT_COMPLETED, None), [EventRow(eventId, Server, Created, None, now)]),
      map[], 0, 0, [])
  }

  /** What the sandbox posts: a body of the script, any number of times and in any order, or the notify hook's. */
  predicate Sent(script: seq<Body>, body: Body) {
    body in script || (body.eventType.CodexNotify? && body.seqNo.None?)
  }

  predicate NoticePending(row: Row) {
    IsTerminal(row.status) && row.notifiedStatus != Some(row.status)
  }

  /**
   * What the surroundings guarantee. `startTask` writes "running" without a guard; the runs here are those in which no
   * terminal write came before it, and `RunningWriteRevives` says what happens otherwise.
   */
  predicate Enabled(script: seq<Body>, s: Life, step: Step) {
    match step
    case MarkRunning(_) => !IsTerminal(s.cell.row.status)
    case Receive(h, body) => h !in s.handlers && Sent(script, body) && AnswerTo(s.cell.row, body) == Proceed
    case Commit(h, _, _) => h in s.handlers && NormalizeEventKind(s.handlers[h].body.eventType).Some?
    case AppendTrace => s.owed > 0
    case LoseTrace => s.owed > 0
    case PickNotice => NoticePending(s.cell.row) && Announced(s.cell.row.status)
    case MarkNotified(n) => n < |s.picked|
    case Conclude(w, _, _) => Coherent(w)
    case _ => true
  }

  function MarkedRunning(row: Row, now: int): Row {
    row.(status := Running, heartbeatAt := Some(now))
  }

  /** The cell after a step. */
  function CellAfter(s: Life, step: Step): Cell {
    var c := s.cell;
    match step
    case MarkRunning(now) => c.(row := MarkedRunning(c.row, now))
    case Commit(h, data, now) =>
      if h in s.handlers && NormalizeEventKind(s.handlers[h].body.eventType).Some?
      then CallbackCommitted(c, s.handlers[h].snapshot, s.handlers[h].body, data, now).1
      else c
    case Conclude(w, eventId, now) => Completed(c, FinishOf(w), eventId, now).1
    case Heartbeat(now) => c.(row := c.row.(heartbeatAt := Some(now)))
    case TouchProbe(now) => c.(row := c.row.(lastProbeAt := Some(now)))
    case NoteProbe(eventId, now) =>
      if HasEvent(c.events, eventId) then c
      else c.(events := c.events + [EventRow(eventId, Maintenance, MaintenanceProbe, None, now)])
    case MarkNotified(n) =>
      if n < |s.picked| then c.(row := c.row.(notifiedStatus := Some(s.picked[n]))) else c
    case _ => c
  }

  /** The writer whose write ended the task goes on to append the trace's terminal event; a failed start appends none. */
  predicate OwesTrace(s: Life, step: Step) {
    match step
    case Commit(h, data, now) =>
      && h in s.handlers && NormalizeEventKind(s.handlers[h].body.eventType).Some?
      && CallbackCommitted(s.cell, s.handlers[h].snapshot, s.handlers[h].body, data, now).0.Committed?
      && StatusAllowed(s.handlers[h].snapshot, s.handlers[h].body) && Finishing(s.handlers[h].body)
    case Conclude(w, eventId, now) => !w.StartupFailed? && Completed(s.cell, FinishOf(w), eventId, now).0.Committed?
    case _ => false
  }

  function After(s: Life, step: Step): Life {
    Life(
      CellAfter(s, step),
      match step {
        case Receive(h, body) => s.handlers[h := Handler(s.cell.row, body)]
        case Commit(h, _, _) => s.handlers - {h}
        case Abandon(h) => s.handlers - {h}
        case _ => s.handlers
      },
      if OwesTrace(s, step) then s.owed + 1 else if (step.AppendTrace? || step.LoseTrace?) && s.owed > 0 then s.owed - 1 else s.owed,
      if step.AppendTrace? then s.traced + 1 else s.traced,
      if step.PickNotice? then s.picked + [s.cell.row.status] else s.picked)
  }

  ghost predicate Leads(script: seq<Body>, s: Life, steps: seq<Step>, t: Life)
    decreases |steps|
  {
    if steps == [] then t == s
    else Enabled(script, s, steps[0]) && Leads(script, After(s, steps[0]), steps[1..], t)
  }

  // ------------------------------------------------------------------
  // Readings of the event table
  // ------------------------------------------------------------------

  function TerminalKinds(events: seq<EventRow>): seq<Kind> {
    if events == [] then []
    else
      var last := events[|events| - 1];
      TerminalKinds(events[..|events| - 1]) + if TerminalKind(last.kind) then [last.kind] else []
  }

  /** The events that carry a sequence number. */
  function Accepted(events: seq<EventRow>): seq<EventRow> {
    if events == [] then []
    else
      var last := events[|events| - 1];
      Accepted(events[..|events| - 1]) + if last.seqNo.Some? then [last] else []
  }

  predicate Quiet(k: Kind) {
    k.BackendNotify? || k.MaintenanceProbe?
  }

  /** Every event after the one that ended the task is a notification of the backend or the note of a probe. */
  predicate EndsOnce(events: seq<EventRow>) {
    events == [] ||
    var before := events[..|events| - 1];
    EndsOnce(before) && (TerminalKinds(before) == [] || Quiet(events[|events| - 1].kind))
  }

  /** The row that an accepted body of the script leaves. */
  function RowOf(body: Body): EventRow {
    EventRow(body.eventId, SourceOf(body.eventType), NormalizeEventKind(body.eventType).GetOr(Created), body.seqNo, body.sentAt)
  }

  /** `e` is what some body of `script` left. */
  predicate FromScript(e: EventRow, script: seq<Body>, first: int) {
    e.seqNo.Some? && first <= e.seqNo.value < first + |script| && e == RowOf(script[e.seqNo.value - first])
  }

  /** `events` are what bodies of `script` left, in its order, some left out. */
  predicate Thins(events: seq<EventRow>, script: seq<Body>, first: int) {
    events == [] ||
    var before, e := events[..|events| - 1], events[|events| - 1];
    && Thins(before, script, first)
    && FromScript(e, script, first)
    && (before == [] || before[|before| - 1].seqNo.GetOr(0) < e.seqNo.value)
  }

  lemma Appended(events: seq<EventRow>, e: EventRow)
    ensures TerminalKinds(events + [e]) == if TerminalKind(e.kind) then TerminalKinds(events) + [e.kind] else TerminalKinds(events)
    ensures Accepted(events + [e]) == if e.seqNo.Some? then Accepted(events) + [e] else Accepted(events)
    ensures EndsOnce(events + [e]) <==> EndsOnce(events) && (TerminalKinds(events) == [] || Quiet(e.kind))
  {
    var all := events + [e];
    assert all[..|all| - 1] == events;
  }

  // ------------------------------------------------------------------
  // What every step keeps
  // ------------------------------------------------------------------

  predicate RowInv(row: Row) {
    && row.status in {Preparing, Running, Succeeded, Failed, TimedOut, Lost}
    && (row.hasSecret <==> !IsTerminal(row.status))
    && (row.completion == NOT_COMPLETED <==> !IsTerminal(row.status))
    && (IsTerminal(row.status) ==> row.completion.completedAt.Some? && ExitFits(row.status, row.completion.exitCode))
    && (row.lastEventSeq > 0 ==> row.lastEventAt.Some?)
    && (row.notifiedStatus.Some? ==> IsTerminal(row.status) && row.notifiedStatus == Some(row.status))
  }

  /** The end of the task is recorded once, and last but for the quiet kinds. */
  predicate EndRecorded(c: Cell) {
    && TerminalKinds(c.events) == (if CanFinishWith(c.row.status) then [KindOf(c.row.status)] else [])
    && EndsOnce(c.events)
  }

  /** What was accepted is the script in its order, some left out, up to `top`. */
  predicate ScriptRecorded(script: seq<Body>, first: int, accepted: seq<EventRow>, top: int) {
    && Thins(accepted, script, first)
    && top == if accepted == [] then 0 else accepted[|accepted| - 1].seqNo.GetOr(0)
  }

  predicate EventsInv(script: seq<Body>, first: int, c: Cell) {
    EndRecorded(c) && ScriptRecorded(script, first, Accepted(c.events), c.row.lastEventSeq)
  }

  predicate HandlersInv(script: seq<Body>, s: Life) {
    forall h | h in s.handlers ::
      Sent(script, s.handlers[h].body) && AnswerTo(s.handlers[h].snapshot, s.handlers[h].body) == Proceed
  }

  predicate LifeInv(script: seq<Body>, first: int, s: Life) {
    && RowInv(s.cell.row) && EventsInv(script, first, s.cell) && HandlersInv(script, s)
    && s.traced + s.owed <= |TerminalKinds(s.cell.events)|
    && PickedInv(s)
  }

  predicate PickedInv(s: Life) {
    (s.picked != [] ==> IsTerminal(s.cell.row.status)) && forall i :: 0 <= i < |s.picked| ==> s.picked[i] == s.cell.row.status
  }

  /** What stays or only grows from one moment to any later one. */
  predicate Since(s: Cell, t: Cell) {
    && IsLegalTransition(s.row.status, t.row.status)
    && s.row.lastEventSeq <= t.row.lastEventSeq
    && s.events <= t.events
    && (s.row.notifiedStatus.Some? ==> t.row.notifiedStatus == s.row.notifiedStatus)
    && (IsTerminal(s.row.status) ==>
          && t.row.status == s.row.status && t.row.completion == s.row.completion
          && t.row.lastEventSeq == s.row.lastEventSeq && t.row.lastEventAt == s.row.lastEventAt
          && Accepted(t.events) == Accepted(s.events))
  }

  lemma SinceTransitive(a: Cell, b: Cell, c: Cell)
    requires Since(a, b) && Since(b, c)
    ensures Since(a, c)
  {
  }

  /** An event appended by a step that keeps the status: not terminal, unless the task has ended not accepted either. */
  lemma QuietEvent(script: seq<Body>, first: int, c: Cell, e: EventRow)
    requires EventsInv(script, first, c)
    requires Quiet(e.kind) && e.seqNo.None?
    ensures EventsInv(script, first, Cell(c.row, c.events + [e]))
  {
    Appended(c.events, e);
    var events := c.events + [e];
    assert TerminalKinds(events) == TerminalKinds(c.events) && Accepted(events) == Accepted(c.events) && EndsOnce(events);
  }

  lemma TerminalEvent(script: seq<Body>, first: int, c: Cell, e: EventRow, row: Row)
    requires EventsInv(script, first, c) && !IsTerminal(c.row.status)
    requires CanFinishWith(row.status) && e.kind == KindOf(row.status) && e.seqNo.None? && row.lastEventSeq == c.row.lastEventSeq
    ensures EventsInv(script, first, Cell(row, c.events + [e]))
  {
    Appended(c.events, e);
    var events := c.events + [e];
    assert TerminalKinds(c.events) == [];
    assert TerminalKinds(events) == [e.kind] && Accepted(events) == Accepted(c.events) && EndsOnce(events);
  }

  /** The row of a script body either reports progress of a running task or is the one of its end. */
  lemma ScriptRow(script: seq<Body>, first: int, i: nat)
    requires WellNumbered(script, first) && i < |script|
    ensures var e := RowOf(script[i]);
            && FromScript(e, script, first) && script[i].seqNo == Some(first + i)
            && script[i].eventType in {Of(Started), Of(HeartbeatEvent), Of(CompletedEvent), Of(FailedEvent)}
            && (Finishing(script[i]) ==> EndFits(script[i]))
            && StatusOf(script[i].eventType).Some?
            && var status := StatusOf(script[i].eventType).value;
               && status in {Running, Succeeded, Failed}
               && (if CanFinishWith(status) then e.kind == KindOf(status) else !TerminalKind(e.kind))
  {
  }

  lemma AcceptedEnd(c: Cell, e: EventRow, row: Row)
    requires EndRecorded(c) && !IsTerminal(c.row.status)
    requires if CanFinishWith(row.status) then e.kind == KindOf(row.status) else !TerminalKind(e.kind)
    ensures EndRecorded(Cell(row, c.events + [e]))
  {
    Appended(c.events, e);
    assert TerminalKinds(c.events) == [];
  }

  lemma AcceptedReport(script: seq<Body>, first: int, accepted: seq<EventRow>, top: int, e: EventRow)
    requires ScriptRecorded(script, first, accepted, top)
    requires FromScript(e, script, first) && top < e.seqNo.value
    ensures ScriptRecorded(script, first, accepted + [e], e.seqNo.value)
  {
    assert (accepted + [e])[..|accepted|] == accepted;
  }

  /** The handler's own legality check always passes: it is asked only about rows that are not terminal. */
  lemma StatusAlwaysAllowed(snapshot: Row, body: Body)
    requires AnswerTo(snapshot, body) == Proceed
    ensures StatusAllowed(snapshot, body)
  {
  }

  /** One write of a cell keeps the row's and the events' part of the invariant and changes only what may change. */
  predicate KeptBy(script: seq<Body>, first: int, c: Cell, d: Cell) {
    RowInv(d.row) && EventsInv(script, first, d) && Since(c, d)
  }

  lemma ConcludeKeeps(script: seq<Body>, first: int, c: Cell, w: Writer, eventId: string, now: int)
    requires RowInv(c.row) && EventsInv(script, first, c) && Coherent(w)
    ensures KeptBy(script, first, c, Completed(c, FinishOf(w), eventId, now).1)
  {
    var (outcome, d) := Completed(c, FinishOf(w), eventId, now);
    WriterExitFits(w);
    if outcome.Committed? {
      TerminalEvent(script, first, c, d.events[|c.events|], d.row);
    }
  }

  lemma NotifyKeeps(script: seq<Body>, first: int, c: Cell, h: Handler, data: Option<ExecutionData>, now: int)
    requires RowInv(c.row) && EventsInv(script, first, c) && h.body.eventType.CodexNotify?
    ensures KeptBy(script, first, c, CallbackCommitted(c, h.snapshot, h.body, data, now).1)
  {
    var (outcome, d) := CallbackCommitted(c, h.snapshot, h.body, data, now);
    if outcome.Committed? {
      QuietEvent(script, first, c, d.events[|c.events|]);
    }
  }

  lemma ReportKeeps(script: seq<Body>, first: int, c: Cell, h: Handler, i: nat, data: Option<ExecutionData>, now: int)
    requires RowInv(c.row) && EventsInv(script, first, c)
    requires WellNumbered(script, first) && i < |script| && h.body == script[i] && AnswerTo(h.snapshot, h.body) == Proceed
    ensures KeptBy(script, first, c, CallbackCommitted(c, h.snapshot, h.body, data, now).1)
  {
    ScriptRow(script, first, i);
    ReportCommitted(c, h, data, now);
    var (outcome, d) := CallbackCommitted(c, h.snapshot, h.body, data, now);
    if outcome.Committed? {
      AcceptedEnd(c, RowOf(h.body), d.row);
      AcceptedReport(script, first, Accepted(c.events), c.row.lastEventSeq, RowOf(h.body));
      Appended(c.events, RowOf(h.body));
    }
  }

  /** The commit of a body of the script, apart from the script. */
  lemma ReportCommitted(c: Cell, h: Handler, data: Option<ExecutionData>, now: int)
    requires RowInv(c.row) && AnswerTo(h.snapshot, h.body) == Proceed
    requires h.body.eventType in {Of(Started), Of(HeartbeatEvent), Of(CompletedEvent), Of(FailedEvent)} && h.body.seqNo.Some?
    requires Finishing(h.body) ==> EndFits(h.body)
    ensures var (outcome, d) := CallbackCommitted(c, h.snapshot, h.body, data, now);
            && (outcome != Committed ==> d == c)
            && (outcome.Committed? ==>
                  && !IsTerminal(c.row.status) && c.row.lastEventSeq < h.body.seqNo.value == d.row.lastEventSeq
                  && d.row.status == StatusOf(h.body.eventType).value
                  && d.events == c.events + [RowOf(h.body)]
                  && RowInv(d.row) && Since(c, d))
  {
  }

  lemma CommitKeeps(script: seq<Body>, first: int, c: Cell, h: Handler, data: Option<ExecutionData>, now: int)
    requires RowInv(c.row) && EventsInv(script, first, c)
    requires WellNumbered(script, first) && Sent(script, h.body) && AnswerTo(h.snapshot, h.body) == Proceed
    ensures KeptBy(script, first, c, CallbackCommitted(c, h.snapshot, h.body, data, now).1)
  {
    if h.body.eventType.CodexNotify? {
      NotifyKeeps(script, first, c, h, data, now);
    } else {
      var i :| 0 <= i < |script| && script[i] == h.body;
      ReportKeeps(script, first, c, h, i, data, now);
    }
  }

  /** Columns that every process writes at any time. */
  lemma TouchKeeps(script: seq<Body>, first: int, c: Cell, row: Row)
    requires RowInv(c.row) && EventsInv(script, first, c) && RowInv(row)
    requires row == c.row.(status := row.status, heartbeatAt := row.heartbeatAt, lastProbeAt := row.lastProbeAt,
                           notifiedStatus := row.notifiedStatus)
    requires row.status == c.row.status || (row.status.Running? && !IsTerminal(c.row.status))
    requires c.row.notifiedStatus.Some? ==> row.notifiedStatus == c.row.notifiedStatus
    ensures KeptBy(script, first, c, c.(row := row))
  {
    assert c.events == c.events[..|c.events|];
  }

  lemma CellKept(script: seq<Body>, first: int, s: Life, step: Step)
    requires WellNumbered(script, first) && LifeInv(script, first, s) && Enabled(script, s, step)
    ensures KeptBy(script, first, s.cell, CellAfter(s, step))
  {
    match step
    case Commit(h, data, now) => CommitKeeps(script, first, s.cell, s.handlers[h], data, now);
    case Conclude(w, eventId, now) => ConcludeKeeps(script, first, s.cell, w, eventId, now);
    case NoteProbe(eventId, now) =>
      QuietEvent(script, first, s.cell, EventRow(eventId, Maintenance, MaintenanceProbe, None, now));
    case MarkRunning(now) => TouchKeeps(script, first, s.cell, MarkedRunning(s.cell.row, now));
    case MarkNotified(n) => TouchKeeps(script, first, s.cell, s.cell.row.(notifiedStatus := Some(s.picked[n])));
    case Heartbeat(now) => TouchKeeps(script, first, s.cell, s.cell.row.(heartbeatAt := Some(now)));
    case TouchProbe(now) => TouchKeeps(script, first, s.cell, s.cell.row.(lastProbeAt := Some(now)));
    case _ => TouchKeeps(script, first, s.cell, s.cell.row);
  }

  /** A writer owes the trace an event exactly when its write ended the task, but for a start that failed. */
  lemma TraceOwedExactlyWhen(script: seq<Body>, first: int, s: Life, step: Step)
    requires WellNumbered(script, first) && LifeInv(script, first, s) && Enabled(script, s, step)
    ensures OwesTrace(s, step) <==>
              && !IsTerminal(s.cell.row.status) && IsTerminal(CellAfter(s, step).row.status)
              && !(step.Conclude? && step.writer.StartupFailed?)
  {
    match step
    case Commit(h, data, now) =>
      StatusAlwaysAllowed(s.handlers[h].snapshot, s.handlers[h].body);
      if !s.handlers[h].body.eventType.CodexNotify? {
        var i :| 0 <= i < |script| && script[i] == s.handlers[h].body;
        ScriptRow(script, first, i);
      }
    case _ =>
  }

  lemma StepKeeps(script: seq<Body>, first: int, s: Life, step: Step)
    requires WellNumbered(script, first) && LifeInv(script, first, s) && Enabled(script, s, step)
    ensures LifeInv(script, first, After(s, step)) && Since(s.cell, After(s, step).cell)
  {
    CellKept(script, first, s, step);
    TraceOwedExactlyWhen(script, first, s, step);
    PickedKept(script, s, step);
  }

  lemma PickedKept(script: seq<Body>, s: Life, step: Step)
    requires PickedInv(s) && Enabled(script, s, step) && Since(s.cell, CellAfter(s, step))
    ensures PickedInv(After(s, step))
  {
    var t := After(s, step);
    assert t.cell == CellAfter(s, step);
    assert step.PickNotice? ==> t.cell == s.cell && t.picked == s.picked + [s.cell.row.status];
    assert !step.PickNotice? ==> t.picked == s.picked;
  }

  lemma {:induction false} RunKeeps(script: seq<Body>, first: int, s: Life, steps: seq<Step>, t: Life)
    requires WellNumbered(script, first) && LifeInv(script, first, s) && Leads(script, s, steps, t)
    ensures LifeInv(script, first, t) && Since(s.cell, t.cell)
    decreases |steps|
  {
    if steps != [] {
      StepKeeps(script, first, s, steps[0]);
      RunKeeps(script, first, After(s, steps[0]), steps[1..], t);
      SinceTransitive(s.cell, After(s, steps[0]).cell, t.cell);
    }
  }

  lemma PreparedInv(script: seq<Body>, first: int, eventId: string, now: int)
    ensures LifeInv(script, first, Prepared(eventId, now))
  {
    Appended([], Prepared(eventId, now).cell.events[0]);
    assert [] + Prepared(eventId, now).cell.events == Prepared(eventId, now).cell.events;
  }
}
