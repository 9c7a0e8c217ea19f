/** What the interleavings of TaskLifecycle come to, and exactly where the unguarded paths would break it. */
module TaskOutcomes {
  import opened Wrappers
  import opened TaskRows
  import opened TaskWriters
  import opened RunScript
  import opened TaskLifecycle

  // ------------------------------------------------------------------
  // Any interleaving
  // ------------------------------------------------------------------

  lemma Reached(script: seq<Body>, first: int, id: string, now: int, steps: seq<Step>, t: Life)
    requires WellNumbered(script, first) && Leads(script, Prepared(id, now), steps, t)
    ensures LifeInv(script, first, t)
  {
    PreparedInv(script, first, id, now);
    RunKeeps(script, first, Prepared(id, now), steps, t);
  }

  /** The event at `i` records the end: no other does, and only quiet ones follow. */
  predicate OnlyEnd(events: seq<EventRow>, i: int) {
    && 0 <= i < |events| && TerminalKind(events[i].kind)
    && (forall j :: 0 <= j < i ==> !TerminalKind(events[j].kind))
    && (forall j :: i < j < |events| ==> Quiet(events[j].kind))
  }

  /** The position of the first event that records an end. */
  function EndOf(events: seq<EventRow>): nat {
    if events == [] then 0
    else
      var before := events[..|events| - 1];
      if TerminalKinds(before) != [] then EndOf(before) else |before|
  }

  lemma {:induction false} NoEnd(events: seq<EventRow>)
    ensures TerminalKinds(events) == [] <==> forall i :: 0 <= i < |events| ==> !TerminalKind(events[i].kind)
  {
    if events != [] {
      NoEnd(events[..|events| - 1]);
    }
  }

  lemma {:induction false} EndFound(events: seq<EventRow>)
    requires TerminalKinds(events) != [] && EndsOnce(events)
    ensures OnlyEnd(events, EndOf(events)) && TerminalKinds(events) == [events[EndOf(events)].kind]
  {
    var before := events[..|events| - 1];
    if TerminalKinds(before) != [] {
      EndFound(before);
    } else {
      NoEnd(before);
    }
  }

  /**
   * However the writers interleave, the task has ended exactly when one event records an end, that event is of the kind
   * of the status, only quiet ones follow it, at most one trace event was appended for it, and the exit code fits. Until then nothing of the
   * completion is filled in.
   */
  lemma EndsOnceEverywhere(script: seq<Body>, first: int, id: string, now: int, steps: seq<Step>, t: Life)
    requires WellNumbered(script, first) && Leads(script, Prepared(id, now), steps, t)
    ensures t.cell.row.status in {Preparing, Running, Succeeded, Failed, TimedOut, Lost}
    ensures IsTerminal(t.cell.row.status) ==>
              && OnlyEnd(t.cell.events, EndOf(t.cell.events))
              && t.cell.events[EndOf(t.cell.events)].kind == KindOf(t.cell.row.status)
              && t.traced + t.owed <= 1 && t.cell.row.completion.completedAt.Some? && !t.cell.row.hasSecret
              && ExitFits(t.cell.row.status, t.cell.row.completion.exitCode)
    ensures !IsTerminal(t.cell.row.status) ==>
              && (forall i :: 0 <= i < |t.cell.events| ==> !TerminalKind(t.cell.events[i].kind))
              && t.traced + t.owed == 0 && t.cell.row.completion == NOT_COMPLETED && t.cell.row.hasSecret
  {
    Reached(script, first, id, now, steps, t);
    NoEnd(t.cell.events);
    if IsTerminal(t.cell.row.status) {
      EndFound(t.cell.events);
    }
  }

  /**
   * The first writer to end the task wins: from then on its status, its completion and what was accepted are fixed.
   * Before and after, the status only moves forward, sequence numbers never go back and events are only added.
   */
  lemma FirstWriterWins(
    script: seq<Body>, first: int, id: string, now: int, before: seq<Step>, s: Life, later: seq<Step>, t: Life)
    requires WellNumbered(script, first) && Leads(script, Prepared(id, now), before, s) && Leads(script, s, later, t)
    ensures IsTerminal(s.cell.row.status) ==>
              && t.cell.row.status == s.cell.row.status && t.cell.row.completion == s.cell.row.completion
              && t.cell.row.lastEventSeq == s.cell.row.lastEventSeq && Accepted(t.cell.events) == Accepted(s.cell.events)
    ensures IsLegalTransition(s.cell.row.status, t.cell.row.status)
    ensures s.cell.row.lastEventSeq <= t.cell.row.lastEventSeq && s.cell.events <= t.cell.events
    ensures s.traced <= t.traced
  {
    Reached(script, first, id, now, before, s);
    RunKeeps(script, first, s, later, t);
    TracesGrow(script, s, later, t);
  }

  lemma {:induction false} TracesGrow(script: seq<Body>, s: Life, steps: seq<Step>, t: Life)
    requires Leads(script, s, steps, t)
    ensures s.traced <= t.traced
    decreases |steps|
  {
    if steps != [] {
      TracesGrow(script, After(s, steps[0]), steps[1..], t);
    }
  }

  /** `picks` are increasing positions of `script` whose bodies left `events`. */
  predicate Picks(events: seq<EventRow>, script: seq<Body>, picks: seq<nat>) {
    && |picks| == |events|
    && (forall k :: 0 <= k < |picks| ==> picks[k] < |script| && events[k] == RowOf(script[picks[k]]))
    && (forall j, k :: 0 <= j < k < |picks| ==> picks[j] < picks[k])
  }

  /** `events` are what bodies of `script` left, in its order, some left out. */
  ghost predicate LeftBySome(events: seq<EventRow>, script: seq<Body>) {
    exists picks :: Picks(events, script, picks)
  }

  function PicksOf(events: seq<EventRow>, script: seq<Body>, first: int): (picks: seq<nat>)
    requires Thins(events, script, first)
    ensures Picks(events, script, picks)
    ensures events != [] ==> picks[|events| - 1] == events[|events| - 1].seqNo.GetOr(0) - first
  {
    if events == [] then []
    else
      var before, e := events[..|events| - 1], events[|events| - 1];
      PicksOf(before, script, first) + [e.seqNo.value - first]
  }

  /**
   * Whatever was lost, repeated or reordered on the way, the events with a sequence number are the bodies that `run.sh`
   * sent, in the order it sent them, some left out; an accepted end is the last of them, and `lastEventSeq` is theirs.
   */
  lemma AcceptedThinTheScript(script: seq<Body>, first: int, id: string, now: int, steps: seq<Step>, t: Life)
    requires WellNumbered(script, first) && Leads(script, Prepared(id, now), steps, t)
    ensures var accepted := Accepted(t.cell.events);
            && LeftBySome(accepted, script)
            && (forall k :: 0 <= k < |accepted| - 1 ==> !TerminalKind(accepted[k].kind))
            && t.cell.row.lastEventSeq == if accepted == [] then 0 else accepted[|accepted| - 1].seqNo.GetOr(0)
  {
    Reached(script, first, id, now, steps, t);
    ThinnedScript(Accepted(t.cell.events), script, first);
  }

  lemma ThinnedScript(events: seq<EventRow>, script: seq<Body>, first: int)
    requires WellNumbered(script, first) && Thins(events, script, first)
    ensures LeftBySome(events, script)
    ensures forall k :: 0 <= k < |events| - 1 ==> !TerminalKind(events[k].kind)
  {
    var picks := PicksOf(events, script, first);
    forall k | 0 <= k < |events| - 1
      ensures !TerminalKind(events[k].kind)
    {
      assert picks[k] < picks[|events| - 1] < |script|;
      ScriptRow(script, first, picks[k]);
    }
  }

  /** Once a finished task is marked as notified no notifier finds it pending again; each way to finish has a text. */
  lemma NotifiedForGood(
    script: seq<Body>, first: int, id: string, now: int, before: seq<Step>, s: Life, later: seq<Step>, t: Life)
    requires WellNumbered(script, first) && Leads(script, Prepared(id, now), before, s) && Leads(script, s, later, t)
    ensures s.cell.row.notifiedStatus.Some? ==> !NoticePending(t.cell.row)
    ensures NoticePending(s.cell.row) ==> Announced(s.cell.row.status)
    ensures t.cell.row.notifiedStatus.Some? ==> t.cell.row.notifiedStatus == Some(t.cell.row.status) && IsTerminal(t.cell.row.status)
  {
    Reached(script, first, id, now, before, s);
    RunKeeps(script, first, s, later, t);
  }

  /**
   * The probe concludes from the command's exit code exactly when no callback was accepted or none in the last six
   * minutes, and from `status.json` exactly when none was accepted and the command still runs.
   */
  lemma ProbeDefersToCallbacks(
    script: seq<Body>, first: int, id: string, now: int, steps: seq<Step>, t: Life,
    exitCode: Option<int>, file: Option<(bool, Option<int>)>, data: ExecutionData, at: int)
    requires WellNumbered(script, first) && first > 0 && Leads(script, Prepared(id, now), steps, t)
    ensures var accepted := Accepted(t.cell.events);
            var verdict := ProbeVerdict(t.cell.row, Command(exitCode, file, Some(data)), at);
            verdict.Write? <==>
              && !IsTerminal(t.cell.row.status)
              && if exitCode.Some?
                 then accepted == [] || at - t.cell.row.lastEventAt.GetOr(at) >= 360000
                 else accepted == [] && file.Some?
  {
    Reached(script, first, id, now, steps, t);
    AcceptedAny(script, first, t.cell);
  }

  lemma AcceptedAny(script: seq<Body>, first: int, c: Cell)
    requires first > 0 && ScriptRecorded(script, first, Accepted(c.events), c.row.lastEventSeq)
    ensures c.row.lastEventSeq >= 0
    ensures Accepted(c.events) == [] <==> c.row.lastEventSeq == 0
  {
    var accepted := Accepted(c.events);
    if accepted != [] {
      assert FromScript(accepted[|accepted| - 1], script, first);
    }
  }

  // ------------------------------------------------------------------
  // Delivery in order
  // ------------------------------------------------------------------

  /** Each body's handler reads and commits before the next body arrives. */
  function Delivered(c: Cell, bodies: seq<Body>, data: nat -> Option<ExecutionData>, now: nat -> int): Cell {
    if bodies == [] then c
    else
      var n := |bodies| - 1;
      var before := Delivered(c, bodies[..n], data, now);
      if AnswerTo(before.row, bodies[n]) == Proceed then CallbackCommitted(before, before.row, bodies[n], data(n), now(n)).1
      else before
  }

  function Rows(bodies: seq<Body>): seq<EventRow> {
    seq(|bodies|, i requires 0 <= i < |bodies| => RowOf(bodies[i]))
  }

  predicate FreshIds(events: seq<EventRow>, bodies: seq<Body>) {
    && (forall i :: 0 <= i < |bodies| ==> !HasEvent(events, bodies[i].eventId))
    && (forall i, j :: 0 <= i < j < |bodies| ==> bodies[i].eventId != bodies[j].eventId)
  }

  /** The cell after the first `k` bodies of the script, all accepted. */
  predicate PrefixTaken(c: Cell, d: Cell, script: seq<Body>, first: int, exitCode: int, k: nat)
    requires k <= |script|
  {
    && d.events == c.events + Rows(script[..k])
    && (if k == 0 then d == c else d.row.lastEventSeq == first + k - 1)
    && (0 < k < |script| ==> d.row.status.Running? && d.row.hasSecret)
    && (0 < k == |script| ==>
          d.row.status == (if exitCode == 0 then Succeeded else Failed) && d.row.completion.exitCode == Some(exitCode))
  }

  lemma {:induction false} PrefixAccepted(
    c: Cell, script: seq<Body>, first: int, beats: nat, exitCode: int, k: nat,
    data: nat -> Option<ExecutionData>, now: nat -> int)
    requires WellNumbered(script, first) && Reports(script, beats, exitCode) && FreshIds(c.events, script)
    requires c.row.status in {Preparing, Running} && c.row.hasSecret && c.row.lastEventSeq < first
    requires k <= |script|
    ensures PrefixTaken(c, Delivered(c, script[..k], data, now), script, first, exitCode, k)
  {
    if k == 0 {
      assert c.events + Rows(script[..0]) == c.events;
    } else {
      PrefixAccepted(c, script, first, beats, exitCode, k - 1, data, now);
      assert script[..k][..k - 1] == script[..k - 1];
      FreshAfter(c.events, script, k - 1);
      NextTaken(c, Delivered(c, script[..k - 1], data, now), script, first, beats, exitCode, k - 1, data(k - 1), now(k - 1));
    }
  }

  lemma NextTaken(
    c: Cell, d: Cell, script: seq<Body>, first: int, beats: nat, exitCode: int, k: nat, data: Option<ExecutionData>, now: int)
    requires WellNumbered(script, first) && Reports(script, beats, exitCode) && k < |script|
    requires c.row.status in {Preparing, Running} && c.row.hasSecret && c.row.lastEventSeq < first
    requires PrefixTaken(c, d, script, first, exitCode, k) && !HasEvent(d.events, script[k].eventId)
    ensures AnswerTo(d.row, script[k]) == Proceed
    ensures PrefixTaken(c, CallbackCommitted(d, d.row, script[k], data, now).1, script, first, exitCode, k + 1)
  {
    DeliveredOne(d, script[k], data, now);
    RowsGrow(script, k);
    assert Finishing(script[k]) <==> k + 1 == |script|;
  }

  lemma RowsGrow(script: seq<Body>, k: nat)
    requires k < |script|
    ensures Rows(script[..k + 1]) == Rows(script[..k]) + [RowOf(script[k])]
  {
  }

  lemma FreshAfter(events: seq<EventRow>, script: seq<Body>, k: nat)
    requires FreshIds(events, script) && k < |script|
    ensures !HasEvent(events + Rows(script[..k]), script[k].eventId)
  {
  }

  lemma DeliveredOne(c: Cell, body: Body, data: Option<ExecutionData>, now: int)
    requires c.row.status in {Preparing, Running} && c.row.hasSecret && !HasEvent(c.events, body.eventId)
    requires body.seqNo.Some? && c.row.lastEventSeq < body.seqNo.value
    requires body.eventType in {Of(Started), Of(HeartbeatEvent), Of(CompletedEvent), Of(FailedEvent)}
    ensures AnswerTo(c.row, body) == Proceed
    ensures var d := CallbackCommitted(c, c.row, body, data, now).1;
            && d.events == c.events + [RowOf(body)] && d.row.lastEventSeq == body.seqNo.value
            && d.row.status == StatusOf(body.eventType).value
            && (!Finishing(body) ==> d.row.hasSecret)
            && (Finishing(body) && body.exitCode.Some? ==> d.row.completion.exitCode == body.exitCode)
  {
  }

  /** If every body arrives in order and nothing else ends the task, all are accepted and the exit code decides the status. */
  lemma InOrderAllAccepted(
    c: Cell, script: seq<Body>, first: int, beats: nat, exitCode: int, data: nat -> Option<ExecutionData>, now: nat -> int)
    requires WellNumbered(script, first) && Reports(script, beats, exitCode) && FreshIds(c.events, script)
    requires c.row.status in {Preparing, Running} && c.row.hasSecret && c.row.lastEventSeq < first
    ensures var d := Delivered(c, script, data, now);
            && d.events == c.events + Rows(script)
            && d.row.lastEventSeq == first + beats + 1
            && d.row.status == (if exitCode == 0 then Succeeded else Failed)
            && d.row.completion.exitCode == Some(exitCode)
  {
    assert script[..|script|] == script && |script| > 0;
    PrefixAccepted(c, script, first, beats, exitCode, |script|, data, now);
  }

  // ------------------------------------------------------------------
  // Where the guards do not reach
  // ------------------------------------------------------------------

  /**
   * For any body at all, a commit records an end without ending the task exactly for the two kinds that the handler
   * takes but maps to no status.
   */
  lemma EndRecordedWithoutStatus(c: Cell, h: Handler, data: Option<ExecutionData>, now: int)
    requires AnswerTo(h.snapshot, h.body) == Proceed
    ensures var (outcome, d) := CallbackCommitted(c, h.snapshot, h.body, data, now);
            outcome.Committed? ==>
              (TerminalKind(d.events[|c.events|].kind) && !IsTerminal(d.row.status)
               <==> h.body.eventType in {Of(TimedOutEvent), Of(LostEvent)})
  {
    StatusAlwaysAllowed(h.snapshot, h.body);
  }

  /**
   * For any body at all, a commit lowers `lastEventSeq` exactly when the body has no sequence number, is no notification
   * and is committed after the row moved on from what its handler read.
   */
  lemma SequenceLowered(c: Cell, h: Handler, data: Option<ExecutionData>, now: int)
    requires AnswerTo(h.snapshot, h.body) == Proceed
    ensures CallbackCommitted(c, h.snapshot, h.body, data, now).1.row.lastEventSeq < c.row.lastEventSeq <==>
            && h.body.seqNo.None? && NormalizeEventKind(h.body.eventType) != Some(BackendNotify)
            && h.snapshot.lastEventSeq < c.row.lastEventSeq
            && !IsTerminal(c.row.status) && !HasEvent(c.events, h.body.eventId)
  {
  }

  /** The notify hook adds its event once, whatever the task's state, and moves only the time of the last event, if the task has not ended. */
  lemma NotificationOnlyNotes(c: Cell, h: Handler, data: Option<ExecutionData>, now: int)
    requires h.body.eventType.CodexNotify?
    ensures CallbackCommitted(c, h.snapshot, h.body, data, now)
         == if HasEvent(c.events, h.body.eventId) then (RolledBack, c)
            else (Committed, Cell(
                    if IsTerminal(c.row.status) then c.row else c.row.(lastEventAt := Some(h.body.sentAt)),
                    c.events + [EventRow(h.body.eventId, Backend, BackendNotify, None, h.body.sentAt)]))
  {
  }

  /** A handler that reads and commits at once answers early exactly when its commit would fail its guard. */
  lemma EarlyAnswerIsTheGuard(c: Cell, body: Body, data: Option<ExecutionData>, now: int)
    requires NormalizeEventKind(body.eventType).Some? && NormalizeEventKind(body.eventType) != Some(BackendNotify)
    requires c.row.hasSecret && !HasEvent(c.events, body.eventId)
    ensures AnswerTo(c.row, body) == Proceed <==> CallbackCommitted(c, c.row, body, data, now).0.Committed?
    ensures AnswerTo(c.row, body) != Proceed <==> CallbackCommitted(c, c.row, body, data, now) == (Rejected, c)
  {
  }

  /** A committed report sets both times, and neither the notified status nor the time of the last probe. */
  lemma ReportSetsTimes(c: Cell, h: Handler, data: Option<ExecutionData>, now: int)
    requires AnswerTo(h.snapshot, h.body) == Proceed && NormalizeEventKind(h.body.eventType) != Some(BackendNotify)
    ensures var (outcome, d) := CallbackCommitted(c, h.snapshot, h.body, data, now);
            outcome.Committed? ==>
              && d.row.heartbeatAt == Some(now) && d.row.lastEventAt == Some(h.body.sentAt)
              && d.row.notifiedStatus == c.row.notifiedStatus && d.row.lastProbeAt == c.row.lastProbeAt
              && d.row.status == StatusOf(h.body.eventType).GetOr(c.row.status)
  {
    StatusAlwaysAllowed(h.snapshot, h.body);
  }

  /** The sandbox sends no body that meets either condition. */
  lemma SentBodiesMeetNeither(script: seq<Body>, first: int, body: Body)
    requires WellNumbered(script, first) && Sent(script, body)
    ensures body.eventType !in {Of(TimedOutEvent), Of(LostEvent)}
    ensures body.seqNo.None? ==> NormalizeEventKind(body.eventType) == Some(BackendNotify)
  {
    if body in script {
      var i :| 0 <= i < |script| && script[i] == body;
      ScriptRow(script, first, i);
    }
  }

  /** A running task of which five events were accepted. */
  const RUNNING := Cell(
    Row(Running, 5, Some(0), Some(0), None, true, NOT_COMPLETED, None), [EventRow("created", Server, Created, None, 0)])

  /** The callback "task.lost" leaves the task running, with its end on record. */
  lemma LostCallbackLeavesTaskRunning()
    ensures var h := Handler(RUNNING.row, Body("lost", Of(LostEvent), Some(6), None, None, 1));
            var (outcome, d) := CallbackCommitted(RUNNING, h.snapshot, h.body, None, 1);
            && AnswerTo(h.snapshot, h.body) == Proceed && outcome.Committed?
            && d.row.status.Running? && d.events == RUNNING.events + [EventRow("lost", Runtime, LostEvent, Some(6), 1)]
  {
    assert !HasEvent(RUNNING.events, "lost");
  }

  /** A progress callback without a number, whose handler read the row two events ago, takes the number back by two. */
  lemma StaleSequenceWrittenBack()
    ensures var h := Handler(RUNNING.row.(lastEventSeq := 3), Body("late", Of(Progress), None, None, None, 1));
            && AnswerTo(h.snapshot, h.body) == Proceed
            && CallbackCommitted(RUNNING, h.snapshot, h.body, None, 1).0.Committed?
            && CallbackCommitted(RUNNING, h.snapshot, h.body, None, 1).1.row.lastEventSeq == 3
  {
    assert !HasEvent(RUNNING.events, "late");
  }

  /** The unguarded "running" write of `startTask` keeps what every other write keeps exactly when the task has not ended. */
  lemma RunningWriteRevives(script: seq<Body>, first: int, s: Life, now: int)
    requires WellNumbered(script, first) && LifeInv(script, first, s)
    ensures LifeInv(script, first, After(s, MarkRunning(now))) <==> !IsTerminal(s.cell.row.status)
  {
    if !IsTerminal(s.cell.row.status) {
      StepKeeps(script, first, s, MarkRunning(now));
    }
  }

  /** A task that ended while it was being prepared is revived and then ended again, with two ends on record. */
  lemma RevivedTaskEndsTwice(id: string, now: int, ids: (string, string))
    requires id != ids.0 && id != ids.1 && ids.0 != ids.1
    ensures var lost := After(Prepared(id, now), Conclude(StalePreparing, ids.0, now));
            var revived := After(lost, MarkRunning(now));
            var t := After(revived, Conclude(Timeout, ids.1, now));
            lost.cell.row.status.Lost? && t.cell.row.status.TimedOut? && t.owed == 2
            && TerminalKinds(t.cell.events) == [LostEvent, TimedOutEvent]
  {
    var prepared := Prepared(id, now);
    NothingEndedYet(id, now);
    ConcludeOpen(prepared, StalePreparing, ids.0, now);
    var revived := After(After(prepared, Conclude(StalePreparing, ids.0, now)), MarkRunning(now));
    assert !HasEvent(revived.cell.events, ids.1);
    ConcludeOpen(revived, Timeout, ids.1, now);
  }

  lemma NothingEndedYet(id: string, now: int)
    ensures TerminalKinds(Prepared(id, now).cell.events) == []
    ensures forall other | HasEvent(Prepared(id, now).cell.events, other) :: other == id
  {
    PreparedInv([], 1, id, now);
  }

  /** Nothing but the row's status and the event's id stands in the way of `completeTask`. */
  lemma ConcludeOpen(s: Life, w: Writer, eventId: string, now: int)
    requires !IsTerminal(s.cell.row.status) && !HasEvent(s.cell.events, eventId)
    ensures var t := After(s, Conclude(w, eventId, now));
            && t.cell.row.status == FinishOf(w).status && t.owed == s.owed + (if w.StartupFailed? then 0 else 1)
            && t.cell.events == s.cell.events + [EventRow(eventId, Server, KindOf(FinishOf(w).status), None, now)]
            && TerminalKinds(t.cell.events) == TerminalKinds(s.cell.events) + [KindOf(FinishOf(w).status)]
  {
    Appended(s.cell.events, EventRow(eventId, Server, KindOf(FinishOf(w).status), None, now));
  }
}
