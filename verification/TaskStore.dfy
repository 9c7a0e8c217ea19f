/** The task store: one transaction per method over the task and event tables (packages/db/src/repositories/task-store-live.ts). */
module TaskStore {
  import opened Wrappers
  import opened TaskRows

  class TaskStore {
    var rows: map<string, Row>
    /** The event rows of each task, in insertion order. */
    var events: map<string, seq<EventRow>>

    ghost predicate Valid()
      reads this
    {
      rows.Keys == events.Keys
    }

    ghost function Cells(): map<string, Cell>
      reads this
      requires Valid()
    {
      map id | id in rows :: Cell(rows[id], events[id])
    }

    constructor ()
      ensures Valid() && Cells() == map[]
    {
      rows, events := map[], map[];
    }

    method CreateTask(taskId: string, status: Status, hasSecret: bool, eventId: string, now: int) returns (outcome: Outcome)
      requires Valid()
      modifies this
      ensures Valid()
      ensures outcome == if taskId in old(Cells()) then RolledBack else Committed
      ensures Cells() == if outcome.RolledBack? then old(Cells())
                         else old(Cells())[taskId := Cell(
                           Row(status, 0, None, None, None, hasSecret, NOT_COMPLETED, None),
                           [EventRow(eventId, Server, Created, None, now)])]
    {
      if taskId in rows {
        return RolledBack;
      }
      rows := rows[taskId := Row(status, 0, None, None, None, hasSecret, NOT_COMPLETED, None)];
      events := events[taskId := [EventRow(eventId, Server, Created, None, now)]];
      return Committed;
    }

    /** Takes over one task's new row and event in one transaction. */
    method Commit(taskId: string, row: Row, event: EventRow) returns (outcome: Outcome)
      requires Valid() && taskId in rows
      modifies this
      ensures Valid()
      ensures outcome == if HasEvent(old(events)[taskId], event.eventId) then RolledBack else Committed
      ensures Cells() == if outcome.RolledBack? then old(Cells())
                         else old(Cells())[taskId := Cell(row, old(events)[taskId] + [event])]
    {
      if HasEvent(events[taskId], event.eventId) {
        return RolledBack;
      }
      rows := rows[taskId := row];
      events := events[taskId := events[taskId] + [event]];
      return Committed;
    }

    method CompleteTask(taskId: string, f: Finish, eventId: string, now: int) returns (outcome: Outcome)
      requires Valid() && CanFinishWith(f.status)
      modifies this
      ensures Valid()
      ensures taskId !in old(Cells()) ==> outcome.Rejected? && Cells() == old(Cells())
      ensures taskId in old(Cells()) ==>
                var (o, c) := Completed(old(Cells())[taskId], f, eventId, now);
                outcome == o && Cells() == old(Cells())[taskId := c]
    {
      if taskId !in rows || IsTerminal(rows[taskId].status) {
        return Rejected;
      }
      var row := rows[taskId];
      var completion := Completion(
        Keep(f.output, row.completion.output), Keep(f.artifacts, row.completion.artifacts), Some(f.summary),
        Keep(f.error, row.completion.error), Keep(f.exitCode, row.completion.exitCode), Some(now));
      outcome := Commit(taskId, row.(status := f.status, completion := completion, hasSecret := false),
                        EventRow(eventId, Server, KindOf(f.status), None, now));
    }

    method AppendProgressEvent(taskId: string, seqNo: int, status: Option<Status>, kind: Kind, eventId: string, at: int)
      returns (outcome: Outcome)
      requires Valid()
      modifies this
      ensures Valid()
      ensures taskId !in old(Cells()) ==> outcome.Rejected? && Cells() == old(Cells())
      ensures taskId in old(Cells()) ==>
                var (o, c) := Progressed(old(Cells())[taskId], seqNo, status, kind, eventId, at);
                outcome == o && Cells() == old(Cells())[taskId := c]
      ensures outcome.Committed? ==>
                && taskId in old(Cells()) && old(Cells())[taskId].row.lastEventSeq < seqNo && !IsTerminal(old(Cells())[taskId].row.status)
                && Cells()[taskId].row.lastEventSeq == seqNo
                && Cells()[taskId].row.completion == old(Cells())[taskId].row.completion
    {
      if taskId !in rows || !(rows[taskId].lastEventSeq < seqNo) || IsTerminal(rows[taskId].status) {
        return Rejected;
      }
      var row := rows[taskId];
      outcome := Commit(
        taskId,
        row.(status := status.GetOr(row.status), lastEventSeq := seqNo, lastEventAt := Some(at), heartbeatAt := Some(at)),
        EventRow(eventId, Runtime, kind, Some(seqNo), at));
    }

    /** The commit of the callback handler, with the snapshot that it read and the data that it fetched since. */
    method CommitCallback(taskId: string, snapshot: Row, body: Body, data: Option<ExecutionData>, now: int)
      returns (outcome: Outcome)
      requires Valid() && taskId in rows && NormalizeEventKind(body.eventType).Some?
      modifies this
      ensures Valid()
      ensures var (o, c) := CallbackCommitted(old(Cells())[taskId], snapshot, body, data, now);
              outcome == o && Cells() == old(Cells())[taskId := c]
    {
      var row := rows[taskId];
      var kind := NormalizeEventKind(body.eventType).value;
      var source := SourceOf(body.eventType);
      if kind.BackendNotify? {
        outcome := Commit(
          taskId, if IsTerminal(row.status) then row else row.(lastEventAt := Some(body.sentAt)),
          EventRow(body.eventId, source, kind, None, body.sentAt));
        return;
      }
      if IsTerminal(row.status) || (body.seqNo.Some? && !(row.lastEventSeq < body.seqNo.value)) {
        return Rejected;
      }
      var allowed := StatusAllowed(snapshot, body);
      var patched := row.(
        lastEventSeq := body.seqNo.GetOr(snapshot.lastEventSeq), lastEventAt := Some(body.sentAt), heartbeatAt := Some(now),
        status := if allowed then StatusOf(body.eventType).GetOr(row.status) else row.status);
      if allowed && Finishing(body) {
        patched := patched.(completion := CallbackCompletion(row.completion, body, data), hasSecret := false);
      }
      outcome := Commit(taskId, patched, EventRow(body.eventId, source, kind, body.seqNo, body.sentAt));
    }

    /** `heartbeat`, `touchProbe` and `markNotified` write their own columns whatever the status is. */
    method Heartbeat(taskId: string, now: int)
      requires Valid()
      modifies this`rows
      ensures Valid()
      ensures Cells() == if taskId in old(Cells())
                         then var c := old(Cells())[taskId]; old(Cells())[taskId := c.(row := c.row.(heartbeatAt := Some(now)))]
                         else old(Cells())
    {
      if taskId in rows {
        rows := rows[taskId := rows[taskId].(heartbeatAt := Some(now))];
      }
    }

    method TouchProbe(taskId: string, now: int)
      requires Valid()
      modifies this`rows
      ensures Valid()
      ensures Cells() == if taskId in old(Cells())
                         then var c := old(Cells())[taskId]; old(Cells())[taskId := c.(row := c.row.(lastProbeAt := Some(now)))]
                         else old(Cells())
    {
      if taskId in rows {
        rows := rows[taskId := rows[taskId].(lastProbeAt := Some(now))];
      }
    }

    method MarkNotified(taskId: string, status: Status)
      requires Valid()
      modifies this`rows
      ensures Valid()
      ensures Cells() == if taskId in old(Cells())
                         then var c := old(Cells())[taskId]; old(Cells())[taskId := c.(row := c.row.(notifiedStatus := Some(status)))]
                         else old(Cells())
    {
      if taskId in rows {
        rows := rows[taskId := rows[taskId].(notifiedStatus := Some(status))];
      }
    }

    method AppendEvent(taskId: string, event: EventRow) returns (outcome: Outcome)
      requires Valid()
      modifies this
      ensures Valid()
      ensures outcome == if taskId !in old(Cells()) || HasEvent(old(Cells())[taskId].events, event.eventId) then RolledBack else Committed
      ensures Cells() == if outcome.RolledBack? then old(Cells())
                         else var c := old(Cells())[taskId]; old(Cells())[taskId := c.(events := c.events + [event])]
    {
      if taskId !in rows {
        return RolledBack;
      }
      outcome := Commit(taskId, rows[taskId], event);
    }
  }
}
