/**
 * Tasks that the coordinator runs itself: numbered progress reports, which may arrive late or twice, and one completion
 * (packages/agent/src/execution/coordinator.ts:168-202, packages/agent/src/execution/task-persistence.ts).
 */
module TaskProgress {
  import opened Wrappers
  import opened TaskRows
  import opened TaskLifecycle

  datatype Report =
    | Numbered(seqNo: int, eventId: string, at: int)
    | Completion(finish: Finish, eventId: string, now: int)

  predicate Acceptable(report: Report) {
    report.Completion? ==> CanFinishWith(report.finish.status)
  }

  function AfterReport(c: Cell, report: Report): (Outcome, Cell)
    requires Acceptable(report)
  {
    match report
    case Numbered(seqNo, eventId, at) => Progressed(c, seqNo, Some(Running), Progress, eventId, at)
    case Completion(finish, eventId, now) => Completed(c, finish, eventId, now)
  }

  function AfterReports(c: Cell, reports: seq<Report>): Cell
    requires forall r | r in reports :: Acceptable(r)
  {
    if reports == [] then c
    else
      var n := |reports| - 1;
      assert reports[n] in reports;
      AfterReport(AfterReports(c, reports[..n]), reports[n]).1
  }

  /**
   * A report is taken exactly when its number is greater than any taken before, the task has not ended and its event id is
   * new; it adds its one event, moves the number to its own and leaves the completion as it was. Otherwise nothing changes.
   */
  lemma ProgressTaken(c: Cell, seqNo: int, status: Option<Status>, kind: Kind, eventId: string, at: int)
    ensures var (outcome, d) := Progressed(c, seqNo, status, kind, eventId, at);
            && (outcome.Committed? <==>
                  c.row.lastEventSeq < seqNo && !IsTerminal(c.row.status) && !HasEvent(c.events, eventId))
            && (outcome.Committed? ==>
                  && d.row.lastEventSeq == seqNo && d.row.completion == c.row.completion && d.row.hasSecret == c.row.hasSecret
                  && d.events == c.events + [EventRow(eventId, Runtime, kind, Some(seqNo), at)])
            && (!outcome.Committed? ==> d == c)
  {
  }

  /** The numbers rise, from above `low` up to `top`. */
  predicate Rises(accepted: seq<EventRow>, low: int, top: int) {
    if accepted == [] then top == low
    else
      var before, last := accepted[..|accepted| - 1], accepted[|accepted| - 1];
      && last.seqNo == Some(top)
      && Rises(before, low, if before == [] then low else before[|before| - 1].seqNo.GetOr(low))
      && (if before == [] then low else before[|before| - 1].seqNo.GetOr(low)) < top
  }

  lemma RisesOn(accepted: seq<EventRow>, low: int, top: int, e: EventRow)
    requires Rises(accepted, low, top) && e.seqNo.Some? && top < e.seqNo.value
    ensures Rises(accepted + [e], low, e.seqNo.value)
  {
    assert (accepted + [e])[..|accepted|] == accepted;
  }

  lemma {:induction false} RisingPairs(accepted: seq<EventRow>, low: int, top: int)
    requires Rises(accepted, low, top)
    ensures low <= top && forall k | 0 <= k < |accepted| :: accepted[k].seqNo.Some? && low < accepted[k].seqNo.value <= top
    ensures forall j, k | 0 <= j < k < |accepted| :: accepted[j].seqNo.GetOr(0) < accepted[k].seqNo.GetOr(0)
  {
    if accepted != [] {
      var before := accepted[..|accepted| - 1];
      RisingPairs(before, low, if before == [] then low else before[|before| - 1].seqNo.GetOr(low));
    }
  }

  /** What holds of a task at every moment: its numbers rise up to the row's, and its end is recorded once and last. */
  predicate Orderly(c: Cell, low: int) {
    Rises(Accepted(c.events), low, c.row.lastEventSeq) && EndRecorded(c)
  }

  lemma CreatedOrderly(eventId: string, hasSecret: bool, now: int)
    ensures Orderly(
              Cell(Row(Running, 0, None, None, None, hasSecret, NOT_COMPLETED, None), [EventRow(eventId, Server, Created, None, now)]), 0)
  {
    var e := EventRow(eventId, Server, Created, None, now);
    Appended([], e);
    assert [] + [e] == [e];
  }

  lemma ReportKeeps(c: Cell, low: int, report: Report)
    requires Acceptable(report) && Orderly(c, low)
    ensures Orderly(AfterReport(c, report).1, low)
  {
    var (outcome, d) := AfterReport(c, report);
    if outcome.Committed? {
      var e := d.events[|c.events|];
      assert d.events == c.events + [e];
      Appended(c.events, e);
      AcceptedEnd(c, e, d.row);
      if report.Numbered? {
        RisesOn(Accepted(c.events), low, c.row.lastEventSeq, e);
      }
    }
  }

  /**
   * Whatever reports arrive, in whatever order and however often: the accepted ones have strictly rising numbers, the row
   * holds the last of them, and the task has ended exactly when one event records an end, with nothing after it.
   */
  lemma {:induction false} ProgressOnlyRises(c: Cell, reports: seq<Report>)
    requires (forall r | r in reports :: Acceptable(r)) && Orderly(c, c.row.lastEventSeq)
    ensures Orderly(AfterReports(c, reports), c.row.lastEventSeq)
    ensures c.row.lastEventSeq <= AfterReports(c, reports).row.lastEventSeq
  {
    if reports != [] {
      var n := |reports| - 1;
      assert reports[n] in reports;
      ProgressOnlyRises(c, reports[..n]);
      ReportKeeps(AfterReports(c, reports[..n]), c.row.lastEventSeq, reports[n]);
    }
    RisingPairs(Accepted(AfterReports(c, reports).events), c.row.lastEventSeq, AfterReports(c, reports).row.lastEventSeq);
  }

  /** After the end no report changes anything. */
  lemma {:induction false} NothingAfterTheEnd(c: Cell, reports: seq<Report>)
    requires (forall r | r in reports :: Acceptable(r)) && IsTerminal(c.row.status)
    ensures AfterReports(c, reports) == c
  {
    if reports != [] {
      NothingAfterTheEnd(c, reports[..|reports| - 1]);
    }
  }
}
