/** What `run.sh` posts from inside the sandbox (packages/computer/src/harness/wrapper-script.ts). */
module RunScript {
  import opened Wrappers
  import opened TaskRows

  /** `artifacts/status.json`: the status, the sequence number and the exit code written last. */
  datatype StatusFile = StatusFile(status: string, seqNo: int, exitCode: Option<int>)

  /** The body of one callback; its event id hashes the task, the sequence number and the type. */
  function Post(idOf: (int, Kind) -> string, at: int -> int, kind: Kind, seqNo: int, message: string, exitCode: Option<int>): Body {
    Body(idOf(seqNo, kind), Of(kind), Some(seqNo), exitCode, Some(message), at(seqNo))
  }

  /**
   * Bodies numbered one after the other from `first`, which report progress and then at most one end,
   * in the last of them.
   */
  predicate WellNumbered(script: seq<Body>, first: int) {
    forall i :: 0 <= i < |script| ==>
      && script[i].seqNo == Some(first + i)
      && (script[i].eventType in {Of(Started), Of(HeartbeatEvent)}
          || (i == |script| - 1 && script[i].eventType in {Of(CompletedEvent), Of(FailedEvent)} && EndFits(script[i])))
  }

  /** Completion is reported with exit code 0, and failure with any other. */
  predicate EndFits(body: Body) {
    body.exitCode.Some? && (body.eventType == Of(CompletedEvent) <==> body.exitCode.value == 0)
  }

  /** The callbacks of one run in which the agent process was seen alive `beats` times and left `exitCode`. */
  predicate Reports(script: seq<Body>, beats: nat, exitCode: int) {
    && |script| == beats + 2
    && script[0].eventType == Of(Started)
    && (forall i :: 1 <= i <= beats ==> script[i].eventType == Of(HeartbeatEvent))
    && script[beats + 1].eventType == Of(if exitCode == 0 then CompletedEvent else FailedEvent)
    && script[beats + 1].exitCode == Some(exitCode)
  }

  method Run(first: int, beats: nat, exitCode: int, idOf: (int, Kind) -> string, at: int -> int)
    returns (sent: seq<Body>, file: StatusFile)
    ensures WellNumbered(sent, first) && Reports(sent, beats, exitCode)
    ensures file == StatusFile(
                      if sent[|sent| - 1].eventType == Of(CompletedEvent) then "succeeded" else "failed",
                      first + |sent| - 1, sent[|sent| - 1].exitCode)
    ensures forall i :: 0 <= i < |sent| ==>
              sent[i].sentAt == at(first + i) && exists k :: sent[i].eventId == idOf(first + i, k) && sent[i].eventType == Of(k)
  {
    var seqNo := first;
    sent := [Post(idOf, at, Started, seqNo, "Task started", None)];
    seqNo := seqNo + 1;
    var beat := 0;
    while beat < beats
      invariant beat <= beats && seqNo == first + |sent| && |sent| == beat + 1
      invariant sent[0].eventType == Of(Started)
      invariant forall i :: 1 <= i <= beat ==> sent[i].eventType == Of(HeartbeatEvent)
      invariant forall i :: 0 <= i < |sent| ==> sent[i].seqNo == Some(first + i)
      invariant forall i :: 0 <= i < |sent| ==>
                  sent[i].sentAt == at(first + i) && exists k :: sent[i].eventId == idOf(first + i, k) && sent[i].eventType == Of(k)
    {
      sent := sent + [Post(idOf, at, HeartbeatEvent, seqNo, "still running", None)];
      seqNo := seqNo + 1;
      beat := beat + 1;
    }
    if exitCode == 0 {
      file := StatusFile("succeeded", seqNo, Some(exitCode));
      sent := sent + [Post(idOf, at, CompletedEvent, seqNo, "Task completed", Some(exitCode))];
    } else {
      file := StatusFile("failed", seqNo, Some(exitCode));
      sent := sent + [Post(idOf, at, FailedEvent, seqNo, "Task failed", Some(exitCode))];
    }
  }
}
