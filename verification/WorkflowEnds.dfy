/** How a workflow leaves its session when it ends, and what a superseded one has written (apps/api/src/workflows/agent-execution.ts). */
module WorkflowEnds {
  import opened Wrappers
  import opened ConversationSession
  import opened SessionRuns
  import opened AgentExecution

  // ------------------------------------------------------------------
  // Ending without completing
  // ------------------------------------------------------------------

  /** The workflow has ended and the session still executes under its token. */
  ghost predicate Stalled(s: System, token: string) {
    token in s.flows && s.flows[token].place.Ended? && Active(s.world, token)
  }

  /**
   * Besides the return for a missing user, these end a workflow: the error reply, or the claim before it, throws for good,
   * or the completion that follows it does.
   */
  predicate EndsUnnotified(f: Flow, step: FlowStep) {
    match step
    case Start(hasFrom, hasUser) => !hasFrom && !hasUser
    case SendRelinkNotice(again) => !again
    case SkipRelinkNotice(again) => !again
    case ErrorReplyThrows => true
    case NotifyThrows => f.place.AfterErrorReply?
    case _ => false
  }

  /**
   * A step that ends a workflow leaves the session in execution under its token exactly when it is not the accepted
   * completion; the steps of that kind are those of `EndsUnnotified`.
   */
  lemma EndReleasesIffNotified(s: System, token: string, step: FlowStep)
    requires SystemInv(s) && Possible(s, OfFlow(token, step)) && OnFlow(s, token, step).flows[token].place.Ended?
    ensures Active(OnFlow(s, token, step).world, token) <==> !step.Notify?
    ensures !step.Notify? <==> EndsUnnotified(s.flows[token], step)
  {
    assert FlowFits(s.world, token, s.flows[token]);
    if step.Notify? {
      CompletedShape(s.world.session, token, step.userId, step.conversationId, step.now);
    } else {
      assert CallOf(token, step).None?;
    }
  }

  /** Nothing commits, nothing is taken out of the buffer and no other execution begins. */
  ghost predicate StandsStill(a: World, b: World) {
    && b.committed == a.committed && InFlight(b.session) == InFlight(a.session)
    && |b.executions| == |a.executions|
    && |a.session.buffer| <= |b.session.buffer|
  }

  /** In a stalled session no workflow has a step left, and a launch that is still awaited can no longer fail. */
  lemma StalledLeavesOnly(s: System, token: string, e: SystemEvent)
    requires SystemInv(s) && Stalled(s, token)
    ensures Possible(s, e) ==> e.OfSession? && (e.event.Ingest? || e.event.LaunchSucceeds?)
  {
    if e.OfFlow? && e.token in s.flows {
      assert FlowFits(s.world, e.token, s.flows[e.token]);
    }
  }

  /** No event of any actor gets a stalled session out of its execution. */
  lemma StalledKept(s: System, e: SystemEvent, token: string)
    requires SystemInv(s) && Stalled(s, token) && Possible(s, e)
    ensures Stalled(Do(s, e), token) && StandsStill(s.world, Do(s, e).world)
  {
    StalledLeavesOnly(s, token, e);
    if e.event.Ingest? {
      IngestExecuting(s.world.session, e.event.message, e.event.chatId, e.event.now);
    }
  }

  /** Once stalled, a session is stalled for the rest of the run, whatever else arrives. */
  lemma {:induction false} StalledForGood(events: seq<SystemEvent>, n: nat, token: string)
    requires n <= |events| && RunSystem(events).Some?
    requires RunSystem(events[..n]).Some? && Stalled(RunSystem(events[..n]).value, token)
    ensures Stalled(RunSystem(events).value, token)
    ensures StandsStill(RunSystem(events[..n]).value.world, RunSystem(events).value.world)
  {
    if n < |events| {
      var shorter := events[..|events| - 1];
      assert shorter[..n] == events[..n];
      StalledForGood(shorter, n, token);
      SystemReachable(shorter);
      StalledKept(RunSystem(shorter).value, events[|events| - 1], token);
    } else {
      assert events[..n] == events;
    }
  }

  lemma InactiveKept(w: World, e: Event, token: string)
    requires Enabled(w, e) && UsedToken(w, token) && !Active(w, token)
    ensures !Active(Apply(w, e), token) && UsedToken(Apply(w, e), token)
  {
    KeepsToken(w, e, token);
    match e
    case Ingest(m, chatId, now) =>
      if w.session.phase.Executing? {
        IngestExecuting(w.session, m, chatId, now);
      }
    case CompleteRun(t, userId, conversationId, now) =>
      if Active(w, t) {
        CompletedShape(w.session, t, userId, conversationId, now);
      }
    case _ =>
  }

  /** A token whose execution is over is never active again. */
  lemma {:induction false} InactiveForGood(events: seq<SystemEvent>, n: nat, token: string)
    requires n <= |events| && RunSystem(events).Some? && RunSystem(events[..n]).Some?
    requires UsedToken(RunSystem(events[..n]).value.world, token) && !Active(RunSystem(events[..n]).value.world, token)
    ensures UsedToken(RunSystem(events).value.world, token) && !Active(RunSystem(events).value.world, token)
  {
    if n < |events| {
      var shorter, last := events[..|events| - 1], events[|events| - 1];
      assert shorter[..n] == events[..n];
      InactiveForGood(shorter, n, token);
      var s := RunSystem(shorter).value;
      match last
      case OfSession(event) => InactiveKept(s.world, event, token);
      case OfFlow(other, step) =>
        if CallOf(other, step).Some? {
          InactiveKept(s.world, CallOf(other, step).value, token);
        }
    } else {
      assert events[..n] == events;
    }
  }

  /** Event `i` of a run takes it from one prefix to the next. */
  lemma PrefixDoes(events: seq<SystemEvent>, i: nat) returns (s: System)
    requires RunSystem(events).Some? && i < |events|
    ensures RunSystem(events[..i]) == Some(s) && SystemInv(s) && Possible(s, events[i])
    ensures RunSystem(events[..i + 1]) == Some(Do(s, events[i]))
  {
    SystemPrefix(events, i);
    SystemReachable(events[..i]);
    s := RunSystem(events[..i]).value;
    assert events[..i + 1][..i] == events[..i];
  }

  /** Event `i` is the step with which the workflow of this token ends. */
  ghost predicate EndsAt(events: seq<SystemEvent>, i: nat, token: string) {
    && i < |events| && events[i].OfFlow? && events[i].token == token
    && RunSystem(events[..i]).Some? && Possible(RunSystem(events[..i]).value, events[i])
    && Do(RunSystem(events[..i]).value, events[i]).flows[token].place.Ended?
  }

  /**
   * Over a whole run: a session is still in the execution of a workflow that has ended, however long ago, exactly when the
   * step that ended it was not the completion.
   */
  lemma StallsExactlyWhen(events: seq<SystemEvent>, i: nat, token: string)
    requires RunSystem(events).Some? && EndsAt(events, i, token)
    ensures Active(RunSystem(events).value.world, token) <==> !events[i].step.Notify?
  {
    var s := PrefixDoes(events, i);
    EndReleasesIffNotified(s, token, events[i].step);
    LastsForGood(events, i + 1, Do(s, events[i]), token);
  }

  lemma LastsForGood(events: seq<SystemEvent>, n: nat, t: System, token: string)
    requires n <= |events| && RunSystem(events).Some? && RunSystem(events[..n]) == Some(t)
    requires token in t.flows && t.flows[token].place.Ended?
    ensures Active(RunSystem(events).value.world, token) <==> Active(t.world, token)
  {
    if Active(t.world, token) {
      StalledForGood(events, n, token);
    } else {
      SystemReachable(events[..n]);
      InactiveForGood(events, n, token);
    }
  }

  // ------------------------------------------------------------------
  // What is written
  // ------------------------------------------------------------------

  /** A workflow past the engine's checkpoint holds the claim on an execution that is not superseded. */
  lemma PastCheckpointHoldsClaim(events: seq<SystemEvent>, token: string)
    requires RunSystem(events).Some? && token in RunSystem(events).value.flows
    requires PastCheckpoint(RunSystem(events).value.flows[token])
    ensures HoldsClaim(RunSystem(events).value.world, token)
  {
    SystemReachable(events);
    var s := RunSystem(events).value;
    ClaimantIsActive(s.world, token, s.flows[token]);
  }

  /** The messages of a turn are persisted only under the claim of an execution that is not superseded, then or later. */
  lemma PersistsOnlyUnderClaim(events: seq<SystemEvent>, i: nat, token: string)
    requires RunSystem(events).Some? && i < |events| && events[i] == OfFlow(token, PersistMessages)
    ensures RunSystem(events[..i]).Some? && HoldsClaim(RunSystem(events[..i]).value.world, token)
    ensures NeverReturned(RunSystem(events).value.world, token)
  {
    var s := PrefixDoes(events, i);
    PersistFits(s.world, token, s.flows[token]);
    ClaimantNeverReturned(events, i, s, token);
  }

  lemma PersistFits(w: World, token: string, f: Flow)
    requires Shaped(w) && Accounted(w) && FlowFits(w, token, f) && CanStep(f, PersistMessages)
    ensures HoldsClaim(w, token)
    ensures w.executions != [] && Latest(w).token == token && Latest(w).granted
  {
    CheckpointedIsClaimed(w, token, f);
    ClaimantIsActive(w, token, f);
  }

  lemma CheckpointedIsClaimed(w: World, token: string, f: Flow)
    requires FlowFits(w, token, f) && f.place.Checkpointed?
    ensures Live(f) && f.memo.ClaimedOutbound?
  {
  }

  lemma ClaimantNeverReturned(events: seq<SystemEvent>, i: nat, s: System, token: string)
    requires RunSystem(events).Some? && i <= |events| && RunSystem(events[..i]) == Some(s)
    requires s.world.executions != [] && Latest(s.world).token == token && Latest(s.world).granted
    ensures NeverReturned(RunSystem(events).value.world, token)
  {
    SystemPrefix(events, i);
    SystemReachable(events);
    ClaimantKeepsBatch(s.world, RunSystem(events).value.world, token);
  }

  ghost predicate HoldsClaim(w: World, token: string) {
    Active(w, token) && w.session.phase.claimedAt.Some? && w.session.phase.supersededAt.None?
  }

  /** The execution of this token was neither superseded nor its batch returned. */
  ghost predicate NeverReturned(w: World, token: string) {
    forall k | 0 <= k < |w.executions| && w.executions[k].token == token ::
      !w.executions[k].superseded && !w.executions[k].fate.Returned?
  }

  lemma ClaimantKeepsBatch(w0: World, w1: World, token: string)
    requires ExtendsHistory(w0, w1) && Accounted(w1) && Settled(w1)
    requires w0.executions != [] && Latest(w0).token == token && Latest(w0).granted
    ensures NeverReturned(w1, token)
  {
    forall k | 0 <= k < |w1.executions| && w1.executions[k].token == token
      ensures !w1.executions[k].superseded && !w1.executions[k].fate.Returned?
    {
      GrantStays(w0, w1, token, k);
    }
  }

  ghost predicate CanWrite(s: System, token: string) {
    exists step :: Writes(step) && Possible(s, OfFlow(token, step))
  }

  /**
   * A superseded execution writes rows exactly while its user is resolved or its attempt stands before the checkpoint: the
   * rows of the identity, of traces and of tasks, and the trace's cancellation, but never the messages of the thread.
   */
  lemma SupersededWritesExactlyBefore(s: System, token: string)
    requires SystemInv(s) && token in s.flows && Active(s.world, token) && s.world.session.phase.supersededAt.Some?
    ensures CanWrite(s, token) <==> s.flows[token].place.Resolving? || s.flows[token].place.Looping?
    ensures !Possible(s, OfFlow(token, PersistMessages))
  {
    assert FlowFits(s.world, token, s.flows[token]) && Shaped(s.world);
    if s.flows[token].place.Resolving? || s.flows[token].place.Looping? {
      assert Writes(Write) && Possible(s, OfFlow(token, Write));
    }
  }

  // ------------------------------------------------------------------
  // Runs that show both
  // ------------------------------------------------------------------

  lemma RunOn(events: seq<SystemEvent>, e: SystemEvent) returns (longer: seq<SystemEvent>)
    requires RunSystem(events).Some? && Possible(RunSystem(events).value, e)
    ensures longer == events + [e] && RunSystem(longer) == Some(Do(RunSystem(events).value, e))
  {
    longer := events + [e];
    assert longer[..|longer| - 1] == events && longer[|longer| - 1] == e;
  }

  /** A first message, and the alarm that puts it in flight under token "t". */
  lemma Launching(m: Message) returns (events: seq<SystemEvent>)
    ensures RunSystem(events).Some?
    ensures var s := RunSystem(events).value;
            && s.world.clock == 400 && s.world.session.buffer == [] && s.flows == map["t" := Flow(NotStarted, Unchecked)]
            && s.world.session.phase == Executing("t", 400, [m], None, None, 0)
            && s.world.launching == Some("t") && s.world.committed == [] && s.world.session.alarm.None?
  {
    events := RunOn([], OfSession(Ingest(m, 1, 0)));
    events := RunOn(events, OfSession(AlarmFires("t", 400)));
  }

  /** When the code of a workflow that fits its session can take each of the visible steps. */
  predicate SendsWhere(f: Flow, again: bool) {
    && (CanStep(f, SendText) <==> f.place.Delivering? && f.place.text)
    && (CanStep(f, SendAttachments) <==> f.place.Delivering? && !f.place.text && f.place.attachments)
    && (CanStep(f, SendProgress) <==> f.place.Looping? && f.memo.ClaimedOutbound?)
    && (CanStep(f, SendErrorReply(again)) <==> f.place.Failing? && f.memo.ClaimedOutbound?)
    && (CanStep(f, SendRelinkNotice(again)) <==> f.place.IdentityBlocked? && f.memo.ClaimedOutbound?)
  }

  /** In every reachable state the visible steps can be taken exactly at their places, with the claim where they are not past it. */
  lemma CanSendExactlyWhen(s: System, token: string, step: FlowStep, again: bool)
    requires SystemInv(s) && token in s.flows && Visible(step)
    ensures SendsWhere(s.flows[token], again)
    ensures Possible(s, OfFlow(token, step)) <==> CanStep(s.flows[token], step)
  {
    assert FlowFits(s.world, token, s.flows[token]);
    FittingSends(s.world, token, s.flows[token], again);
    assert CallOf(token, step).None?;
  }

  lemma FittingSends(w: World, token: string, f: Flow, again: bool)
    requires FlowFits(w, token, f)
    ensures SendsWhere(f, again)
  {
  }

  /** The workflow of a first message has claimed the outbound and stands before the checkpoint. */
  lemma Claiming(m: Message) returns (events: seq<SystemEvent>)
    ensures RunSystem(events).Some?
    ensures var s := RunSystem(events).value;
            && s.world.clock == 500 && s.world.session.buffer == [] && s.flows == map["t" := Flow(Looping(0), ClaimedOutbound)]
            && s.world.session.phase == Executing("t", 400, [m], Some(500), None, 0)
            && s.world.committed == [] && s.world.session.alarm.None?
  {
    events := Launching(m);
    events := RunOn(events, OfSession(LaunchSucceeds));
    events := RunOn(events, OfFlow("t", Start(true, false)));
    events := RunOn(events, OfFlow("t", Resolved));
    events := RunOn(events, OfFlow("t", Check(500, Answered)));
  }

  /** Steps without a call change the workflow only. */
  lemma FlowOn(events: seq<SystemEvent>, step: FlowStep) returns (longer: seq<SystemEvent>)
    requires RunSystem(events).Some? && "t" in RunSystem(events).value.flows && CanStep(RunSystem(events).value.flows["t"], step)
    requires CallOf("t", step).None?
    ensures longer == events + [OfFlow("t", step)] && RunSystem(longer).Some?
    ensures var s := RunSystem(events).value;
            RunSystem(longer).value
            == System(s.world, s.flows["t" := NextFlow(s.flows["t"], step, Claim(s.world.session, "t"))])
  {
    longer := RunOn(events, OfFlow("t", step));
  }

  /** The turn is persisted and the workflow is about to deliver text and attachments. */
  lemma Answering(m: Message) returns (events: seq<SystemEvent>)
    ensures RunSystem(events).Some? && OfFlow("t", PersistMessages) in events
    ensures var s := RunSystem(events).value;
            && s.world.clock == 500 && s.world.session.buffer == []
            && s.flows == map["t" := Flow(Delivering(0, true, true), ClaimedOutbound)]
            && s.world.session.phase == Executing("t", 400, [m], Some(500), None, 0)
            && s.world.committed == [] && s.world.session.alarm.None?
  {
    events := Claiming(m);
    events := FlowOn(events, SendProgress);
    events := FlowOn(events, PassCheckpoint);
    events := FlowOn(events, PersistMessages);
    events := FlowOn(events, EngineReturns(true, true));
  }

  /** A message is answered with text and attachments, its turn is persisted and its batch committed. */
  lemma RunDelivers(m: Message) returns (events: seq<SystemEvent>)
    ensures RunSystem(events).Some?
    ensures var w := RunSystem(events).value.world;
            w.committed == [m] && w.session.phase.Resting? && w.session.buffer == [] && w.session.alarm.None?
    ensures OfFlow("t", PersistMessages) in events && OfFlow("t", SendText) in events && OfFlow("t", SendAttachments) in events
  {
    events := Answering(m);
    events := FlowOn(events, SendText);
    events := FlowOn(events, SendAttachments);
    events := RunOn(events, OfFlow("t", Notify(None, None, 600)));
  }

  /** A correction has superseded the workflow of a first message. */
  lemma Corrected(m: Message, correction: Message) returns (events: seq<SystemEvent>)
    requires IsCorrectionMessage(correction)
    ensures RunSystem(events).Some?
    ensures var s := RunSystem(events).value;
            && s.world.clock == 500 && s.world.session.buffer == [correction] && s.flows == map["t" := Flow(Looping(0), Unchecked)]
            && s.world.session.phase == Executing("t", 400, [m], None, Some(500), 0)
            && s.world.committed == [] && s.world.session.alarm.None?
  {
    events := Launching(m);
    events := FlowOn(events, Start(false, true));
    CorrectionArrives(RunSystem(events).value.world.session, correction, 1, 500);
    events := RunOn(events, OfSession(Ingest(correction, 1, 500)));
  }

  lemma CorrectionArrives(s: Session, correction: Message, chatId: int, now: int)
    requires IsCorrectionMessage(correction) && s.buffer == [] && s.phase.Executing?
    requires s.phase.claimedAt.None? && s.phase.supersededAt.None?
    ensures var s' := Ingested(s, correction, chatId, now);
            s'.buffer == [correction] && s'.alarm == s.alarm && s'.phase == s.phase.(supersededAt := Some(now))
  {
    assert Buffered([], correction) == [correction];
  }

  lemma Cancelled(m: Message, correction: Message) returns (events: seq<SystemEvent>)
    requires IsCorrectionMessage(correction)
    ensures RunSystem(events).Some?
    ensures var s := RunSystem(events).value;
            && s.world.clock == 550 && s.world.session.buffer == [correction] && s.flows == map["t" := Flow(Finishing, DeniedOutbound)]
            && s.world.session.phase == Executing("t", 400, [m], None, Some(500), 0)
            && s.world.committed == [] && s.world.session.alarm.None?
  {
    events := Corrected(m, correction);
    events := RunOn(events, OfFlow("t", Check(550, Answered)));
    events := FlowOn(events, CancelAtCheckpoint);
  }

  /** A corrected message is cancelled at the checkpoint, and both wait to be run together 250 ms later. */
  lemma RunReruns(m: Message, correction: Message) returns (events: seq<SystemEvent>)
    requires IsCorrectionMessage(correction)
    ensures RunSystem(events).Some?
    ensures var w := RunSystem(events).value.world;
            w.committed == [] && w.session.phase == Debouncing(600) && w.session.buffer == [m, correction] && w.session.alarm == Some(850)
  {
    events := Cancelled(m, correction);
    events := RunOn(events, OfFlow("t", Notify(None, None, 600)));
  }

  /** The user is blocked, the notice is sent, and the session never leaves the execution. */
  lemma BlockedUserStalls(m: Message) returns (events: seq<SystemEvent>)
    ensures RunSystem(events).Some? && Stalled(RunSystem(events).value, "t")
    ensures |events| > 0 && events[|events| - 1] == OfFlow("t", SendRelinkNotice(false))
  {
    events := Launching(m);
    events := RunOn(events, OfFlow("t", Start(true, false)));
    events := RunOn(events, OfFlow("t", ResolvedBlocked));
    events := RunOn(events, OfFlow("t", Check(400, Answered)));
    events := RunOn(events, OfFlow("t", SendRelinkNotice(false)));
  }

  /** A correction supersedes a run at work, and the run writes rows afterwards. */
  lemma SupersededRunWrites(m: Message, correction: Message) returns (events: seq<SystemEvent>)
    requires IsCorrectionMessage(correction)
    ensures RunSystem(events).Some? && |events| > 0 && events[|events| - 1] == OfFlow("t", Write)
    ensures var before := RunSystem(events[..|events| - 1]);
            before.Some? && Active(before.value.world, "t") && before.value.world.session.phase.supersededAt.Some?
  {
    events := Corrected(m, correction);
    var shorter := events;
    events := RunOn(events, OfFlow("t", Write));
    assert events[..|events| - 1] == shorter;
  }
}
