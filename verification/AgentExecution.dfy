/**
 * The workflows that a session launches, interleaved with the session (apps/api/src/workflows/agent-execution.ts and the
 * persistence checkpoint of packages/agent/src/conversation/engine.ts:548-571). They carry the session binding and are
 * no sub-agents, since the session launches them without that flag.
 */
module AgentExecution {
  import opened Wrappers
  import opened ConversationSession
  import opened SessionRuns

  /** The memo of `ensureOutbound`, shared by all steps of one workflow. */
  datatype Outbound = Unchecked | ClaimedOutbound | DeniedOutbound

  const MAX_RETRIES := 3

  /** Where a workflow stands. `Looping` is an attempt of the agent-loop step before the engine's checkpoint. */
  datatype Place =
    | NotStarted
    | Resolving
    | IdentityBlocked
    | Looping(attempt: nat)
    | Checkpointed(attempt: nat)
    | Delivering(attempt: nat, text: bool, attachments: bool)
    | Finishing
    | Failing
    | AfterErrorReply
    | Ended

  datatype Flow = Flow(place: Place, memo: Outbound)

  /** What happens to a claim call: it is answered, it is answered but the answer is lost, or it never arrives. */
  datatype CallOutcome = Answered | AnswerLost | Unreachable

  /**
   * `again` is set when a step of the workflow throws after what it did and the platform runs it again: how often it
   * does is not fixed here. `Write` is any row written while a user is resolved or before the engine's checkpoint.
   */
  datatype FlowStep =
    | Start(hasFrom: bool, hasUser: bool)
    | Write
    | Resolved
    | ResolvedBlocked
    | ResolveThrows(again: bool)
    | Check(now: int, outcome: CallOutcome)
    | SendRelinkNotice(again: bool)
    | SkipRelinkNotice(again: bool)
    | SendProgress
    | PassCheckpoint
    | CancelAtCheckpoint
    | PersistMessages
    | EngineReturns(text: bool, attachments: bool)
    | SendText
    | SendAttachments
    | FinishDelivery
    | AttemptThrows
    | SendErrorReply(again: bool)
    | SkipErrorReply
    | ErrorReplyThrows
    | Notify(userId: Option<string>, conversationId: Option<string>, now: int)
    | NotifyThrows

  datatype SystemEvent =
    | OfSession(event: Event)
    | OfFlow(token: string, step: FlowStep)

  datatype System = System(world: World, flows: map<string, Flow>)

  const BOOT := System(START, map[])

  /** The step shows something to the user. */
  predicate Visible(step: FlowStep) {
    step.SendRelinkNotice? || step.SendProgress? || step.SendText? || step.SendAttachments? || step.SendErrorReply?
  }

  /** An attempt of the agent-loop step is under way. */
  predicate InAttempt(place: Place) {
    place.Looping? || place.Checkpointed? || place.Delivering?
  }

  predicate InResolve(place: Place) {
    place.Resolving? || place.IdentityBlocked?
  }

  /** The step writes rows: of an identity, a trace or a task, the trace's cancellation, or the messages of the thread. */
  predicate Writes(step: FlowStep) {
    step.Write? || step.CancelAtCheckpoint? || step.PersistMessages?
  }

  /** Whether the code of a workflow can take this step next. Attachments are sent without a check of their own. */
  predicate CanStep(f: Flow, step: FlowStep) {
    match step
    case Start(_, _) => f.place.NotStarted?
    case Write => f.place.Resolving? || f.place.Looping?
    case Resolved => f.place.Resolving?
    case ResolvedBlocked => f.place.Resolving?
    case ResolveThrows(_) => InResolve(f.place)
    case Check(_, _) =>
      f.memo.Unchecked? && (f.place.IdentityBlocked? || f.place.Looping? || (f.place.Delivering? && f.place.text) || f.place.Failing?)
    case SendRelinkNotice(_) => f.place.IdentityBlocked? && f.memo.ClaimedOutbound?
    case SkipRelinkNotice(_) => f.place.IdentityBlocked? && f.memo.DeniedOutbound?
    case SendProgress => f.place.Looping? && f.memo.ClaimedOutbound?
    case PassCheckpoint => f.place.Looping? && f.memo.ClaimedOutbound?
    case CancelAtCheckpoint => f.place.Looping? && !f.memo.ClaimedOutbound?
    case PersistMessages => f.place.Checkpointed?
    case EngineReturns(_, _) => f.place.Checkpointed?
    case SendText => f.place.Delivering? && f.place.text && f.memo.ClaimedOutbound?
    case SendAttachments => f.place.Delivering? && !f.place.text && f.place.attachments && !f.memo.DeniedOutbound?
    case FinishDelivery => f.place.Delivering?
    case AttemptThrows => InAttempt(f.place)
    case SendErrorReply(_) => f.place.Failing? && f.memo.ClaimedOutbound?
    case SkipErrorReply => f.place.Failing? && f.memo.DeniedOutbound?
    case ErrorReplyThrows => f.place.Failing?
    case Notify(_, _, _) => f.place.Finishing? || f.place.AfterErrorReply?
    case NotifyThrows => f.place.Finishing? || f.place.AfterErrorReply?
  }

  /** The answer of a claim call, as the memo keeps it. */
  function Remembered(reason: ClaimReason): Outbound {
    if reason.Ok? then ClaimedOutbound else DeniedOutbound
  }

  function Retried(place: Place): Place {
    if InAttempt(place) && place.attempt < MAX_RETRIES then Looping(place.attempt + 1) else Failing
  }

  function NextFlow(f: Flow, step: FlowStep, answer: ClaimReason): Flow {
    match step
    case Start(hasFrom, hasUser) =>
      f.(place := if hasFrom then Resolving else if hasUser then Looping(0) else Ended)
    case Write => f
    case Resolved => f.(place := Looping(0))
    case ResolvedBlocked => f.(place := IdentityBlocked)
    case ResolveThrows(again) => f.(place := if again then Resolving else Failing)
    case Check(_, outcome) => if outcome.Answered? then f.(memo := Remembered(answer)) else f
    case SendRelinkNotice(again) => f.(place := if again then Resolving else Ended)
    case SkipRelinkNotice(again) => f.(place := if again then Resolving else Ended)
    case SendProgress => f
    case PassCheckpoint => if f.place.Looping? then f.(place := Checkpointed(f.place.attempt)) else f
    case CancelAtCheckpoint => f.(place := Finishing)
    case PersistMessages => f
    case EngineReturns(text, attachments) =>
      if f.place.Checkpointed? then f.(place := Delivering(f.place.attempt, text, attachments)) else f
    case SendText => if f.place.Delivering? then f.(place := f.place.(text := false)) else f
    case SendAttachments => f.(place := Finishing)
    case FinishDelivery => f.(place := Finishing)
    case AttemptThrows => f.(place := Retried(f.place))
    case SendErrorReply(again) => f.(place := if again then Failing else AfterErrorReply)
    case SkipErrorReply => f.(place := AfterErrorReply)
    case ErrorReplyThrows => f.(place := Ended)
    case Notify(_, _, _) => f.(place := Ended)
    case NotifyThrows => f.(place := if f.place.Finishing? then Failing else Ended)
  }

  /** What the step does to the session, if anything. */
  function CallOf(token: string, step: FlowStep): Option<Event> {
    match step
    case Check(now, outcome) => if outcome.Unreachable? then None else Some(ClaimOutbound(token, now))
    case Notify(userId, conversationId, now) => Some(CompleteRun(token, userId, conversationId, now))
    case _ => None
  }

  predicate Possible(s: System, e: SystemEvent) {
    match e
    case OfSession(event) =>
      && Enabled(s.world, event) && !event.ClaimOutbound? && !event.CompleteRun?
      && (event.LaunchFails? ==> s.world.launching.value in s.flows && s.flows[s.world.launching.value].place.NotStarted?)
    case OfFlow(token, step) =>
      && token in s.flows && CanStep(s.flows[token], step)
      && (CallOf(token, step).Some? ==> Enabled(s.world, CallOf(token, step).value))
  }

  function OnSession(s: System, event: Event): System
    requires Possible(s, OfSession(event))
  {
    var world' := Apply(s.world, event);
    System(world',
      match event
      case AlarmFires(token, _) => if s.world.session.buffer == [] then s.flows else s.flows[token := Flow(NotStarted, Unchecked)]
      case LaunchFails(_) => s.flows[s.world.launching.value := Flow(Ended, Unchecked)]
      case _ => s.flows)
  }

  function OnFlow(s: System, token: string, step: FlowStep): System
    requires Possible(s, OfFlow(token, step))
  {
    var f' := NextFlow(s.flows[token], step, Claim(s.world.session, token));
    System(
      match CallOf(token, step) case Some(event) => Apply(s.world, event) case None => s.world,
      s.flows[token := f'])
  }

  function Do(s: System, e: SystemEvent): System
    requires Possible(s, e)
  {
    match e
    case OfSession(event) => OnSession(s, event)
    case OfFlow(token, step) => OnFlow(s, token, step)
  }

  function RunSystem(events: seq<SystemEvent>): Option<System> {
    if events == [] then Some(BOOT)
    else
      match RunSystem(events[..|events| - 1])
      case None => None
      case Some(s) => if Possible(s, events[|events| - 1]) then Some(Do(s, events[|events| - 1])) else None
  }

  // ------------------------------------------------------------------
  // Invariant
  // ------------------------------------------------------------------

  predicate Live(f: Flow) {
    !f.place.NotStarted? && !f.place.Ended?
  }

  /** A workflow past the checkpoint, which has written to the database or is about to send what it wrote. */
  predicate PastCheckpoint(f: Flow) {
    f.place.Checkpointed? || f.place.Delivering?
  }

  ghost predicate FlowFits(w: World, token: string, f: Flow) {
    && (f.place.NotStarted? ==> f.memo.Unchecked?)
    && (f.place.NotStarted? || Live(f) ==> Active(w, token))
    && (f.place.NotStarted? ==> w.session.phase.Executing? && w.session.phase.claimedAt.None?)
    && (f.memo.ClaimedOutbound? && Live(f) ==> w.session.phase.Executing? && w.session.phase.claimedAt.Some?)
    && (PastCheckpoint(f) ==> f.memo.ClaimedOutbound?)
  }

  ghost predicate SystemInv(s: System) {
    && Inv(s.world)
    && (forall t | t in s.flows :: UsedToken(s.world, t) && FlowFits(s.world, t, s.flows[t]))
  }

  lemma SessionStepKeeps(s: System, event: Event)
    requires SystemInv(s) && Possible(s, OfSession(event))
    ensures SystemInv(OnSession(s, event))
  {
    StepInv(s.world, event);
    StepExtendsHistory(s.world, event);
    var s' := OnSession(s, event);
    forall t | t in s'.flows ensures UsedToken(s'.world, t) && FlowFits(s'.world, t, s'.flows[t]) {
      if t in s.flows {
        KeepsToken(s.world, event, t);
        SessionKeepsFlow(s, event, t);
      } else {
        assert s'.world.executions[|s'.world.executions| - 1].token == t;
      }
    }
  }

  lemma KeepsToken(w: World, e: Event, t: string)
    requires Enabled(w, e) && UsedToken(w, t)
    ensures UsedToken(Apply(w, e), t)
  {
    StepExtendsHistory(w, e);
    var k :| 0 <= k < |w.executions| && w.executions[k].token == t;
    assert Apply(w, e).executions[k] in Apply(w, e).executions;
  }

  lemma SessionKeepsFlow(s: System, event: Event, t: string)
    requires Shaped(s.world) && Possible(s, OfSession(event)) && t in s.flows
    requires UsedToken(s.world, t) && FlowFits(s.world, t, s.flows[t])
    ensures FlowFits(OnSession(s, event).world, t, OnSession(s, event).flows[t])
  {
    var s' := OnSession(s, event);
    match event
    case Ingest(m, chatId, now) =>
      if s.world.session.phase.Executing? {
        IngestExecuting(s.world.session, m, chatId, now);
      }
    case AlarmFires(token, _) =>
      assert t != token;
    case LaunchSucceeds =>
    case LaunchFails(_) =>
      if t != s.world.launching.value {
        assert !Active(s.world, t);
      }
    case _ =>
  }

  lemma FlowStepKeeps(s: System, token: string, step: FlowStep)
    requires SystemInv(s) && Possible(s, OfFlow(token, step))
    ensures SystemInv(OnFlow(s, token, step))
  {
    var s' := OnFlow(s, token, step);
    assert FlowFits(s.world, token, s.flows[token]);
    if CallOf(token, step).Some? {
      StepInv(s.world, CallOf(token, step).value);
    }
    forall t | t in s'.flows ensures UsedToken(s'.world, t) && FlowFits(s'.world, t, s'.flows[t]) {
      assert FlowFits(s.world, t, s.flows[t]);
      if CallOf(token, step).Some? {
        KeepsToken(s.world, CallOf(token, step).value, t);
      }
      if t == token {
        OwnStepFits(s, token, step);
      } else {
        OtherStepFits(s, token, step, t);
      }
    }
  }

  lemma OwnStepFits(s: System, token: string, step: FlowStep)
    requires Possible(s, OfFlow(token, step)) && FlowFits(s.world, token, s.flows[token])
    ensures FlowFits(OnFlow(s, token, step).world, token, OnFlow(s, token, step).flows[token])
  {
    if step.Check? {
      CheckFits(s, token, step.now, step.outcome);
    } else if step.Notify? {
      assert OnFlow(s, token, step).flows[token].place.Ended?;
    } else {
      assert OnFlow(s, token, step).world == s.world;
      QuietStepFits(s.world, token, s.flows[token], step);
    }
  }

  /** A step without a call leaves the workflow where its place and memo fit the same session. */
  lemma QuietStepFits(w: World, token: string, f: Flow, step: FlowStep)
    requires CanStep(f, step) && FlowFits(w, token, f) && !step.Check? && !step.Notify?
    ensures FlowFits(w, token, NextFlow(f, step, Claim(w.session, token)))
  {
  }

  lemma CheckFits(s: System, token: string, now: int, outcome: CallOutcome)
    requires Possible(s, OfFlow(token, Check(now, outcome))) && FlowFits(s.world, token, s.flows[token])
    ensures var s' := OnFlow(s, token, Check(now, outcome)); FlowFits(s'.world, token, s'.flows[token])
  {
  }

  lemma OtherStepFits(s: System, token: string, step: FlowStep, t: string)
    requires Possible(s, OfFlow(token, step)) && t in s.flows && t != token
    requires FlowFits(s.world, token, s.flows[token]) && FlowFits(s.world, t, s.flows[t])
    ensures FlowFits(OnFlow(s, token, step).world, t, s.flows[t])
  {
    assert s.flows[t].place.Ended?;
  }

  lemma {:induction false} SystemReachable(events: seq<SystemEvent>)
    requires RunSystem(events).Some?
    ensures SystemInv(RunSystem(events).value)
  {
    if events != [] {
      var s, e := RunSystem(events[..|events| - 1]).value, events[|events| - 1];
      SystemReachable(events[..|events| - 1]);
      match e
      case OfSession(event) => SessionStepKeeps(s, event);
      case OfFlow(token, step) => FlowStepKeeps(s, token, step);
    }
  }

  /** The agent-loop step is attempted four times at most. */
  predicate FewAttempts(s: System) {
    forall t | t in s.flows :: InAttempt(s.flows[t].place) ==> s.flows[t].place.attempt <= 3
  }

  lemma {:induction false} FourAttempts(events: seq<SystemEvent>)
    requires RunSystem(events).Some?
    ensures FewAttempts(RunSystem(events).value)
  {
    if events != [] {
      FourAttempts(events[..|events| - 1]);
      var s, e := RunSystem(events[..|events| - 1]).value, events[|events| - 1];
      if e.OfFlow? {
        NextAttempt(s.flows[e.token], e.step, Claim(s.world.session, e.token));
      }
    }
  }

  /** An attempt that throws is followed by the next, and the fourth by the error reply; nothing else begins another attempt. */
  lemma NextAttempt(f: Flow, step: FlowStep, answer: ClaimReason)
    requires CanStep(f, step) && (InAttempt(f.place) ==> f.place.attempt <= 3)
    ensures var p := NextFlow(f, step, answer).place;
            && (step.AttemptThrows? ==> p == if f.place.attempt < 3 then Looping(f.place.attempt + 1) else Failing)
            && (!step.AttemptThrows? && InAttempt(p) ==> p.attempt == if InAttempt(f.place) then f.place.attempt else 0)
  {
  }

  // ------------------------------------------------------------------
  // What the user sees
  // ------------------------------------------------------------------

  /** Event `i` shows something to the user on behalf of this execution. */
  predicate Sends(events: seq<SystemEvent>, i: nat, token: string) {
    i < |events| && events[i].OfFlow? && events[i].token == token && Visible(events[i].step)
  }

  /** Event `i` is a claim call of this execution that the session grants. */
  predicate GrantedBy(events: seq<SystemEvent>, i: nat, token: string) {
    && i < |events| && events[i].OfFlow? && events[i].token == token
    && events[i].step.Check? && !events[i].step.outcome.Unreachable?
    && RunSystem(events[..i]).Some? && Claim(RunSystem(events[..i]).value.world.session, token).Ok?
  }

  ghost predicate GrantedBefore(events: seq<SystemEvent>, n: nat, token: string) {
    exists j: nat :: j < n && GrantedBy(events, j, token)
  }

  lemma {:induction false} SystemPrefix(events: seq<SystemEvent>, n: nat)
    requires n <= |events| && RunSystem(events).Some?
    ensures RunSystem(events[..n]).Some?
    ensures n < |events| ==> Possible(RunSystem(events[..n]).value, events[n])
    ensures ExtendsHistory(RunSystem(events[..n]).value.world, RunSystem(events).value.world)
  {
    if n < |events| {
      var shorter, last := events[..|events| - 1], events[|events| - 1];
      SystemPrefix(shorter, n);
      assert shorter[..n] == events[..n];
      var s := RunSystem(shorter).value;
      DoExtendsHistory(s, last);
      ExtendsTransitive(RunSystem(events[..n]).value.world, s.world, Do(s, last).world);
    } else {
      assert events[..n] == events;
    }
  }

  lemma DoExtendsHistory(s: System, e: SystemEvent)
    requires Possible(s, e)
    ensures ExtendsHistory(s.world, Do(s, e).world)
  {
    match e
    case OfSession(event) => StepExtendsHistory(s.world, event);
    case OfFlow(token, step) =>
      if CallOf(token, step).Some? {
        StepExtendsHistory(s.world, CallOf(token, step).value);
      }
  }

  /** A workflow that sends is the active one; it holds the claim and has not been superseded. */
  lemma SenderIsActive(events: seq<SystemEvent>, i: nat, token: string)
    requires RunSystem(events).Some? && Sends(events, i, token)
    ensures RunSystem(events[..i]).Some?
    ensures var w := RunSystem(events[..i]).value.world;
            && Active(w, token) && w.session.phase.claimedAt.Some? && w.session.phase.supersededAt.None?
            && w.executions != [] && Latest(w).token == token && Latest(w).granted
  {
    SystemPrefix(events, i);
    SystemReachable(events[..i]);
    SendFits(RunSystem(events[..i]).value, token, events[i].step);
  }

  lemma SendFits(s: System, token: string, step: FlowStep)
    requires SystemInv(s) && Possible(s, OfFlow(token, step)) && Visible(step)
    ensures var w := s.world;
            && Active(w, token) && w.session.phase.claimedAt.Some? && w.session.phase.supersededAt.None?
            && w.executions != [] && Latest(w).token == token && Latest(w).granted
  {
    assert FlowFits(s.world, token, s.flows[token]);
    VisibleIsClaimed(s.world, token, s.flows[token], step);
    ClaimantIsActive(s.world, token, s.flows[token]);
  }

  lemma VisibleIsClaimed(w: World, token: string, f: Flow, step: FlowStep)
    requires FlowFits(w, token, f) && CanStep(f, step) && Visible(step)
    ensures Live(f) && f.memo.ClaimedOutbound?
  {
  }

  lemma ClaimantIsActive(w: World, token: string, f: Flow)
    requires Shaped(w) && Accounted(w) && FlowFits(w, token, f) && Live(f) && f.memo.ClaimedOutbound?
    ensures Active(w, token) && w.session.phase.claimedAt.Some? && w.session.phase.supersededAt.None?
    ensures w.executions != [] && Latest(w).token == token && Latest(w).granted
  {
  }

  /** Every granted entry of the history was granted to a claim call of its own workflow. */
  ghost predicate GrantsHappened(events: seq<SystemEvent>, w: World) {
    forall k | 0 <= k < |w.executions| && w.executions[k].granted :: GrantedBefore(events, |events|, w.executions[k].token)
  }

  lemma {:induction false} GrantsHappen(events: seq<SystemEvent>)
    requires RunSystem(events).Some?
    ensures GrantsHappened(events, RunSystem(events).value.world)
  {
    if events != [] {
      var shorter, last := events[..|events| - 1], events[|events| - 1];
      GrantsHappen(shorter);
      SystemReachable(shorter);
      GrantsExtend(shorter, RunSystem(shorter).value, last);
      assert events == shorter + [last];
    }
  }

  lemma GrantsExtend(shorter: seq<SystemEvent>, s: System, e: SystemEvent)
    requires RunSystem(shorter) == Some(s) && SystemInv(s) && Possible(s, e) && GrantsHappened(shorter, s.world)
    ensures GrantsHappened(shorter + [e], Do(s, e).world)
  {
    var w := Do(s, e).world;
    forall k | 0 <= k < |w.executions| && w.executions[k].granted
      ensures GrantedBefore(shorter + [e], |shorter| + 1, w.executions[k].token)
    {
      GrantExtends(shorter, s, e, k);
    }
  }

  lemma GrantExtends(shorter: seq<SystemEvent>, s: System, e: SystemEvent, k: nat)
    requires RunSystem(shorter) == Some(s) && SystemInv(s) && Possible(s, e)
    requires k < |Do(s, e).world.executions| && Do(s, e).world.executions[k].granted
    requires k < |s.world.executions| && s.world.executions[k].granted ==>
               GrantedBefore(shorter, |shorter|, s.world.executions[k].token)
    ensures GrantedBefore(shorter + [e], |shorter| + 1, Do(s, e).world.executions[k].token)
  {
    DoExtendsHistory(s, e);
    if k < |s.world.executions| && s.world.executions[k].granted {
      assert GrowsTo(s.world.executions[k], Do(s, e).world.executions[k]);
      GrantedLonger(shorter, shorter + [e], s.world.executions[k].token);
    } else {
      OnlyAClaimGrants(s, e, k);
      GrantedNow(shorter, e);
    }
  }

  lemma GrantedNow(shorter: seq<SystemEvent>, e: SystemEvent)
    requires RunSystem(shorter).Some? && e.OfFlow? && e.step.Check? && !e.step.outcome.Unreachable?
    requires Claim(RunSystem(shorter).value.world.session, e.token).Ok?
    ensures GrantedBefore(shorter + [e], |shorter| + 1, e.token)
  {
    assert (shorter + [e])[..|shorter|] == shorter;
    assert GrantedBy(shorter + [e], |shorter|, e.token);
  }

  lemma GrantedLonger(shorter: seq<SystemEvent>, events: seq<SystemEvent>, token: string)
    requires shorter <= events && GrantedBefore(shorter, |shorter|, token)
    ensures GrantedBefore(events, |shorter|, token)
  {
    var j: nat :| j < |shorter| && GrantedBy(shorter, j, token);
    assert shorter[..j] == events[..j];
    assert GrantedBy(events, j, token);
  }

  lemma OnlyAClaimGrants(s: System, e: SystemEvent, k: nat)
    requires SystemInv(s) && Possible(s, e)
    requires k < |Do(s, e).world.executions| && Do(s, e).world.executions[k].granted
    requires !(k < |s.world.executions| && s.world.executions[k].granted)
    ensures e.OfFlow? && e.step.Check? && !e.step.outcome.Unreachable? && Claim(s.world.session, e.token).Ok?
    ensures Do(s, e).world.executions[k].token == e.token
  {
    match e
    case OfSession(event) =>
      StepGrantsOnlyByClaim(s.world, event, k);
    case OfFlow(token, step) =>
      StepGrantsOnlyByClaim(s.world, CallOf(token, step).value, k);
  }

  lemma StepGrantsOnlyByClaim(w: World, e: Event, k: nat)
    requires Accounted(w) && Enabled(w, e)
    requires k < |Apply(w, e).executions| && Apply(w, e).executions[k].granted
    requires !(k < |w.executions| && w.executions[k].granted)
    ensures e.ClaimOutbound? && Claim(w.session, e.token).Ok? && Apply(w, e).executions[k].token == e.token
  {
  }

  /** Every text, notice or attachment shown, by whichever path, follows a granted claim of its own execution. */
  lemma SendFollowsGrant(events: seq<SystemEvent>, i: nat, token: string)
    requires RunSystem(events).Some? && Sends(events, i, token)
    ensures GrantedBefore(events, i, token)
  {
    var before := events[..i];
    SenderIsActive(events, i, token);
    GrantsHappen(before);
    LatestGranted(before, RunSystem(before).value.world, token);
    GrantedLonger(before, events, token);
  }

  lemma LatestGranted(events: seq<SystemEvent>, w: World, token: string)
    requires GrantsHappened(events, w) && w.executions != [] && Latest(w).token == token && Latest(w).granted
    ensures GrantedBefore(events, |events|, token)
  {
    assert w.executions[|w.executions| - 1].granted;
  }

  /** What one execution shows is not interleaved with what another shows. */
  lemma SendsNeverOverlap(events: seq<SystemEvent>, i: nat, j: nat, k: nat, a: string, b: string)
    requires RunSystem(events).Some? && i < j < k
    requires Sends(events, i, a) && Sends(events, j, b) && Sends(events, k, a)
    ensures a == b
  {
    SenderIsActive(events, i, a);
    SenderIsActive(events, j, b);
    SenderIsActive(events, k, a);
    BetweenPrefixes(events, i, j);
    BetweenPrefixes(events, j, k);
    SystemPrefix(events, k);
    SystemReachable(events[..k]);
    LatestIsPinned(
      RunSystem(events[..i]).value.world, RunSystem(events[..j]).value.world, RunSystem(events[..k]).value.world, a, b);
  }

  lemma BetweenPrefixes(events: seq<SystemEvent>, i: nat, j: nat)
    requires RunSystem(events).Some? && i <= j <= |events|
    ensures RunSystem(events[..i]).Some? && RunSystem(events[..j]).Some?
    ensures ExtendsHistory(RunSystem(events[..i]).value.world, RunSystem(events[..j]).value.world)
  {
    SystemPrefix(events, j);
    SystemPrefix(events[..j], i);
    assert events[..j][..i] == events[..i];
  }

  /** The latest execution of one history cannot be the latest again once another has been. */
  lemma LatestIsPinned(w0: World, w1: World, w2: World, a: string, b: string)
    requires ExtendsHistory(w0, w1) && ExtendsHistory(w1, w2) && Accounted(w2)
    requires w0.executions != [] && Latest(w0).token == a && Latest(w1).token == b && Latest(w2).token == a
    ensures a == b
  {
    var first, middle := |w0.executions| - 1, |w1.executions| - 1;
    assert w1.executions[first].token == a && w2.executions[first].token == a && w2.executions[middle].token == b;
  }

  /** An execution that shows anything was never superseded and its batch is not returned, however the run goes on. */
  lemma SenderNeverSuperseded(events: seq<SystemEvent>, i: nat, token: string, k: nat)
    requires RunSystem(events).Some? && Sends(events, i, token)
    requires k < |RunSystem(events).value.world.executions| && RunSystem(events).value.world.executions[k].token == token
    ensures var x := RunSystem(events).value.world.executions[k]; !x.superseded && !x.fate.Returned?
  {
    SenderIsActive(events, i, token);
    SystemPrefix(events, i);
    SystemReachable(events);
    GrantStays(RunSystem(events[..i]).value.world, RunSystem(events).value.world, token, k);
  }

  lemma GrantStays(w0: World, w1: World, token: string, k: nat)
    requires ExtendsHistory(w0, w1) && Accounted(w1) && Settled(w1)
    requires w0.executions != [] && Latest(w0).token == token && Latest(w0).granted
    requires k < |w1.executions| && w1.executions[k].token == token
    ensures !w1.executions[k].superseded && !w1.executions[k].fate.Returned?
  {
    assert w1.executions[|w0.executions| - 1].token == token;
  }
}
