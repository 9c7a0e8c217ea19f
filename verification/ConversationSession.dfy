/** The per-chat session object (apps/api/src/durable-objects/conversation-session.ts and its logic file). */
module ConversationSession {
  import opened Wrappers
  import JsText

  // ------------------------------------------------------------------
  // Messages
  // ------------------------------------------------------------------

  datatype Part = Text(text: string) | Attachment(reference: string)

  datatype RawSource = RawSource(platform: string, messageIds: Option<seq<int>>)

  datatype Message = Message(
    sourceMessageId: int,
    date: int,
    textSummary: string,
    parts: seq<Part>,
    mediaGroupId: Option<string>,
    from: Option<string>,
    rawSource: Option<RawSource>)

  /** The platform message ids that a buffered message stands for. */
  function SourceIds(m: Message): seq<int> {
    match m.rawSource
    case Some(RawSource(_, Some(ids))) => ids
    case _ => [m.sourceMessageId]
  }

  function FirstText(parts: seq<Part>): (text: string)
    ensures (forall p | p in parts :: !p.Text?) ==> text == ""
    ensures forall i | 0 <= i < |parts| && parts[i].Text? :: (forall j | 0 <= j < i :: !parts[j].Text?) ==> text == parts[i].text
  {
    if parts == [] then ""
    else if parts[0].Text? then parts[0].text
    else FirstText(parts[1..])
  }

  /** `a || b` on strings: the empty string is falsy. */
  function Or(a: string, b: string): string {
    if a != "" then a else b
  }

  /** `a ?? b`. */
  function Else<T>(a: Option<T>, b: Option<T>): Option<T> {
    if a.Some? then a else b
  }

  function Merge(existing: Message, incoming: Message): Message {
    Message(
      existing.sourceMessageId,
      if existing.date <= incoming.date then existing.date else incoming.date,
      Or(JsText.Trim(FirstText(existing.parts)), Or(JsText.Trim(FirstText(incoming.parts)), incoming.textSummary)),
      existing.parts + incoming.parts,
      Else(existing.mediaGroupId, incoming.mediaGroupId),
      Else(existing.from, incoming.from),
      Some(RawSource("telegram", Some(SourceIds(existing) + SourceIds(incoming)))))
  }

  predicate SameMediaGroup(a: Message, b: Message) {
    a.mediaGroupId.Some? && a.mediaGroupId.value != "" && a.mediaGroupId == b.mediaGroupId
  }

  function Buffered(buffer: seq<Message>, m: Message): seq<Message> {
    if buffer != [] && SameMediaGroup(buffer[|buffer| - 1], m)
    then buffer[..|buffer| - 1] + [Merge(buffer[|buffer| - 1], m)]
    else buffer + [m]
  }

  // ------------------------------------------------------------------
  // Corrections and deadlines (conversation-session-logic.ts)
  // ------------------------------------------------------------------

  const DEBOUNCE_BASE_MS := 800
  const DEBOUNCE_EXTEND_MS := 400
  const DEBOUNCE_CAP_MS := 1500
  const RERUN_DEBOUNCE_MS := 250
  const LAUNCH_RETRY_MS := 5000

  const CORRECTION_PREFIXES: seq<string> :=
    ["wait", "actually", "sorry", "i meant", "ignore that", "correction", "to clarify", "instead"]

  function LowerChar(c: char): char {
    if 'A' <= c <= 'Z' then (c as int + 32) as char else c
  }

  function LowerCase(s: string): (r: string)
    ensures |r| == |s| && forall i | 0 <= i < |s| :: r[i] == LowerChar(s[i])
  {
    seq(|s|, i requires 0 <= i < |s| => LowerChar(s[i]))
  }

  predicate IsCorrectionMessage(m: Message) {
    var text := LowerCase(JsText.Trim(m.textSummary));
    text != "" && exists prefix | prefix in CORRECTION_PREFIXES :: prefix <= text
  }

  function ComputeDebounceDeadline(now: int, bufferStartedAt: Option<int>, isRerun: bool): int {
    if isRerun then now + RERUN_DEBOUNCE_MS
    else if bufferStartedAt.None? then now + DEBOUNCE_BASE_MS
    else
      var cap, extended := bufferStartedAt.value + DEBOUNCE_CAP_MS, now + DEBOUNCE_EXTEND_MS;
      if cap <= extended then cap else extended
  }

  // ------------------------------------------------------------------
  // The protocol, as a state machine over phases
  // ------------------------------------------------------------------

  /** What the nullable fields of the object say, taken together. */
  datatype Phase =
    | Resting
    | Debouncing(since: int)
    | Executing(
        token: string,
        startedAt: int,
        inFlight: seq<Message>,
        claimedAt: Option<int>,
        supersededAt: Option<int>,
        followups: nat)

  datatype Profile = Profile(chatId: int, userId: Option<string>, conversationId: Option<string>)

  datatype Session = Session(phase: Phase, buffer: seq<Message>, alarm: Option<int>, profile: Profile)

  datatype ClaimReason = Ok | Stale | Superseded | AlreadyClaimed

  const INITIAL := Session(Resting, [], None, Profile(0, None, None))

  function Debounced(s: Session, now: int, isRerun: bool): Session {
    var since := if s.phase.Debouncing? then s.phase.since else now;
    s.(phase := Debouncing(since), alarm := Some(ComputeDebounceDeadline(now, Some(since), isRerun)))
  }

  function Ingested(s: Session, m: Message, chatId: int, now: int): Session {
    Arrived(s, Buffered(s.buffer, m), IsCorrectionMessage(m), chatId, now)
  }

  /** The session once a message has been buffered: all that matters of it is whether it is a correction. */
  function Arrived(s: Session, buffer: seq<Message>, correction: bool, chatId: int, now: int): Session {
    var s' := s.(buffer := buffer, profile := if s.profile.chatId == 0 then s.profile.(chatId := chatId) else s.profile);
    if s.phase.Executing? then s'.(phase := NotedMidRun(s.phase, correction, now)) else Debounced(s', now, false)
  }

  /** A message that arrives mid-run supersedes the run, if it is a correction and nothing has been sent yet. */
  function NotedMidRun(phase: Phase, correction: bool, now: int): Phase
    requires phase.Executing?
  {
    if correction && phase.claimedAt.None? then phase.(supersededAt := Else(phase.supersededAt, Some(now)))
    else phase.(followups := phase.followups + 1)
  }

  /** The alarm fires: the whole buffer goes in flight under a fresh token. */
  function Begun(s: Session, token: string, now: int): Session {
    if s.buffer == [] then s.(phase := Resting, alarm := None)
    else s.(phase := Executing(token, now, s.buffer, None, None, 0), buffer := [], alarm := None)
  }

  function LaunchFailed(s: Session, now: int): Session
    requires s.phase.Executing?
  {
    s.(phase := Resting, buffer := s.phase.inFlight + s.buffer, alarm := Some(now + LAUNCH_RETRY_MS))
  }

  function Claim(s: Session, token: string): ClaimReason {
    if !s.phase.Executing? || s.phase.token != token then Stale
    else if s.phase.supersededAt.Some? then Superseded
    else if s.phase.claimedAt.Some? then AlreadyClaimed
    else Ok
  }

  function Claimed(s: Session, token: string, now: int): Session {
    if Claim(s, token).Ok? then s.(phase := s.phase.(claimedAt := Some(now))) else s
  }

  function Completed(s: Session, token: string, userId: Option<string>, conversationId: Option<string>, now: int): Session {
    if !s.phase.Executing? || s.phase.token != token then s
    else
      var s' := s.(phase := Resting, profile := Adopted(s.profile, userId, conversationId));
      if s.phase.supersededAt.Some? then Debounced(s'.(buffer := s.phase.inFlight + s.buffer), now, true)
      else if s.buffer != [] then Debounced(s', now, false)
      else s'
  }

  function Adopted(p: Profile, userId: Option<string>, conversationId: Option<string>): Profile {
    p.(userId := Else(NonEmpty(userId), p.userId), conversationId := Else(NonEmpty(conversationId), p.conversationId))
  }

  function NonEmpty(s: Option<string>): Option<string> {
    if s == Some("") then None else s
  }

  // ------------------------------------------------------------------
  // The object
  // ------------------------------------------------------------------

  datatype Status = Idle | DebouncingStatus | Processing

  /** The fields of the object, as it stores them. */
  datatype SessionState = SessionState(
    status: Status,
    userId: Option<string>,
    conversationId: Option<string>,
    chatId: int,
    buffer: seq<Message>,
    activeWorkflowId: Option<string>,
    bufferStartedAt: Option<int>,
    debounceDeadlineAt: Option<int>,
    inFlightMessages: seq<Message>,
    activeExecutionToken: Option<string>,
    activeExecutionStartedAt: Option<int>,
    firstOutboundClaimedAt: Option<int>,
    supersededAt: Option<int>,
    midRunFollowupCount: nat)

  const DEFAULT_STATE :=
    SessionState(Idle, None, None, 0, [], None, None, None, [], None, None, None, None, 0)

  predicate Consistent(s: SessionState, alarm: Option<int>) {
    && (s.status.Processing? <==> s.activeExecutionToken.Some?)
    && (s.status.Processing? <==> s.activeExecutionStartedAt.Some?)
    && (!s.status.Processing? ==>
         && s.inFlightMessages == [] && s.firstOutboundClaimedAt.None? && s.supersededAt.None? && s.midRunFollowupCount == 0)
    && (s.status.Processing? ==> alarm.None?)
    && (s.status.DebouncingStatus? <==> s.bufferStartedAt.Some?)
    && (s.status.DebouncingStatus? ==> alarm.Some? && s.debounceDeadlineAt == alarm)
    && (!s.status.DebouncingStatus? ==> s.debounceDeadlineAt.None?)
  }

  /** The phase that consistent fields say the session is in. */
  function PhaseOf(s: SessionState, alarm: Option<int>): Phase
    requires Consistent(s, alarm)
  {
    match s.status
    case Idle => Resting
    case DebouncingStatus => Debouncing(s.bufferStartedAt.value)
    case Processing =>
      Executing(s.activeExecutionToken.value, s.activeExecutionStartedAt.value, s.inFlightMessages, s.firstOutboundClaimedAt,
                s.supersededAt, s.midRunFollowupCount)
  }

  lemma ReplaceLast<T>(s: seq<T>, x: T)
    requires s != []
    ensures s[|s| - 1 := x] == s[..|s| - 1] + [x]
  {
  }

  class ConversationSession {
    var state: SessionState
    /** The alarm of the object's storage. It is gone once it has fired. */
    var alarmAt: Option<int>

    ghost predicate Valid()
      reads this
    {
      Consistent(state, alarmAt)
    }

    ghost function View(): Session
      reads this
      requires Valid()
    {
      Session(PhaseOf(state, alarmAt), state.buffer, alarmAt, Profile(state.chatId, state.userId, state.conversationId))
    }

    constructor ()
      ensures Valid() && View() == INITIAL && state == DEFAULT_STATE
    {
      state, alarmAt := DEFAULT_STATE, None;
    }

    method ResetExecutionState()
      modifies this`state
      ensures state == old(state).(
                inFlightMessages := [], activeWorkflowId := None, activeExecutionToken := None,
                activeExecutionStartedAt := None, firstOutboundClaimedAt := None, supersededAt := None,
                midRunFollowupCount := 0)
    {
      state := state.(inFlightMessages := []);
      state := state.(activeWorkflowId := None);
      state := state.(activeExecutionToken := None);
      state := state.(activeExecutionStartedAt := None);
      state := state.(firstOutboundClaimedAt := None);
      state := state.(supersededAt := None);
      state := state.(midRunFollowupCount := 0);
    }

    method ResetDebounceState()
      modifies this`state
      ensures state == old(state).(bufferStartedAt := None, debounceDeadlineAt := None)
    {
      state := state.(bufferStartedAt := None);
      state := state.(debounceDeadlineAt := None);
    }

    method ScheduleDebounce(now: int, isRerun: bool)
      modifies this
      ensures var since := old(state).bufferStartedAt.GetOr(now);
              var deadline := ComputeDebounceDeadline(now, Some(since), isRerun);
              && alarmAt == Some(deadline)
              && state == old(state).(
                   bufferStartedAt := Some(since), debounceDeadlineAt := Some(deadline), status := DebouncingStatus)
    {
      state := state.(bufferStartedAt := Some(state.bufferStartedAt.GetOr(now)));
      var deadline := ComputeDebounceDeadline(now, state.bufferStartedAt, isRerun);
      state := state.(debounceDeadlineAt := Some(deadline));
      state := state.(status := DebouncingStatus);
      alarmAt := Some(deadline);
    }

    method BufferMessage(message: Message)
      modifies this`state
      ensures state == old(state).(buffer := Buffered(old(state).buffer, message))
    {
      var buffer := state.buffer;
      if buffer != [] && SameMediaGroup(buffer[|buffer| - 1], message) {
        var merged := Merge(buffer[|buffer| - 1], message);
        ReplaceLast(buffer, merged);
        state := state.(buffer := buffer[|buffer| - 1 := merged]);
      } else {
        state := state.(buffer := buffer + [message]);
      }
    }

    method NoteMidRun(correction: bool, now: int)
      requires Valid() && state.status == Processing
      modifies this`state
      ensures Valid() && View() == old(View()).(phase := NotedMidRun(old(View()).phase, correction, now))
      ensures state.activeWorkflowId == old(state).activeWorkflowId
    {
      if correction && state.firstOutboundClaimedAt.None? {
        if state.supersededAt.None? {
          state := state.(supersededAt := Some(now));
        }
      } else {
        state := state.(midRunFollowupCount := state.midRunFollowupCount + 1);
      }
    }

    method IngestMessage(message: Message, fromChat: int, now: int)
      requires Valid()
      modifies this
      ensures Valid() && View() == Ingested(old(View()), message, fromChat, now)
      ensures state.chatId == if old(state).chatId == 0 then fromChat else old(state).chatId
      ensures state.activeWorkflowId == old(state).activeWorkflowId
    {
      if state.chatId == 0 {
        state := state.(chatId := fromChat);
      }
      BufferMessage(message);
      if state.status == Processing {
        NoteMidRun(IsCorrectionMessage(message), now);
        return;
      }
      ScheduleDebounce(now, false);
    }

    /** `alarm` up to the point where it awaits the creation of the workflow. The runtime calls it when an alarm is due. */
    method AlarmBegin(now: int, executionToken: string) returns (launch: Option<seq<Message>>)
      requires Valid() && alarmAt.Some? && alarmAt.value <= now
      modifies this
      ensures Valid() && View() == Begun(old(View()), executionToken, now)
      ensures launch == if old(state).buffer == [] then None else Some(old(state).buffer)
      ensures launch.Some? ==>
                && state.activeExecutionToken == Some(executionToken) && state.activeExecutionStartedAt == Some(now)
                && state.inFlightMessages == launch.value && state.buffer == [] && alarmAt.None?
    {
      alarmAt := None;
      if state.buffer == [] {
        state := state.(status := Idle);
        ResetDebounceState();
        return None;
      }
      var inFlight := state.buffer;
      state := state.(buffer := []);
      ResetExecutionState();
      state := state.(inFlightMessages := inFlight);
      state := state.(activeExecutionToken := Some(executionToken));
      state := state.(activeExecutionStartedAt := Some(now));
      state := state.(status := Processing);
      ResetDebounceState();
      launch := Some(inFlight);
    }

    /** The rest of `alarm` when the workflow was created. Other calls may have come in between. */
    method AlarmLaunched(workflowId: string)
      requires Valid()
      modifies this`state
      ensures Valid() && View() == old(View()) && state.activeWorkflowId == Some(workflowId)
    {
      state := state.(activeWorkflowId := Some(workflowId));
    }

    /** The rest of `alarm` when the creation threw, or there is no binding. A workflow that was never created completes nothing. */
    method AlarmLaunchFailed(now: int)
      requires Valid() && state.status.Processing?
      modifies this
      ensures Valid() && View() == LaunchFailed(old(View()), now) && state.activeWorkflowId.None?
      ensures alarmAt == Some(now + 5000) && state.status.Idle? && state.buffer == old(state).inFlightMessages + old(state).buffer
    {
      state := state.(buffer := state.inFlightMessages + state.buffer);
      ResetExecutionState();
      state := state.(status := Idle);
      alarmAt := Some(now + LAUNCH_RETRY_MS);
    }

    method ClaimFirstOutbound(executionToken: string, now: int) returns (allowed: bool, reason: ClaimReason)
      requires Valid()
      modifies this`state
      ensures Valid() && View() == Claimed(old(View()), executionToken, now)
      ensures reason == Claim(old(View()), executionToken) && allowed == reason.Ok?
      ensures state == if allowed then old(state).(firstOutboundClaimedAt := Some(now)) else old(state)
    {
      if Some(executionToken) != state.activeExecutionToken {
        return false, Stale;
      }
      if state.supersededAt.Some? {
        return false, Superseded;
      }
      if state.firstOutboundClaimedAt.Some? {
        return false, AlreadyClaimed;
      }
      state := state.(firstOutboundClaimedAt := Some(now));
      return true, Ok;
    }

    method AdoptProfile(resultUserId: Option<string>, resultConversationId: Option<string>)
      modifies this`state
      ensures var p := Adopted(Profile(old(state).chatId, old(state).userId, old(state).conversationId), resultUserId, resultConversationId);
              state == old(state).(userId := p.userId, conversationId := p.conversationId)
    {
      if resultUserId.Some? && resultUserId.value != "" {
        state := state.(userId := resultUserId);
      }
      if resultConversationId.Some? && resultConversationId.value != "" {
        state := state.(conversationId := resultConversationId);
      }
    }

    method CompleteExecution(executionToken: string, resultUserId: Option<string>, resultConversationId: Option<string>, now: int)
      returns (accepted: bool, shouldRerun: bool)
      requires Valid()
      modifies this
      ensures Valid() && View() == Completed(old(View()), executionToken, resultUserId, resultConversationId, now)
      ensures accepted <==> old(state).activeExecutionToken == Some(executionToken)
      ensures shouldRerun <==> accepted && old(state).supersededAt.Some?
      ensures state.userId == (if accepted && resultUserId.GetOr("") != "" then resultUserId else old(state).userId)
      ensures state.conversationId ==
              (if accepted && resultConversationId.GetOr("") != "" then resultConversationId else old(state).conversationId)
    {
      if Some(executionToken) != state.activeExecutionToken {
        return false, false;
      }
      AdoptProfile(resultUserId, resultConversationId);
      if state.supersededAt.Some? {
        state := state.(buffer := state.inFlightMessages + state.buffer);
        ResetExecutionState();
        ScheduleDebounce(now, true);
        accepted, shouldRerun := true, true;
        return;
      }
      ResetExecutionState();
      if |state.buffer| > 0 {
        ScheduleDebounce(now, false);
      } else {
        state := state.(status := Idle);
        ResetDebounceState();
      }
      return true, false;
    }
  }
}
