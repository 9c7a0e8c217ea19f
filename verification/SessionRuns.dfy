/**
 * Whole runs of one session: what holds after any sequence of messages, alarms, launches, claims and completions,
 * in whatever order they interleave (apps/api/src/durable-objects/conversation-session.ts:172-374).
 */
module SessionRuns {
  import opened Wrappers
  import opened ConversationSession

  /** How an execution ended, if it has. `Returned` means that its messages went back to the head of the buffer. */
  datatype Fate = Running | Committed | Returned

  /** History of one execution: its batch is the parts numbered `from` to `to` of everything ingested. */
  datatype Execution = Execution(token: string, from: nat, to: nat, granted: bool, superseded: bool, fate: Fate)

  /**
   * `launching` is the token whose `workflow.create` the alarm handler is awaiting. `ingested`, `committed` and
   * `executions` are history: all messages in arrival order, those of the committed batches, and every execution begun.
   */
  datatype World = World(
    session: Session,
    launching: Option<string>,
    clock: int,
    ingested: seq<Message>,
    committed: seq<Message>,
    executions: seq<Execution>)

  datatype Event =
    | Ingest(message: Message, chatId: int, now: int)
    | AlarmFires(token: string, now: int)
    | LaunchSucceeds
    | LaunchFails(now: int)
    | ClaimOutbound(token: string, now: int)
    | CompleteRun(token: string, userId: Option<string>, conversationId: Option<string>, now: int)

  const START := World(INITIAL, None, 0, [], [], [])

  function Parts(messages: seq<Message>): seq<Part> {
    if messages == [] then [] else Parts(messages[..|messages| - 1]) + messages[|messages| - 1].parts
  }

  function Sources(messages: seq<Message>): seq<int> {
    if messages == [] then [] else Sources(messages[..|messages| - 1]) + SourceIds(messages[|messages| - 1])
  }

  function InFlight(s: Session): seq<Message> {
    if s.phase.Executing? then s.phase.inFlight else []
  }

  predicate Active(w: World, token: string) {
    w.session.phase.Executing? && w.session.phase.token == token
  }

  predicate UsedToken(w: World, token: string) {
    exists e | e in w.executions :: e.token == token
  }

  /**
   * What the surroundings guarantee: the clock does not run backwards, an alarm handler runs when an alarm is due and no
   * other is running, tokens are fresh, and a launch that fails has started no workflow, so nothing has used its token.
   */
  predicate Enabled(w: World, e: Event) {
    match e
    case Ingest(_, _, now) => w.clock <= now
    case AlarmFires(token, now) =>
      w.launching.None? && w.session.alarm.Some? && w.session.alarm.value <= now && w.clock <= now && !UsedToken(w, token)
    case LaunchSucceeds => w.launching.Some?
    case LaunchFails(now) =>
      w.clock <= now && w.launching.Some? && Active(w, w.launching.value) && w.session.phase.claimedAt.None?
    case ClaimOutbound(_, now) => w.clock <= now
    case CompleteRun(_, _, _, now) => w.clock <= now
  }

  /** Rewrites the history entry of the latest execution. */
  function Amend(xs: seq<Execution>, x: Execution): seq<Execution> {
    if xs == [] then [] else xs[|xs| - 1 := x]
  }

  function Latest(w: World): Execution {
    if w.executions == [] then Execution("", 0, 0, false, false, Returned) else w.executions[|w.executions| - 1]
  }

  function OnIngest(w: World, m: Message, chatId: int, now: int): World {
    var s' := Ingested(w.session, m, chatId, now);
    w.(session := s', clock := now, ingested := w.ingested + [m],
       executions := if s'.phase.Executing? && s'.phase.supersededAt.Some?
                     then Amend(w.executions, Latest(w).(superseded := true)) else w.executions)
  }

  function OnAlarm(w: World, token: string, now: int): World {
    var from, s := |Parts(w.committed)|, w.session;
    if s.buffer == [] then w.(session := Begun(s, token, now), clock := now)
    else w.(session := Begun(s, token, now), launching := Some(token), clock := now,
            executions := w.executions + [Execution(token, from, from + |Parts(s.buffer)|, false, false, Running)])
  }

  function OnLaunchFails(w: World, now: int): World
    requires w.session.phase.Executing?
  {
    w.(session := LaunchFailed(w.session, now), launching := None, clock := now,
       executions := Amend(w.executions, Latest(w).(fate := Returned)))
  }

  function OnClaim(w: World, token: string, now: int): World {
    w.(session := Claimed(w.session, token, now), clock := now,
       executions := if Claim(w.session, token).Ok? then Amend(w.executions, Latest(w).(granted := true)) else w.executions)
  }

  function OnComplete(w: World, token: string, userId: Option<string>, conversationId: Option<string>, now: int): World {
    var w' := w.(session := Completed(w.session, token, userId, conversationId, now), clock := now);
    if !Active(w, token) then w'
    else if w.session.phase.supersededAt.Some? then w'.(executions := Amend(w.executions, Latest(w).(fate := Returned)))
    else w'.(committed := w.committed + w.session.phase.inFlight,
             executions := Amend(w.executions, Latest(w).(fate := Committed)))
  }

  function Apply(w: World, e: Event): World
    requires Enabled(w, e)
  {
    match e
    case Ingest(m, chatId, now) => OnIngest(w, m, chatId, now)
    case AlarmFires(token, now) => OnAlarm(w, token, now)
    case LaunchSucceeds => w.(launching := None)
    case LaunchFails(now) => OnLaunchFails(w, now)
    case ClaimOutbound(token, now) => OnClaim(w, token, now)
    case CompleteRun(token, userId, conversationId, now) => OnComplete(w, token, userId, conversationId, now)
  }

  /** The state after events that could have happened one after the other; none if they could not. */
  function Run(events: seq<Event>): Option<World> {
    if events == [] then Some(START)
    else
      match Run(events[..|events| - 1])
      case None => None
      case Some(w) => if Enabled(w, events[|events| - 1]) then Some(Apply(w, events[|events| - 1])) else None
  }

  // ------------------------------------------------------------------
  // Nothing is lost, repeated or reordered
  // ------------------------------------------------------------------

  ghost predicate Conserved(w: World) {
    && Parts(w.committed) + Parts(InFlight(w.session)) + Parts(w.session.buffer) == Parts(w.ingested)
    && Sources(w.committed) + Sources(InFlight(w.session)) + Sources(w.session.buffer) == Sources(w.ingested)
  }

  lemma {:induction false} PartsConcat(a: seq<Message>, b: seq<Message>)
    ensures Parts(a + b) == Parts(a) + Parts(b)
  {
    if b == [] {
      assert a + b == a;
    } else {
      var shorter := b[..|b| - 1];
      PartsConcat(a, shorter);
      assert (a + b)[..|a + b| - 1] == a + shorter;
      AddLast(Parts(a), Parts(shorter), b[|b| - 1].parts);
    }
  }

  lemma {:induction false} SourcesConcat(a: seq<Message>, b: seq<Message>)
    ensures Sources(a + b) == Sources(a) + Sources(b)
  {
    if b == [] {
      assert a + b == a;
    } else {
      var shorter := b[..|b| - 1];
      SourcesConcat(a, shorter);
      assert (a + b)[..|a + b| - 1] == a + shorter;
      AddLast(Sources(a), Sources(shorter), SourceIds(b[|b| - 1]));
    }
  }

  lemma AppendOne(messages: seq<Message>, m: Message)
    ensures Parts(messages + [m]) == Parts(messages) + m.parts
    ensures Sources(messages + [m]) == Sources(messages) + SourceIds(m)
  {
    assert (messages + [m])[..|messages|] == messages;
  }

  /** Buffering a message appends its parts and its source ids, whether it opens an entry or joins a media group. */
  lemma BufferedAppends(buffer: seq<Message>, m: Message)
    ensures Parts(Buffered(buffer, m)) == Parts(buffer) + m.parts
    ensures Sources(Buffered(buffer, m)) == Sources(buffer) + SourceIds(m)
  {
    if buffer == [] || !SameMediaGroup(buffer[|buffer| - 1], m) {
      AppendOne(buffer, m);
    } else {
      var shorter, last := buffer[..|buffer| - 1], buffer[|buffer| - 1];
      MergeJoins(last, m);
      JoinedAppends(buffer, m, Merge(last, m));
    }
  }

  lemma JoinedAppends(buffer: seq<Message>, m: Message, merged: Message)
    requires buffer != []
    requires merged.parts == buffer[|buffer| - 1].parts + m.parts
    requires SourceIds(merged) == SourceIds(buffer[|buffer| - 1]) + SourceIds(m)
    ensures Parts(buffer[..|buffer| - 1] + [merged]) == Parts(buffer) + m.parts
    ensures Sources(buffer[..|buffer| - 1] + [merged]) == Sources(buffer) + SourceIds(m)
  {
    var shorter, last := buffer[..|buffer| - 1], buffer[|buffer| - 1];
    AppendOne(shorter, merged);
    AddLast(Parts(shorter), last.parts, m.parts);
    AddLast(Sources(shorter), SourceIds(last), SourceIds(m));
  }

  lemma AddLast<T>(a: seq<T>, b: seq<T>, c: seq<T>)
    ensures a + (b + c) == a + b + c
  {
  }

  lemma MergeJoins(a: Message, b: Message)
    ensures Merge(a, b).parts == a.parts + b.parts && SourceIds(Merge(a, b)) == SourceIds(a) + SourceIds(b)
  {
  }

  /** A message joins the last entry exactly when both are of one media group; otherwise it opens an entry of its own. */
  lemma JoinsExactlyWhen(buffer: seq<Message>, m: Message)
    ensures |Buffered(buffer, m)| == |buffer| <==>
            buffer != [] && m.mediaGroupId.GetOr("") != "" && buffer[|buffer| - 1].mediaGroupId == m.mediaGroupId
    ensures |Buffered(buffer, m)| != |buffer| ==> Buffered(buffer, m) == buffer + [m]
    ensures |Buffered(buffer, m)| == |buffer| ==> Buffered(buffer, m)[..|buffer| - 1] == buffer[..|buffer| - 1]
  {
    if buffer != [] && SameMediaGroup(buffer[|buffer| - 1], m) {
      JoinedShape(buffer, Merge(buffer[|buffer| - 1], m));
    }
  }

  lemma JoinedShape(buffer: seq<Message>, merged: Message)
    requires buffer != []
    ensures |buffer[..|buffer| - 1] + [merged]| == |buffer|
    ensures (buffer[..|buffer| - 1] + [merged])[..|buffer| - 1] == buffer[..|buffer| - 1]
  {
  }

  function BufferAll(buffer: seq<Message>, messages: seq<Message>): seq<Message> {
    if messages == [] then buffer else Buffered(BufferAll(buffer, messages[..|messages| - 1]), messages[|messages| - 1])
  }

  /** The entry stands for these messages: the id of the first, the earliest date, and all their parts and ids. */
  ghost predicate StandsFor(entry: Message, messages: seq<Message>)
    requires messages != []
  {
    && entry.sourceMessageId == messages[0].sourceMessageId && entry.mediaGroupId == messages[0].mediaGroupId
    && entry.parts == Parts(messages) && SourceIds(entry) == Sources(messages)
    && (forall m | m in messages :: entry.date <= m.date) && (exists m | m in messages :: m.date == entry.date)
  }

  /** Messages of one media group that arrive one after the other become one entry of an empty buffer. */
  lemma {:induction false} AlbumIsOneEntry(messages: seq<Message>, group: string)
    requires messages != [] && group != "" && forall m | m in messages :: m.mediaGroupId == Some(group)
    ensures |BufferAll([], messages)| == 1 && StandsFor(BufferAll([], messages)[0], messages)
  {
    var n := |messages| - 1;
    var earlier, last := messages[..n], messages[n];
    assert messages == earlier + [last] && last in messages;
    if n == 0 {
      assert BufferAll([], earlier) == [] && Buffered([], last) == [last];
      AloneStands(last);
    } else {
      assert messages[0] == earlier[0] && messages[0] in messages;
      AlbumIsOneEntry(earlier, group);
      var entry := BufferAll([], earlier)[0];
      assert BufferAll([], earlier) == [entry];
      BufferedOne(entry, last);
      MergeStands(entry, earlier, last);
    }
  }

  lemma AloneStands(m: Message)
    ensures StandsFor(m, [m])
  {
    AppendOne([], m);
    assert [] + [m] == [m] && m in [m];
  }

  lemma BufferedOne(entry: Message, m: Message)
    requires SameMediaGroup(entry, m)
    ensures Buffered([entry], m) == [Merge(entry, m)]
  {
    assert [entry][..0] == [];
  }

  lemma MergeStands(entry: Message, earlier: seq<Message>, last: Message)
    requires earlier != [] && StandsFor(entry, earlier) && entry.mediaGroupId.Some?
    ensures StandsFor(Merge(entry, last), earlier + [last])
  {
    AppendOne(earlier, last);
    MergeJoins(entry, last);
    var merged, messages := Merge(entry, last), earlier + [last];
    if entry.date <= last.date {
      var m :| m in earlier && m.date == entry.date;
      assert m in messages;
    } else {
      assert last in messages;
    }
  }

  /** The text of a merged entry: the first text of the parts there were, or else of those that came, or else the new summary. */
  lemma MergedText(a: Message, b: Message)
    ensures var (mine, its) := (JsText.Trim(FirstText(a.parts)), JsText.Trim(FirstText(b.parts)));
            Merge(a, b).textSummary == if mine != "" then mine else if its != "" then its else b.textSummary
    ensures Merge(a, b).from == if a.from.Some? then a.from else b.from
  {
  }

  lemma StepConserves(w: World, e: Event)
    requires Enabled(w, e) && Conserved(w) && Shaped(w)
    ensures Conserved(Apply(w, e))
  {
    match e
    case Ingest(m, chatId, now) => IngestConserves(w, m, chatId, now);
    case AlarmFires(token, now) => AlarmConserves(w, token, now);
    case LaunchSucceeds => SameMessages(w, w.(launching := None));
    case LaunchFails(now) => LaunchFailConserves(w, now);
    case ClaimOutbound(token, now) => SameMessages(w, OnClaim(w, token, now));
    case CompleteRun(token, userId, conversationId, now) =>
      if Active(w, token) {
        CompleteConserves(w, token, userId, conversationId, now);
      } else {
        SameMessages(w, w.(clock := now));
      }
  }

  lemma SameMessages(w: World, w': World)
    requires Conserved(w) && w'.committed == w.committed && w'.ingested == w.ingested
    requires InFlight(w'.session) == InFlight(w.session) && w'.session.buffer == w.session.buffer
    ensures Conserved(w')
  {
  }

  lemma LaunchFailConserves(w: World, now: int)
    requires Conserved(w) && w.session.phase.Executing?
    ensures Conserved(OnLaunchFails(w, now))
  {
    ReturnConserves(w.committed, w.session.phase.inFlight, w.session.buffer);
  }

  lemma CompletedShape(s: Session, token: string, userId: Option<string>, conversationId: Option<string>, now: int)
    requires s.phase.Executing? && s.phase.token == token
    ensures var s' := Completed(s, token, userId, conversationId, now);
            && !s'.phase.Executing?
            && s'.buffer == if s.phase.supersededAt.Some? then s.phase.inFlight + s.buffer else s.buffer
  {
  }

  lemma CompleteConserves(w: World, token: string, userId: Option<string>, conversationId: Option<string>, now: int)
    requires Conserved(w) && Active(w, token)
    ensures Conserved(OnComplete(w, token, userId, conversationId, now))
  {
    var s := w.session;
    CompletedShape(s, token, userId, conversationId, now);
    ReturnConserves(w.committed, s.phase.inFlight, s.buffer);
  }

  /** Moving a batch to the head of the buffer, or to the end of what is committed, keeps the whole. */
  lemma ReturnConserves(committed: seq<Message>, batch: seq<Message>, buffer: seq<Message>)
    ensures Parts(committed) + Parts([]) + Parts(batch + buffer) == Parts(committed) + Parts(batch) + Parts(buffer)
    ensures Sources(committed) + Sources([]) + Sources(batch + buffer) == Sources(committed) + Sources(batch) + Sources(buffer)
    ensures Parts(committed + batch) + Parts([]) + Parts(buffer) == Parts(committed) + Parts(batch) + Parts(buffer)
    ensures Sources(committed + batch) + Sources([]) + Sources(buffer) == Sources(committed) + Sources(batch) + Sources(buffer)
  {
    PartsConcat(batch, buffer);
    SourcesConcat(batch, buffer);
    PartsConcat(committed, batch);
    SourcesConcat(committed, batch);
    Regroup(Parts(committed), Parts(batch), Parts(buffer));
    Regroup(Sources(committed), Sources(batch), Sources(buffer));
  }

  lemma Regroup<T>(a: seq<T>, b: seq<T>, c: seq<T>)
    ensures a + [] + (b + c) == a + b + c && a + b + [] + c == a + b + c
  {
  }

  lemma IngestConserves(w: World, m: Message, chatId: int, now: int)
    requires Conserved(w)
    ensures Conserved(OnIngest(w, m, chatId, now))
  {
    var s, s' := w.session, Ingested(w.session, m, chatId, now);
    BufferedAppends(s.buffer, m);
    AppendOne(w.ingested, m);
    assert InFlight(s') == InFlight(s) && s'.buffer == Buffered(s.buffer, m);
    Associate(Parts(w.committed), Parts(InFlight(s)), Parts(s.buffer), m.parts);
    Associate(Sources(w.committed), Sources(InFlight(s)), Sources(s.buffer), SourceIds(m));
  }

  lemma Associate<T>(a: seq<T>, b: seq<T>, c: seq<T>, d: seq<T>)
    ensures a + b + (c + d) == a + b + c + d
  {
  }

  lemma AlarmConserves(w: World, token: string, now: int)
    requires Conserved(w) && InFlight(w.session) == []
    ensures Conserved(OnAlarm(w, token, now))
  {
    var s' := OnAlarm(w, token, now).session;
    if w.session.buffer != [] {
      assert InFlight(s') == w.session.buffer && s'.buffer == [];
      Regroup(Parts(w.committed), Parts(w.session.buffer), []);
      Regroup(Sources(w.committed), Sources(w.session.buffer), []);
      assert Parts([]) == [] && Sources([]) == [];
    }
  }

  // ------------------------------------------------------------------
  // Alarms: no lost wake-up, and a bounded debounce
  // ------------------------------------------------------------------

  /** An alarm is armed exactly when there is something to wait for and nothing is running. */
  ghost predicate Shaped(w: World) {
    var s := w.session;
    match s.phase
    case Resting => s.alarm.Some? <==> s.buffer != []
    case Debouncing(since) =>
      s.buffer != [] && since <= w.clock && s.alarm.Some? && since + RERUN_DEBOUNCE_MS <= s.alarm.value <= since + DEBOUNCE_CAP_MS
    case Executing(_, _, inFlight, claimedAt, supersededAt, _) =>
      s.alarm.None? && inFlight != [] && !(claimedAt.Some? && supersededAt.Some?)
  }

  lemma StepShaped(w: World, e: Event)
    requires Enabled(w, e) && Shaped(w)
    ensures Shaped(Apply(w, e))
  {
    match e
    case Ingest(m, chatId, now) =>
      ArrivalShaped(w, Buffered(w.session.buffer, m), IsCorrectionMessage(m), chatId, now);
    case _ =>
  }

  lemma ArrivalShaped(w: World, buffer: seq<Message>, correction: bool, chatId: int, now: int)
    requires Shaped(w) && w.clock <= now && buffer != []
    ensures Shaped(w.(session := Arrived(w.session, buffer, correction, chatId, now), clock := now))
  {
    if w.session.phase.Executing? {
      NotedKeepsBatch(w.session.phase, correction, now);
    }
  }

  // ------------------------------------------------------------------
  // Tokens, claims and batches
  // ------------------------------------------------------------------

  /** The history of executions fits the state of the session. */
  ghost predicate Accounted(w: World) {
    var xs := w.executions;
    && (forall i, j | 0 <= i < j < |xs| :: xs[i].token != xs[j].token)
    && (forall i | 0 <= i < |xs| :: xs[i].fate.Running? ==> w.session.phase.Executing? && i == |xs| - 1)
    && (w.session.phase.Executing? ==>
         var p, x := w.session.phase, |Parts(w.committed)|;
         xs != [] && xs[|xs| - 1] == Execution(p.token, x, x + |Parts(p.inFlight)|, p.claimedAt.Some?, p.supersededAt.Some?, Running))
    && (w.launching.Some? ==> xs != [] && xs[|xs| - 1].token == w.launching.value)
  }

  /** A granted execution was not superseded and is running or committed; what comes later lies wholly after its batch. */
  ghost predicate Settled(w: World) {
    var xs := w.executions;
    && (forall i | 0 <= i < |xs| :: xs[i].granted ==> !xs[i].superseded && !xs[i].fate.Returned?)
    && (forall i | 0 <= i < |xs| :: xs[i].fate.Committed? ==> xs[i].to <= |Parts(w.committed)|)
    && (forall i, j | 0 <= i < j < |xs| :: xs[i].granted ==> xs[i].to <= xs[j].from)
    && (forall i | 0 <= i < |xs| :: xs[i].from <= xs[i].to)
  }

  ghost predicate Inv(w: World) {
    Conserved(w) && Shaped(w) && Accounted(w) && Settled(w)
  }

  lemma StepAccounted(w: World, e: Event)
    requires Enabled(w, e) && Inv(w)
    ensures Accounted(Apply(w, e)) && Settled(Apply(w, e))
  {
    match e
    case Ingest(m, chatId, now) => IngestAccounted(w, m, chatId, now);
    case AlarmFires(token, now) => AlarmAccounted(w, token, now);
    case LaunchSucceeds => LaunchAccounted(w);
    case LaunchFails(now) => CloseAccounted(w, OnLaunchFails(w, now), Returned);
    case ClaimOutbound(token, now) => ClaimAccounted(w, token, now);
    case CompleteRun(token, userId, conversationId, now) => CompleteAccounted(w, token, userId, conversationId, now);
  }

  lemma LaunchAccounted(w: World)
    requires Accounted(w) && Settled(w)
    ensures Accounted(w.(launching := None)) && Settled(w.(launching := None))
  {
  }

  lemma TimePasses(w: World, now: int)
    requires Accounted(w) && Settled(w)
    ensures Accounted(w.(clock := now)) && Settled(w.(clock := now))
  {
  }

  lemma IngestAccounted(w: World, m: Message, chatId: int, now: int)
    requires Inv(w)
    ensures Accounted(OnIngest(w, m, chatId, now)) && Settled(OnIngest(w, m, chatId, now))
  {
    if w.session.phase.Executing? {
      IngestExecuting(w.session, m, chatId, now);
      RunningEntry(w);
      AmendAccounted(w, OnIngest(w, m, chatId, now));
    } else {
      NothingAmended(w, OnIngest(w, m, chatId, now));
    }
  }

  /** The last history entry says what the phase says. */
  lemma RunningEntry(w: World)
    requires Accounted(w) && w.session.phase.Executing?
    ensures var p := w.session.phase;
            Latest(w) == Latest(w).(granted := p.claimedAt.Some?, superseded := p.supersededAt.Some?)
            && Amend(w.executions, Latest(w)) == w.executions
  {
  }

  lemma NothingAmended(w: World, w': World)
    requires Inv(w) && !w.session.phase.Executing? && !w'.session.phase.Executing?
    requires w'.launching == w.launching && w'.committed == w.committed && w'.executions == w.executions
    ensures Accounted(w') && Settled(w')
  {
  }

  lemma IngestExecuting(s: Session, m: Message, chatId: int, now: int)
    requires s.phase.Executing?
    ensures var p, p' := s.phase, Ingested(s, m, chatId, now).phase;
            && p'.Executing? && p'.token == p.token && p'.inFlight == p.inFlight && p'.claimedAt == p.claimedAt
            && (p.supersededAt.Some? ==> p'.supersededAt.Some?)
            && (p'.supersededAt.Some? ==> p.supersededAt.Some? || p.claimedAt.None?)
  {
    NotedKeepsBatch(s.phase, IsCorrectionMessage(m), now);
  }

  lemma NotedKeepsBatch(p: Phase, correction: bool, now: int)
    requires p.Executing?
    ensures var p' := NotedMidRun(p, correction, now);
            && p'.Executing? && p'.token == p.token && p'.inFlight == p.inFlight && p'.claimedAt == p.claimedAt
            && (p.supersededAt.Some? ==> p'.supersededAt.Some?)
            && (p'.supersededAt.Some? ==> p.supersededAt.Some? || p.claimedAt.None?)
  {
  }

  lemma AlarmAccounted(w: World, token: string, now: int)
    requires Inv(w) && w.session.alarm.Some? && !UsedToken(w, token)
    ensures Accounted(OnAlarm(w, token, now)) && Settled(OnAlarm(w, token, now))
  {
    forall i | 0 <= i < |w.executions| ensures w.executions[i].token != token {
      assert w.executions[i] in w.executions;
    }
  }

  lemma ClaimAccounted(w: World, token: string, now: int)
    requires Inv(w)
    ensures Accounted(OnClaim(w, token, now)) && Settled(OnClaim(w, token, now))
  {
    if Claim(w.session, token).Ok? {
      RunningEntry(w);
      assert Latest(w).(granted := true) == Latest(w).(granted := true, superseded := w.session.phase.supersededAt.Some?);
      AmendAccounted(w, OnClaim(w, token, now));
    } else {
      TimePasses(w, now);
    }
  }

  /** A claim or a supersession of the running execution, recorded in its history entry. */
  lemma AmendAccounted(w: World, w': World)
    requires Inv(w) && w.session.phase.Executing? && w'.session.phase.Executing?
    requires w'.launching == w.launching && w'.committed == w.committed
    requires w'.session.phase.token == w.session.phase.token && w'.session.phase.inFlight == w.session.phase.inFlight
    requires var p := w'.session.phase;
             w'.executions == Amend(w.executions, Latest(w).(granted := p.claimedAt.Some?, superseded := p.supersededAt.Some?))
             && !(p.claimedAt.Some? && p.supersededAt.Some?)
    ensures Accounted(w') && Settled(w')
  {
  }

  lemma CompleteAccounted(w: World, token: string, userId: Option<string>, conversationId: Option<string>, now: int)
    requires Inv(w)
    ensures Accounted(OnComplete(w, token, userId, conversationId, now)) && Settled(OnComplete(w, token, userId, conversationId, now))
  {
    if Active(w, token) {
      var fate := CompletionEnds(w, token, userId, conversationId, now);
      CloseAccounted(w, OnComplete(w, token, userId, conversationId, now), fate);
    } else {
      TimePasses(w, now);
    }
  }

  /** What the accepted completion does to the history. */
  lemma CompletionEnds(w: World, token: string, userId: Option<string>, conversationId: Option<string>, now: int) returns (fate: Fate)
    requires Accounted(w) && Shaped(w) && Active(w, token)
    ensures var w' := OnComplete(w, token, userId, conversationId, now);
            && !w'.session.phase.Executing? && w'.launching == w.launching
            && w'.executions == Amend(w.executions, Latest(w).(fate := fate))
            && (fate.Returned? ==> w.session.phase.claimedAt.None? && w'.committed == w.committed)
            && (!fate.Returned? ==> fate.Committed? && |Parts(w'.committed)| == Latest(w).to)
  {
    CompletedShape(w.session, token, userId, conversationId, now);
    PartsConcat(w.committed, w.session.phase.inFlight);
    fate := if w.session.phase.supersededAt.Some? then Returned else Committed;
  }

  /** Ending the running execution, either way, leaves the history in order. */
  lemma CloseAccounted(w: World, w': World, fate: Fate)
    requires Inv(w) && w.session.phase.Executing? && !w'.session.phase.Executing?
    requires w'.launching == w.launching || w'.launching.None?
    requires w'.executions == Amend(w.executions, Latest(w).(fate := fate))
    requires fate.Returned? ==> w.session.phase.claimedAt.None? && w'.committed == w.committed
    requires !fate.Returned? ==> fate.Committed? && |Parts(w'.committed)| == Latest(w).to
    ensures Accounted(w') && Settled(w')
  {
  }

  lemma StepInv(w: World, e: Event)
    requires Enabled(w, e) && Inv(w)
    ensures Inv(Apply(w, e))
  {
    StepConserves(w, e);
    StepShaped(w, e);
    StepAccounted(w, e);
  }

  /** Every reachable state satisfies the invariant. */
  lemma {:induction false} ReachableInv(events: seq<Event>)
    requires Run(events).Some?
    ensures Inv(Run(events).value)
  {
    if events != [] {
      var w, e := Run(events[..|events| - 1]).value, events[|events| - 1];
      ReachableInv(events[..|events| - 1]);
      StepInv(w, e);
    }
  }

  // ------------------------------------------------------------------
  // What a user of the session may rely on
  // ------------------------------------------------------------------

  /** All messages that the events bring, in arrival order. */
  function MessagesOf(events: seq<Event>): seq<Message> {
    if events == [] then []
    else
      var last := events[|events| - 1];
      MessagesOf(events[..|events| - 1]) + if last.Ingest? then [last.message] else []
  }

  lemma {:induction false} IngestedIsMessages(events: seq<Event>)
    requires Run(events).Some?
    ensures Run(events).value.ingested == MessagesOf(events)
  {
    if events != [] {
      IngestedIsMessages(events[..|events| - 1]);
      StepIngests(Run(events[..|events| - 1]).value, events[|events| - 1]);
    }
  }

  lemma StepIngests(w: World, e: Event)
    requires Enabled(w, e)
    ensures Apply(w, e).ingested == w.ingested + if e.Ingest? then [e.message] else []
  {
  }

  /**
   * In every reachable state the parts of the committed batches, then of the batch in flight, then of the buffer are all
   * the parts that ever arrived, once each and in order; the same holds of the platform message ids.
   */
  lemma NothingLostOrRepeated(events: seq<Event>)
    requires Run(events).Some?
    ensures var w := Run(events).value;
            && Parts(w.committed) + Parts(InFlight(w.session)) + Parts(w.session.buffer) == Parts(MessagesOf(events))
            && Sources(w.committed) + Sources(InFlight(w.session)) + Sources(w.session.buffer) == Sources(MessagesOf(events))
  {
    ReachableInv(events);
    IngestedIsMessages(events);
  }

  /**
   * Messages never wait for nothing: when some are buffered, an alarm is armed or a run is active. While debouncing the
   * alarm lies within a window that starts with the buffer and does not move, however many messages arrive.
   */
  lemma NoLostWakeUp(events: seq<Event>)
    requires Run(events).Some?
    ensures var s := Run(events).value.session;
            && (s.buffer != [] ==> s.alarm.Some? || s.phase.Executing?)
            && (s.phase.Debouncing? ==> s.alarm.Some? && s.phase.since + 250 <= s.alarm.value <= s.phase.since + 1500)
    ensures forall m, chatId, now :: Enabled(Run(events).value, Ingest(m, chatId, now)) && Run(events).value.session.phase.Debouncing? ==>
              OnIngest(Run(events).value, m, chatId, now).session.phase == Run(events).value.session.phase
  {
    ReachableInv(events);
  }

  /** How far ahead of `now` the alarm stands. */
  function Wait(w: World, now: int): Option<int> {
    if w.session.alarm.Some? then Some(w.session.alarm.value - now) else None
  }

  /** The wait that a message starts or resets: 400 ms, cut where 1500 ms have passed since the buffer was opened. */
  predicate WaitsSince(since: int, now: int, w': World) {
    Wait(w', now) == Some(if since + 1100 <= now then since + 1500 - now else 400)
  }

  lemma ArrivalWaits(s: Session, buffer: seq<Message>, correction: bool, chatId: int, now: int)
    requires !s.phase.Executing?
    ensures Arrived(s, buffer, correction, chatId, now).alarm ==
            var since := if s.phase.Debouncing? then s.phase.since else now;
            Some(now + if since + 1100 <= now then since + 1500 - now else 400)
  {
  }

  lemma IngestWaits(w: World, m: Message, chatId: int, now: int)
    requires !w.session.phase.Executing?
    ensures WaitsSince(if w.session.phase.Debouncing? then w.session.phase.since else now, now, OnIngest(w, m, chatId, now))
  {
    ArrivalWaits(w.session, Buffered(w.session.buffer, m), IsCorrectionMessage(m), chatId, now);
  }

  lemma CompletionWaits(w: World, token: string, userId: Option<string>, conversationId: Option<string>, now: int)
    requires Shaped(w) && Active(w, token)
    ensures var w' := OnComplete(w, token, userId, conversationId, now);
            Wait(w', now) == if w.session.phase.supersededAt.Some? then Some(250) else if w.session.buffer != [] then Some(400) else None
  {
  }

  /**
   * After any run, a message that opens a buffer waits 400 ms, and one that joins it 400 ms or until 1500 ms after the
   * buffer was opened: no message ever waits 800 ms.
   */
  lemma FirstMessageWaits400(events: seq<Event>, m: Message, chatId: int, now: int)
    requires Run(events).Some? && Run(events).value.clock <= now && !Run(events).value.session.phase.Executing?
    ensures var (phase, w') := (Run(events).value.session.phase, OnIngest(Run(events).value, m, chatId, now));
            && (phase.Resting? ==> Wait(w', now) == Some(400))
            && (phase.Debouncing? ==> WaitsSince(phase.since, now, w'))
            && Wait(w', now) != Some(800)
  {
    ReachableInv(events);
    IngestWaits(Run(events).value, m, chatId, now);
  }

  /**
   * After any run, a completion that leaves something to run waits 250 ms exactly when the execution was superseded, and
   * 400 ms exactly when it was not: follow-ups alone are no reason for the short wait.
   */
  lemma ShortWaitExactlyWhen(
      events: seq<Event>, token: string, userId: Option<string>, conversationId: Option<string>, now: int)
    requires Run(events).Some? && Enabled(Run(events).value, CompleteRun(token, userId, conversationId, now))
    requires Active(Run(events).value, token)
    ensures var (w, w') := (Run(events).value, OnComplete(Run(events).value, token, userId, conversationId, now));
            && (Wait(w', now) == Some(250) <==> w.session.phase.supersededAt.Some?)
            && (Wait(w', now) == Some(400) <==> w.session.phase.supersededAt.None? && w.session.buffer != [])
            && (Wait(w', now) == None <==> w.session.phase.supersededAt.None? && w.session.buffer == [])
  {
    ReachableInv(events);
    CompletionWaits(Run(events).value, token, userId, conversationId, now);
  }

  lemma {:induction false} RunPrefix(events: seq<Event>, n: nat)
    requires n <= |events| && Run(events).Some?
    ensures Run(events[..n]).Some?
  {
    if n < |events| {
      RunPrefix(events[..|events| - 1], n);
      assert events[..|events| - 1][..n] == events[..n];
    } else {
      assert events[..n] == events;
    }
  }

  /** Later histories extend earlier ones: batches keep their place, and grants and supersessions are not taken back. */
  ghost predicate ExtendsHistory(a: World, b: World) {
    && |a.executions| <= |b.executions|
    && forall k | 0 <= k < |a.executions| :: GrowsTo(a.executions[k], b.executions[k])
  }

  lemma StepExtendsHistory(w: World, e: Event)
    requires Enabled(w, e)
    ensures ExtendsHistory(w, Apply(w, e))
  {
    match e
    case AlarmFires(token, now) =>
    case LaunchSucceeds =>
    case _ => AmendExtends(w, Apply(w, e));
  }

  /** At most the latest entry is rewritten, and what it says of grant and supersession only grows. */
  lemma AmendExtends(a: World, b: World)
    requires b.executions == a.executions || exists x :: b.executions == Amend(a.executions, x) && GrowsTo(Latest(a), x)
    ensures ExtendsHistory(a, b)
  {
  }

  predicate GrowsTo(x: Execution, y: Execution) {
    x.token == y.token && x.from == y.from && x.to == y.to && (x.granted ==> y.granted) && (x.superseded ==> y.superseded)
  }

  lemma ExtendsTransitive(a: World, b: World, c: World)
    requires ExtendsHistory(a, b) && ExtendsHistory(b, c)
    ensures ExtendsHistory(a, c)
  {
    forall k | 0 <= k < |a.executions| ensures GrowsTo(a.executions[k], c.executions[k]) {
      assert GrowsTo(a.executions[k], b.executions[k]) && GrowsTo(b.executions[k], c.executions[k]);
    }
  }

  lemma {:induction false} RunExtendsHistory(events: seq<Event>, n: nat)
    requires n <= |events| && Run(events).Some?
    ensures Run(events[..n]).Some? && ExtendsHistory(Run(events[..n]).value, Run(events).value)
  {
    RunPrefix(events, n);
    if n < |events| {
      var shorter := events[..|events| - 1];
      RunExtendsHistory(shorter, n);
      assert shorter[..n] == events[..n];
      StepExtendsHistory(Run(shorter).value, events[|events| - 1]);
      ExtendsTransitive(Run(events[..n]).value, Run(shorter).value, Run(events).value);
    } else {
      assert events[..n] == events;
    }
  }

  /** Event `i` of the run is a claim by this token, and it is granted. */
  predicate Granted(events: seq<Event>, i: nat, token: string) {
    && i < |events| && events[i].ClaimOutbound? && events[i].token == token
    && Run(events[..i]).Some? && Claim(Run(events[..i]).value.session, token).Ok?
  }

  lemma GrantApplies(events: seq<Event>, i: nat, token: string)
    requires Granted(events, i, token) && Run(events[..i + 1]).Some?
    ensures Run(events[..i + 1]).value == OnClaim(Run(events[..i]).value, token, events[i].now)
  {
    assert events[..i + 1][..i] == events[..i];
  }

  lemma GrantRecorded(events: seq<Event>, i: nat, token: string)
    requires Run(events).Some? && Granted(events, i, token)
    ensures var xs := Run(events).value.executions;
            exists k | 0 <= k < |xs| :: xs[k].token == token && xs[k].granted
  {
    RunExtendsHistory(events, i + 1);
    GrantApplies(events, i, token);
    ReachableInv(events[..i]);
    GrantPersists(Run(events[..i]).value, token, events[i].now, Run(events).value);
  }

  lemma GrantPersists(w: World, token: string, now: int, later: World)
    requires Inv(w) && Claim(w.session, token).Ok? && ExtendsHistory(OnClaim(w, token, now), later)
    ensures exists k | 0 <= k < |later.executions| :: later.executions[k].token == token && later.executions[k].granted
  {
    var k := |w.executions| - 1;
    assert OnClaim(w, token, now).executions[k].granted;
    assert later.executions[k].token == token;
  }

  lemma SupersessionPersists(w: World, token: string, later: World)
    requires Inv(w) && Inv(later) && ExtendsHistory(w, later)
    requires Active(w, token) && w.session.phase.supersededAt.Some?
    ensures !Claim(later.session, token).Ok?
  {
    var k := |w.executions| - 1;
    assert later.executions[k].token == token && later.executions[k].superseded;
    GrantedNotClaimable(later, k, token);
  }

  lemma GrantedNotClaimable(w: World, k: nat, token: string)
    requires Inv(w) && k < |w.executions| && w.executions[k].token == token
    requires w.executions[k].granted || w.executions[k].superseded
    ensures !Claim(w.session, token).Ok?
  {
    if Active(w, token) {
      assert Latest(w).token == token;
    }
  }

  lemma GrantedOnlyOnce(events: seq<Event>, i: nat, j: nat, token: string)
    requires Run(events).Some? && i < j && Granted(events, i, token)
    ensures !Granted(events, j, token)
  {
    if j < |events| {
      RunPrefix(events, j);
      assert events[..j][..i] == events[..i];
      GrantRecorded(events[..j], i, token);
      ReachableInv(events[..j]);
      var w := Run(events[..j]).value;
      var k :| 0 <= k < |w.executions| && w.executions[k].token == token && w.executions[k].granted;
      GrantedNotClaimable(w, k, token);
    }
  }

  /** No token is granted the first outbound twice. */
  lemma GrantedAtMostOnce(events: seq<Event>, i: nat, j: nat, token: string)
    requires Run(events).Some? && Granted(events, i, token) && Granted(events, j, token)
    ensures i == j
  {
    if i < j {
      GrantedOnlyOnce(events, i, j, token);
    } else if j < i {
      GrantedOnlyOnce(events, j, i, token);
    }
  }

  /** A token that has been superseded is never granted the first outbound afterwards. */
  lemma SupersededNeverGranted(events: seq<Event>, n: nat, i: nat, token: string)
    requires Run(events).Some? && n <= i <= |events| && Run(events[..n]).Some?
    requires Active(Run(events[..n]).value, token) && Run(events[..n]).value.session.phase.supersededAt.Some?
    ensures !Granted(events, i, token)
  {
    RunPrefix(events, i);
    assert events[..i][..n] == events[..n];
    RunExtendsHistory(events[..i], n);
    ReachableInv(events[..n]);
    ReachableInv(events[..i]);
    SupersessionPersists(Run(events[..n]).value, token, Run(events[..i]).value);
  }

  /**
   * A batch in flight is one segment of everything that arrived, at the place its history entry records, and no segment
   * of a later execution overlaps that of a granted one: a part answered under a grant is never in flight again.
   */
  lemma GrantedBatchesDisjoint(events: seq<Event>)
    requires Run(events).Some?
    ensures var w := Run(events).value;
            && (forall i, j | 0 <= i < j < |w.executions| && w.executions[i].granted :: w.executions[i].to <= w.executions[j].from)
            && (w.session.phase.Executing? ==>
                 var x, all := Latest(w), Parts(MessagesOf(events));
                 && x.token == w.session.phase.token && x.fate == Running
                 && x.from <= x.to <= |all| && Parts(w.session.phase.inFlight) == all[x.from..x.to])
  {
    ReachableInv(events);
    NothingLostOrRepeated(events);
    BatchIsSegment(Run(events).value, Parts(MessagesOf(events)));
  }

  lemma BatchIsSegment(w: World, all: seq<Part>)
    requires Inv(w) && Parts(w.committed) + Parts(InFlight(w.session)) + Parts(w.session.buffer) == all
    ensures forall i, j | 0 <= i < j < |w.executions| && w.executions[i].granted :: w.executions[i].to <= w.executions[j].from
    ensures w.session.phase.Executing? ==>
              var x := Latest(w);
              && x.token == w.session.phase.token && x.fate == Running
              && x.from <= x.to <= |all| && Parts(w.session.phase.inFlight) == all[x.from..x.to]
  {
    Middle(Parts(w.committed), Parts(InFlight(w.session)), Parts(w.session.buffer));
  }

  lemma Middle<T>(a: seq<T>, b: seq<T>, c: seq<T>)
    ensures (a + b + c)[|a|..|a| + |b|] == b
  {
  }


  /** The same launched run is still active in `b`, nothing has been committed, and no other run has begun. */
  ghost predicate SameRun(a: World, b: World) {
    && a.session.phase.Executing? && b.session.phase.Executing? && b.launching.None?
    && b.session.phase.token == a.session.phase.token && b.session.phase.inFlight == a.session.phase.inFlight
    && b.committed == a.committed && |b.executions| == |a.executions|
  }

  lemma StepKeepsRun(w: World, e: Event)
    requires Enabled(w, e) && Shaped(w) && w.session.phase.Executing? && w.launching.None?
    requires e.CompleteRun? ==> !Active(w, e.token)
    ensures SameRun(w, Apply(w, e))
  {
  }

  /**
   * Only the completion of the active token ends a launched run. Until it comes, whatever else happens, the run stays
   * active, no other starts, and messages only pile up. A workflow that returns without completing leaves it so.
   */
  lemma {:induction false} OnlyItsCompletionEndsARun(events: seq<Event>, n: nat)
    requires n <= |events| && Run(events).Some? && Run(events[..n]).Some?
    requires Run(events[..n]).value.session.phase.Executing? && Run(events[..n]).value.launching.None?
    requires forall k | n <= k < |events| :: events[k].CompleteRun? ==> !Active(Run(events[..n]).value, events[k].token)
    ensures SameRun(Run(events[..n]).value, Run(events).value)
  {
    if n < |events| {
      var shorter := events[..|events| - 1];
      assert shorter[..n] == events[..n];
      assert forall k | n <= k < |shorter| :: shorter[k] == events[k];
      OnlyItsCompletionEndsARun(shorter, n);
      ReachableInv(shorter);
      StepKeepsRun(Run(shorter).value, events[|events| - 1]);
    } else {
      assert events[..n] == events;
    }
  }
}
