/** Whole runs of the chat state: refinement over any series of calls, lease exclusion and queue order. */
module ChatRuns {
  import opened Wrappers
  import opened ChatStore
  import opened ChatState

  // ------------------------------------------------------------------
  // Refinement over runs
  // ------------------------------------------------------------------

  method Perform(store: ChatState, op: Op, now: int) returns (reply: Reply)
    modifies store
    ensures store.Refines(op, now, reply)
    ensures old(store.Armed(now)) ==> store.Armed(now)
    ensures old(store.alarm).Some? ==> store.alarm.Some? || (op.Sweep? && NothingExpires(store.Tables()))
  {
    match op {
      case AcquireLock(threadId, ttlMs, token) =>
        var lease := store.AcquireLock(threadId, ttlMs, token, now);
        reply := Granted(lease);
      case ForceReleaseLock(threadId) =>
        store.ForceReleaseLock(threadId, now);
        reply := Done;
      case ReleaseLock(threadId, token) =>
        store.ReleaseLock(threadId, token, now);
        reply := Done;
      case ExtendLock(threadId, token, ttlMs) =>
        var extended := store.ExtendLock(threadId, token, ttlMs, now);
        reply := Flag(extended);
      case CacheGet(key) =>
        var cell := store.CacheGet(key, now);
        reply := Found(cell);
      case CacheSet(key, value, ttl) =>
        store.CacheSet(key, value, ttl, now);
        reply := Done;
      case CacheSetIfNotExists(key, value, ttl) =>
        var stored := store.CacheSetIfNotExists(key, value, ttl, now);
        reply := Flag(stored);
      case CacheDelete(key) =>
        store.CacheDelete(key, now);
        reply := Done;
      case ListAppend(key, value, maxLength, ttl) =>
        store.ListAppend(key, value, maxLength, ttl, now);
        reply := Done;
      case ListGet(key) =>
        var items := store.ListGet(key, now);
        reply := Items(items);
      case Enqueue(threadId, item, maxSize) =>
        var depth := store.Enqueue(threadId, item, maxSize, now);
        reply := Count(depth);
      case Dequeue(threadId) =>
        var item := store.Dequeue(threadId, now);
        reply := Taken(item);
      case QueueDepth(threadId) =>
        var depth := store.QueueDepth(threadId, now);
        reply := Count(depth);
      case Sweep =>
        store.Sweep(now);
        reply := Done;
    }
  }

  function LastTime(calls: seq<Call>, start: int): int {
    if calls == [] then start else calls[|calls| - 1].now
  }

  /** At moment `i` of a run some row was there whose expiry lay ahead. */
  ghost predicate PromisedAt(history: seq<Store>, calls: seq<Call>, start: int, i: nat)
    requires i < |history| && i <= |calls|
  {
    exists e :: Expires(history[i], e) && e > LastTime(calls[..i], start)
  }

  /** At every moment after `i` some row was there that expires at some time, past or future. */
  ghost predicate RowsSince(history: seq<Store>, i: nat) {
    forall k | i < k < |history| :: !NothingExpires(history[k])
  }

  /** Whoever stored a row with its expiry ahead has an alarm armed for as long as the row, or any other that expires, is there. */
  ghost predicate AlarmOwed(history: seq<Store>, calls: seq<Call>, start: int)
    requires |history| <= |calls| + 1
  {
    exists i | 0 <= i < |history| :: PromisedAt(history, calls, start, i) && RowsSince(history, i)
  }

  /** `history` is what the tables held before the first call and after each, as far as anyone can see. */
  ghost predicate HistoryOf(history: seq<Store>, calls: seq<Call>, parse: string -> seq<string>) {
    && |history| == |calls| + 1
    && forall i | 0 <= i < |calls| :: Tick(history[i + 1], calls[i].now) == Step(history[i], calls[i], parse).0
  }

  /** One more moment: what is owed now was owed before, or a row lies ahead now. */
  lemma OwedStep(history: seq<Store>, s: Store, calls: seq<Call>, n: nat, start: int)
    requires n < |calls| && |history| == n + 1 && AlarmOwed(history + [s], calls[..n + 1], start)
    ensures (AlarmOwed(history, calls[..n], start) && !NothingExpires(s)) || exists e :: Expires(s, e) && e > calls[n].now
  {
    var longer := history + [s];
    var i :| 0 <= i < |longer| && PromisedAt(longer, calls[..n + 1], start, i) && RowsSince(longer, i);
    if i <= n {
      assert calls[..n + 1][..i] == calls[..n][..i] && longer[i] == history[i];
      assert PromisedAt(history, calls[..n], start, i);
      assert longer[n + 1] == s;
      forall k | i < k < |history| ensures !NothingExpires(history[k]) {
        assert longer[k] == history[k];
      }
    } else {
      assert calls[..n + 1][..i] == calls[..n + 1];
    }
  }

  lemma HistoryGrows(history: seq<Store>, s: Store, calls: seq<Call>, n: nat, parse: string -> seq<string>)
    requires n < |calls| && HistoryOf(history, calls[..n], parse)
    requires Tick(s, calls[n].now) == Step(history[n], calls[n], parse).0
    ensures HistoryOf(history + [s], calls[..n + 1], parse)
  {
    var longer := history + [s];
    forall i | 0 <= i <= n ensures Tick(longer[i + 1], calls[i].now) == Step(longer[i], calls[i], parse).0 {
      if i < n {
        assert calls[..n][i] == calls[i] && longer[i] == history[i] && longer[i + 1] == history[i + 1];
      }
    }
  }

  lemma PlayNext(s: Store, plain: Store, calls: seq<Call>, n: nat, last: int, replies: seq<Reply>, parse: string -> seq<string>)
    requires n < |calls| && last <= calls[n].now && Play(plain, calls[..n], parse) == (Tick(s, last), replies)
    ensures Play(plain, calls[..n + 1], parse)
         == (Step(s, calls[n], parse).0, replies + [Step(s, calls[n], parse).1])
  {
    TickTwice(s, last, calls[n].now);
    assert calls[..n + 1][..n] == calls[..n];
  }

  method PerformNext(store: ChatState, calls: seq<Call>, n: nat, start: int, ghost history: seq<Store>) returns (reply: Reply)
    requires n < |calls| && Chronological(calls, start)
    requires |history| == n + 1 && history[n] == store.Tables() && store.Armed(LastTime(calls[..n], start))
    requires AlarmOwed(history, calls[..n], start) ==> store.alarm.Some?
    modifies store
    ensures (Tick(store.Tables(), calls[n].now), reply) == Step(old(store.Tables()), calls[n], store.parse)
    ensures store.Armed(calls[n].now)
    ensures AlarmOwed(history + [store.Tables()], calls[..n + 1], start) ==> store.alarm.Some?
    ensures old(store.alarm).Some? && !calls[n].op.Sweep? ==> store.alarm.Some?
  {
    assert LastTime(calls[..n], start) <= calls[n].now;
    reply := Perform(store, calls[n].op, calls[n].now);
    if AlarmOwed(history + [store.Tables()], calls[..n + 1], start) {
      OwedStep(history, store.Tables(), calls, n, start);
    }
  }

  /**
   * Any series of calls, with sweeps anywhere among them, gets from the object the replies of the plain store. What has
   * expired is not there; what has not expired has an alarm no later than its expiry; a row stored with its expiry ahead
   * keeps some alarm armed until it has gone, however late the sweep comes; and only a sweep ever disarms.
   */
  method PerformAll(store: ChatState, calls: seq<Call>, start: int) returns (replies: seq<Reply>, ghost history: seq<Store>)
    requires Chronological(calls, start) && store.Armed(start)
    modifies store
    ensures replies == Play(Tick(old(store.Tables()), start), calls, store.parse).1
    ensures Tick(store.Tables(), LastTime(calls, start)) == Play(Tick(old(store.Tables()), start), calls, store.parse).0
    ensures store.Armed(LastTime(calls, start))
    ensures HistoryOf(history, calls, store.parse) && history[0] == old(store.Tables()) && history[|calls|] == store.Tables()
    ensures AlarmOwed(history, calls, start) ==> store.alarm.Some?
    ensures old(store.alarm).Some? && (forall c | c in calls :: !c.op.Sweep?) ==> store.alarm.Some?
  {
    replies := [];
    ghost var plain := Tick(store.Tables(), start);
    history := [store.Tables()];
    OwedAtFirst(store.Tables(), calls, start);
    for n := 0 to |calls|
      invariant (Tick(store.Tables(), LastTime(calls[..n], start)), replies) == Play(plain, calls[..n], store.parse)
      invariant store.Armed(LastTime(calls[..n], start))
      invariant HistoryOf(history, calls[..n], store.parse) && history[0] == old(store.Tables()) && history[n] == store.Tables()
      invariant AlarmOwed(history, calls[..n], start) ==> store.alarm.Some?
      invariant old(store.alarm).Some? && (forall i | 0 <= i < n :: !calls[i].op.Sweep?) ==> store.alarm.Some?
    {
      ghost var before := store.Tables();
      var reply := PerformNext(store, calls, n, start, history);
      PlayNext(before, plain, calls, n, LastTime(calls[..n], start), replies, store.parse);
      HistoryGrows(history, store.Tables(), calls, n, store.parse);
      replies := replies + [reply];
      history := history + [store.Tables()];
      assert LastTime(calls[..n + 1], start) == calls[n].now;
    }
    assert calls[..|calls|] == calls;
  }

  lemma OwedAtFirst(s: Store, calls: seq<Call>, start: int)
    ensures AlarmOwed([s], calls[..0], start) ==> exists e :: Expires(s, e) && e > start
  {
  }

  // ------------------------------------------------------------------
  // Leases
  // ------------------------------------------------------------------

  function BeliefAfter(before: Option<int>, call: Call, reply: Reply, threadId: string, token: string): Option<int> {
    match call.op
    case AcquireLock(th, ttlMs, tok) =>
      if th == threadId && tok == token && reply.Granted? && reply.lease.Some? then Some(call.now + ttlMs) else before
    case ForceReleaseLock(th) => if th == threadId then None else before
    case ReleaseLock(th, tok) => if th == threadId && tok == token then None else before
    case ExtendLock(th, tok, ttlMs) =>
      if th == threadId && tok == token && reply == Flag(true) then Some(call.now + ttlMs) else before
    case _ => before
  }

  /**
   * Until when the holder of a token may believe that it holds the lease on a thread, from the calls and replies alone:
   * since its lease was granted or last extended, unless it was released since.
   */
  function Belief(calls: seq<Call>, replies: seq<Reply>, threadId: string, token: string): Option<int>
    requires |calls| == |replies|
  {
    if calls == [] then None
    else
      var n := |calls| - 1;
      BeliefAfter(Belief(calls[..n], replies[..n], threadId, token), calls[n], replies[n], threadId, token)
  }

  predicate Holds(calls: seq<Call>, replies: seq<Reply>, threadId: string, token: string, t: int)
    requires |calls| == |replies|
  {
    Belief(calls, replies, threadId, token).Some? && Belief(calls, replies, threadId, token).value > t
  }

  ghost predicate LeaseIs(locks: map<string, Lease>, threadId: string, token: string, e: int) {
    threadId in locks && locks[threadId] == Lease(token, e)
  }

  lemma PlayReplies(s: Store, calls: seq<Call>, parse: string -> seq<string>)
    ensures |Play(s, calls, parse).1| == |calls|
  {
  }

  lemma PlayStep(calls: seq<Call>, parse: string -> seq<string>)
    requires calls != []
    ensures var n := |calls| - 1;
            var (before, replies) := Play(EMPTY, calls[..n], parse);
            Play(EMPTY, calls, parse) == (Step(before, calls[n], parse).0, replies + [Step(before, calls[n], parse).1])
  {
  }

  /** Beliefs are right: a token is believed to hold a thread at `t` exactly when the store has that live lease. */
  lemma {:induction false} BeliefIsTruth(
      calls: seq<Call>, start: int, parse: string -> seq<string>, threadId: string, token: string, e: int, t: int)
    requires Chronological(calls, start) && LastTime(calls, start) <= t < e
    ensures |Play(EMPTY, calls, parse).1| == |calls|
    ensures Belief(calls, Play(EMPTY, calls, parse).1, threadId, token) == Some(e)
       <==> LeaseIs(Play(EMPTY, calls, parse).0.locks, threadId, token, e)
  {
    PlayReplies(EMPTY, calls, parse);
    if calls != [] {
      var n := |calls| - 1;
      var call, earlier := calls[n], calls[..n];
      assert LastTime(earlier, start) <= call.now;
      BeliefIsTruth(earlier, start, parse, threadId, token, e, call.now);
      PlayStep(calls, parse);
      var replies, replies0 := Play(EMPTY, calls, parse).1, Play(EMPTY, earlier, parse).1;
      assert replies[..n] == replies0;
      LeaseStep(Play(EMPTY, earlier, parse).0, call, parse, threadId, token, e, Belief(earlier, replies0, threadId, token));
    }
  }

  /** One call changes a belief as it changes the lease, while the lease would still be live. */
  lemma LeaseStep(s: Store, call: Call, parse: string -> seq<string>, threadId: string, token: string, e: int, before: Option<int>)
    requires e > call.now && (before == Some(e) <==> LeaseIs(s.locks, threadId, token, e))
    ensures BeliefAfter(before, call, Step(s, call, parse).1, threadId, token) == Some(e)
       <==> LeaseIs(Step(s, call, parse).0.locks, threadId, token, e)
  {
    var ticked := Tick(s, call.now);
    assert LeaseIs(ticked.locks, threadId, token, e) <==> LeaseIs(s.locks, threadId, token, e);
    var (s', reply) := Operate(ticked, call.op, call.now, parse);
    LeaseOperated(ticked, call, parse, threadId, token, e, before);
    assert LeaseIs(Tick(s', call.now).locks, threadId, token, e) <==> LeaseIs(s'.locks, threadId, token, e);
  }

  lemma LeaseOperated(s: Store, call: Call, parse: string -> seq<string>, threadId: string, token: string, e: int, before: Option<int>)
    requires before == Some(e) <==> LeaseIs(s.locks, threadId, token, e)
    requires forall t | t in s.locks :: s.locks[t].expiresAt > call.now
    requires e > call.now
    ensures var (s', reply) := Operate(s, call.op, call.now, parse);
            BeliefAfter(before, call, reply, threadId, token) == Some(e) <==> LeaseIs(s'.locks, threadId, token, e)
  {
    if !(call.op.AcquireLock? || call.op.ForceReleaseLock? || call.op.ReleaseLock? || call.op.ExtendLock?) {
      assert Operate(s, call.op, call.now, parse).0.locks == s.locks;
    }
  }

  /** Whoever believes at `t` that it holds the lease does hold it. */
  lemma HoldsIsTruth(
      calls: seq<Call>, start: int, parse: string -> seq<string>, threadId: string, token: string, t: int)
    requires Chronological(calls, start) && LastTime(calls, start) <= t
    ensures |Play(EMPTY, calls, parse).1| == |calls|
    ensures var (s, replies) := Play(EMPTY, calls, parse);
            var live := LiveLocks(s.locks, t);
            Holds(calls, replies, threadId, token, t) <==> threadId in live && live[threadId].token == token
  {
    PlayReplies(EMPTY, calls, parse);
    var (s, replies) := Play(EMPTY, calls, parse);
    if Holds(calls, replies, threadId, token, t) {
      BeliefIsTruth(calls, start, parse, threadId, token, Belief(calls, replies, threadId, token).value, t);
    }
    if threadId in s.locks && s.locks[threadId].token == token && s.locks[threadId].expiresAt > t {
      BeliefIsTruth(calls, start, parse, threadId, token, s.locks[threadId].expiresAt, t);
    }
  }

  /** The intervals in which different tokens hold one thread never overlap. */
  lemma LeasesExclude(
      calls: seq<Call>, start: int, parse: string -> seq<string>, threadId: string, a: string, b: string, t: int)
    requires Chronological(calls, start) && LastTime(calls, start) <= t
    requires |Play(EMPTY, calls, parse).1| == |calls|
    requires Holds(calls, Play(EMPTY, calls, parse).1, threadId, a, t) && Holds(calls, Play(EMPTY, calls, parse).1, threadId, b, t)
    ensures a == b
  {
    HoldsIsTruth(calls, start, parse, threadId, a, t);
    HoldsIsTruth(calls, start, parse, threadId, b, t);
  }

  ghost predicate HeldBySome(calls: seq<Call>, replies: seq<Reply>, threadId: string, t: int)
    requires |calls| == |replies|
  {
    exists token :: Holds(calls, replies, threadId, token, t)
  }

  /** A lease is granted exactly when nobody holds the thread, and extended exactly when the caller still does. */
  lemma GrantedIffFree(
      calls: seq<Call>, start: int, parse: string -> seq<string>, threadId: string, token: string, ttlMs: int, t: int)
    requires Chronological(calls, start) && LastTime(calls, start) <= t
    ensures |Play(EMPTY, calls, parse).1| == |calls|
    ensures var (s, replies) := Play(EMPTY, calls, parse);
            && (Step(s, Call(AcquireLock(threadId, ttlMs, token), t), parse).1.lease.Some? <==> !HeldBySome(calls, replies, threadId, t))
            && (Step(s, Call(ExtendLock(threadId, token, ttlMs), t), parse).1 == Flag(Holds(calls, replies, threadId, token, t)))
  {
    HoldsIsTruth(calls, start, parse, threadId, token, t);
    var (s, replies) := Play(EMPTY, calls, parse);
    var live := LiveLocks(s.locks, t);
    if threadId in live {
      HoldsIsTruth(calls, start, parse, threadId, live[threadId].token, t);
      assert Holds(calls, replies, threadId, live[threadId].token, t);
    }
    if HeldBySome(calls, replies, threadId, t) {
      var other :| Holds(calls, replies, threadId, other, t);
      HoldsIsTruth(calls, start, parse, threadId, other, t);
    }
  }

  /** Releasing or extending with a token that does not hold the thread changes nothing. */
  lemma StaleTokenHarmless(s: Store, threadId: string, token: string, ttlMs: int, now: int, parse: string -> seq<string>)
    requires !(threadId in LiveLocks(s.locks, now) && s.locks[threadId].token == token)
    ensures Step(s, Call(ReleaseLock(threadId, token), now), parse).0 == Tick(s, now)
    ensures Step(s, Call(ExtendLock(threadId, token, ttlMs), now), parse).0 == Tick(s, now)
  {
    TickTwice(s, now, now);
  }

  // ------------------------------------------------------------------
  // Cache and lists
  // ------------------------------------------------------------------

  /** The operation may change what is stored under the key. */
  predicate Touches(op: Op, key: string) {
    match op
    case CacheSet(k, _, _) => k == key
    case CacheSetIfNotExists(k, _, _) => k == key
    case CacheDelete(k) => k == key
    case ListAppend(k, _, _, _) => k == key
    case _ => false
  }

  /** What a get of the key would find at time `t`, if nothing happened until then. */
  function FoundAt(s: Store, key: string, t: int): Option<Cell> {
    if key in s.cache && CacheLive(s.cache[key], t) then Some(s.cache[key].value) else None
  }

  lemma GetFinds(s: Store, key: string, t: int, parse: string -> seq<string>)
    ensures Step(s, Call(CacheGet(key), t), parse).1 == Found(FoundAt(s, key, t))
  {
  }

  lemma StepLeaves(s: Store, call: Call, key: string, t: int, parse: string -> seq<string>)
    requires !Touches(call.op, key) && call.now <= t
    ensures FoundAt(Step(s, call, parse).0, key, t) == FoundAt(s, key, t)
  {
    var s' := Operate(Tick(s, call.now), call.op, call.now, parse).0;
    assert FoundAt(Tick(s, call.now), key, t) == FoundAt(s, key, t);
    assert FoundAt(s', key, t) == FoundAt(Tick(s, call.now), key, t);
  }

  lemma {:induction false} CallsLeave(s: Store, calls: seq<Call>, key: string, t: int, parse: string -> seq<string>)
    requires forall c | c in calls :: !Touches(c.op, key) && c.now <= t
    ensures FoundAt(Play(s, calls, parse).0, key, t) == FoundAt(s, key, t)
  {
    if calls != [] {
      var n := |calls| - 1;
      CallsLeave(s, calls[..n], key, t, parse);
      StepLeaves(Play(s, calls[..n], parse).0, calls[n], key, t, parse);
    }
  }

  /**
   * What was stored is found until its time to live has passed, and forever if it was given none or zero, whatever other
   * keys, lists, queues and leases are used in between and whenever sweeps come.
   */
  lemma CachedUntilExpiry(
      s: Store, key: string, value: string, ttl: Option<int>, now: int, calls: seq<Call>, later: int, parse: string -> seq<string>)
    requires now <= later && forall c | c in calls :: !Touches(c.op, key) && c.now <= later
    ensures var s' := Play(Step(s, Call(CacheSet(key, value, ttl), now), parse).0, calls, parse).0;
              Step(s', Call(CacheGet(key), later), parse).1
              == Found(if ttl.GetOr(0) == 0 || later < now + ttl.value then Some(Text(value)) else None)
  {
    var stored := Step(s, Call(CacheSet(key, value, ttl), now), parse).0;
    CallsLeave(stored, calls, key, later, parse);
    GetFinds(Play(stored, calls, parse).0, key, later, parse);
  }

  /** What `cacheSetIfNotExists` has stored lives as long as what `cacheSet` stores. */
  lemma StoredUntilExpiry(
      s: Store, key: string, value: string, ttl: Option<int>, now: int, calls: seq<Call>, later: int, parse: string -> seq<string>)
    requires now <= later && forall c | c in calls :: !Touches(c.op, key) && c.now <= later
    requires Step(s, Call(CacheSetIfNotExists(key, value, ttl), now), parse).1 == Flag(true)
    ensures var s' := Play(Step(s, Call(CacheSetIfNotExists(key, value, ttl), now), parse).0, calls, parse).0;
              Step(s', Call(CacheGet(key), later), parse).1
              == Found(if ttl.GetOr(0) == 0 || later < now + ttl.value then Some(Text(value)) else None)
  {
    var stored := Step(s, Call(CacheSetIfNotExists(key, value, ttl), now), parse).0;
    CallsLeave(stored, calls, key, later, parse);
    GetFinds(Play(stored, calls, parse).0, key, later, parse);
  }

  /** What was deleted is not found again until something is stored under the key. */
  lemma DeletedIsGone(s: Store, key: string, now: int, calls: seq<Call>, later: int, parse: string -> seq<string>)
    requires now <= later && forall c | c in calls :: !Touches(c.op, key) && c.now <= later
    ensures var s' := Play(Step(s, Call(CacheDelete(key), now), parse).0, calls, parse).0;
              Step(s', Call(CacheGet(key), later), parse).1 == Found(None)
  {
    var deleted := Step(s, Call(CacheDelete(key), now), parse).0;
    CallsLeave(deleted, calls, key, later, parse);
    GetFinds(Play(deleted, calls, parse).0, key, later, parse);
  }

  /** A list lives as long as its last append says, and then is empty; `listGet` replies its elements until then. */
  lemma ListUntilExpiry(
      s: Store, key: string, value: string, maxLength: Option<int>, ttl: Option<int>, now: int, calls: seq<Call>, later: int,
      parse: string -> seq<string>)
    requires now <= later && forall c | c in calls :: !Touches(c.op, key) && c.now <= later
    ensures var before := Step(s, Call(ListGet(key), now), parse).1;
            var s' := Play(Step(s, Call(ListAppend(key, value, maxLength, ttl), now), parse).0, calls, parse).0;
              before.Items?
              && Step(s', Call(ListGet(key), later), parse).1
                 == Items(if ttl.GetOr(0) == 0 || later < now + ttl.value then Newest(before.items + [value], maxLength) else [])
  {
    var appended := Step(s, Call(ListAppend(key, value, maxLength, ttl), now), parse).0;
    ListFinds(s, key, now, parse);
    AppendFound(s, key, value, maxLength, ttl, now, later, parse);
    CallsLeave(appended, calls, key, later, parse);
    ListFinds(Play(appended, calls, parse).0, key, later, parse);
  }

  /** The elements of what was found, if it is a list or reads as one. */
  function ElementsOf(found: Option<Cell>, parse: string -> seq<string>): seq<string> {
    if found.Some? then ItemsOf(found.value, parse) else []
  }

  lemma AppendFound(
      s: Store, key: string, value: string, maxLength: Option<int>, ttl: Option<int>, now: int, later: int, parse: string -> seq<string>)
    requires now <= later
    ensures FoundAt(Step(s, Call(ListAppend(key, value, maxLength, ttl), now), parse).0, key, later)
         == if ttl.GetOr(0) == 0 || later < now + ttl.value
            then Some(ListOf(Newest(ElementsOf(FoundAt(s, key, now), parse) + [value], maxLength))) else None
  {
    var list := ElementsOf(FoundAt(s, key, now), parse) + [value];
    CappedNewest(list, maxLength);
    var stored := Operate(Tick(s, now), ListAppend(key, value, maxLength, ttl), now, parse).0;
    assert stored.cache[key] == CacheRow(ListOf(Capped(list, maxLength)), ExpiryOf(now, ttl));
  }

  lemma ListFinds(s: Store, key: string, t: int, parse: string -> seq<string>)
    ensures Step(s, Call(ListGet(key), t), parse).1
         == Items(ElementsOf(FoundAt(s, key, t), parse))
  {
  }

  lemma CappedNewest(values: seq<string>, maxLength: Option<int>)
    ensures Capped(values, maxLength) == Newest(values, maxLength)
  {
  }

  /** `cacheSetIfNotExists` stores exactly when `cacheGet` finds nothing, and otherwise leaves what it found. */
  lemma SetOnlyIfAbsent(s: Store, key: string, value: string, ttl: Option<int>, now: int, parse: string -> seq<string>)
    ensures var before := Step(s, Call(CacheGet(key), now), parse).1;
            var (s', reply) := Step(s, Call(CacheSetIfNotExists(key, value, ttl), now), parse);
            && reply == Flag(before == Found(None))
            && (ttl.GetOr(1) >= 0 ==>
                  Step(s', Call(CacheGet(key), now), parse).1 == if before == Found(None) then Found(Some(Text(value))) else before)
  {
    TickTwice(Operate(Tick(s, now), CacheSetIfNotExists(key, value, ttl), now, parse).0, now, now);
  }

  /** Each call appends to the key's list under one bound and without a time to live, or leaves the key alone. */
  predicate OnlyAppends(calls: seq<Call>, key: string, maxLength: Option<int>) {
    forall c | c in calls ::
      !Touches(c.op, key) || (c.op.ListAppend? && c.op.maxLength == maxLength && c.op.ttl.GetOr(0) == 0)
  }

  function AppendedTo(calls: seq<Call>, key: string): seq<string> {
    if calls == [] then []
    else
      var last := calls[|calls| - 1].op;
      AppendedTo(calls[..|calls| - 1], key) + if Touches(last, key) && last.ListAppend? then [last.value] else []
  }

  /** The last elements of a series, as many as a bound allows. */
  function Newest(values: seq<string>, maxLength: Option<int>): seq<string> {
    var n := if maxLength.None? || maxLength.value > |values| then |values| else if maxLength.value < 0 then 0 else maxLength.value;
    values[|values| - n..]
  }

  /** The list under the key is `items`, where the empty list may also be missing. */
  predicate ListIs(s: Store, key: string, items: seq<string>, missing: bool) {
    if missing then key !in s.cache else key in s.cache && s.cache[key] == CacheRow(ListOf(items), None)
  }

  lemma AppendStep(s: Store, call: Call, parse: string -> seq<string>, list: seq<string>, missing: bool)
    requires call.op.ListAppend? && call.op.ttl.GetOr(0) == 0
    requires ListIs(s, call.op.key, list, missing) && (missing ==> list == [])
    ensures ListIs(Step(s, call, parse).0, call.op.key, Capped(list + [call.op.value], call.op.maxLength), false)
  {
    assert call.op.key in Tick(s, call.now).cache <==> call.op.key in s.cache;
  }

  lemma OtherStep(s: Store, call: Call, key: string, parse: string -> seq<string>, list: seq<string>, missing: bool)
    requires !Touches(call.op, key) && ListIs(s, key, list, missing)
    ensures ListIs(Step(s, call, parse).0, key, list, missing)
  {
    var s' := Operate(Tick(s, call.now), call.op, call.now, parse).0;
    assert ListIs(Tick(s, call.now), key, list, missing);
    assert ListIs(s', key, list, missing);
  }

  lemma CappedIsNewest(values: seq<string>, value: string, maxLength: Option<int>)
    ensures Capped(Newest(values, maxLength) + [value], maxLength) == Newest(values + [value], maxLength)
  {
  }

  /**
   * A list to which values were appended under one bound holds the last of them that the bound allows, in order, whatever
   * else is called in between.
   */
  lemma {:induction false} ListKeepsNewest(
      s: Store, calls: seq<Call>, key: string, maxLength: Option<int>, parse: string -> seq<string>)
    requires key !in s.cache && OnlyAppends(calls, key, maxLength)
    ensures var values := AppendedTo(calls, key);
            ListIs(Play(s, calls, parse).0, key, Newest(values, maxLength), values == [])
  {
    if calls != [] {
      var n := |calls| - 1;
      var before, values := Play(s, calls[..n], parse).0, AppendedTo(calls[..n], key);
      ListKeepsNewest(s, calls[..n], key, maxLength, parse);
      assert calls[n] in calls;
      if Touches(calls[n].op, key) {
        AppendStep(before, calls[n], parse, Newest(values, maxLength), values == []);
        CappedIsNewest(values, calls[n].op.value, maxLength);
      } else {
        OtherStep(before, calls[n], key, parse, Newest(values, maxLength), values == []);
        assert AppendedTo(calls, key) == values;
      }
    }
  }

  /** `listGet` replies exactly these elements, at any time. */
  lemma ListRepliesNewest(
      s: Store, calls: seq<Call>, key: string, maxLength: Option<int>, t: int, parse: string -> seq<string>)
    requires key !in s.cache && OnlyAppends(calls, key, maxLength)
    ensures Step(Play(s, calls, parse).0, Call(ListGet(key), t), parse).1 == Items(Newest(AppendedTo(calls, key), maxLength))
  {
    ListKeepsNewest(s, calls, key, maxLength, parse);
    ListShown(Play(s, calls, parse).0, key, Newest(AppendedTo(calls, key), maxLength), AppendedTo(calls, key) == [], t, parse);
  }

  lemma ListShown(s: Store, key: string, items: seq<string>, missing: bool, t: int, parse: string -> seq<string>)
    requires ListIs(s, key, items, missing) && (missing ==> items == [])
    ensures Step(s, Call(ListGet(key), t), parse).1 == Items(items)
  {
    ListFinds(s, key, t, parse);
  }
}
