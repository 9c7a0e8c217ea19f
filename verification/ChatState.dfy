/** The durable chat-state object: tables with lazy expiry and a sweep alarm (apps/api/src/durable-objects/chat-state.ts). */
module ChatState {
  import opened Wrappers
  import opened ChatStore

  // ------------------------------------------------------------------
  // Rows by expiry
  // ------------------------------------------------------------------

  /** Some row of the three tables expires at `e`. */
  ghost predicate Expires(s: Store, e: int) {
    || (exists t | t in s.locks :: s.locks[t].expiresAt == e)
    || (exists k | k in s.cache :: s.cache[k].expiresAt == Some(e))
    || (exists r | r in s.queue :: r.expiresAt == e)
  }

  ghost predicate NothingExpires(s: Store) {
    forall e | Expires(s, e) :: false
  }

  /** The least expiry after `now`, if there is one. */
  ghost predicate IsNextExpiry(s: Store, now: int, next: Option<int>) {
    && (forall e | Expires(s, e) && e > now :: next.Some? && next.value <= e)
    && (next.Some? ==> next.value > now && Expires(s, next.value))
  }

  /** Every row of `a` is a row of `b`. */
  ghost predicate Within(a: Store, b: Store) {
    && (forall t | t in a.locks :: t in b.locks && b.locks[t] == a.locks[t])
    && (forall k | k in a.cache :: k in b.cache && b.cache[k] == a.cache[k])
    && (forall r | r in a.queue :: r in b.queue)
  }

  lemma FewerExpiries(a: Store, b: Store)
    requires Within(a, b)
    ensures forall e | Expires(a, e) :: Expires(b, e)
  {
  }

  function LeastOf(a: Option<int>, e: int, now: int): Option<int> {
    if e > now && (a.None? || e < a.value) then Some(e) else a
  }

  /** DELETE FROM queue_entries WHERE thread_id = threadId AND expires_at <= now. */
  function ExpireThread(q: seq<QueueRow>, threadId: string, now: int): seq<QueueRow> {
    if q == [] then []
    else if q[0].threadId == threadId && q[0].expiresAt <= now then ExpireThread(q[1..], threadId, now)
    else [q[0]] + ExpireThread(q[1..], threadId, now)
  }

  lemma {:induction false} ExpireThreadShows(q: seq<QueueRow>, threadId: string, now: int)
    ensures LiveRows(ExpireThread(q, threadId, now), now) == LiveRows(q, now)
    ensures Rows(ExpireThread(q, threadId, now), threadId) == Rows(LiveRows(q, now), threadId)
  {
    if q != [] {
      ExpireThreadShows(q[1..], threadId, now);
    }
  }

  lemma {:induction false} ExpireThreadMembers(q: seq<QueueRow>, threadId: string, now: int)
    ensures forall r | r in ExpireThread(q, threadId, now) :: r in q
    ensures forall r | r in Rows(ExpireThread(q, threadId, now), threadId) :: r.expiresAt > now
  {
    if q != [] {
      ExpireThreadMembers(q[1..], threadId, now);
    }
  }

  /** Dropping rows that are all unexpired commutes with expiry. */
  lemma {:induction false} LiveDropOldest(q: seq<QueueRow>, threadId: string, n: nat, now: int)
    requires forall r | r in Rows(q, threadId) :: r.expiresAt > now
    ensures LiveRows(DropOldest(q, threadId, n), now) == DropOldest(LiveRows(q, now), threadId, n)
  {
    if q != [] && n != 0 {
      if q[0].threadId == threadId {
        assert q[0] in Rows(q, threadId) && Rows(q, threadId)[1..] == Rows(q[1..], threadId);
        LiveDropOldest(q[1..], threadId, n - 1, now);
        assert LiveRows(q, now)[1..] == LiveRows(q[1..], now);
      } else {
        LiveDropOldest(q[1..], threadId, n, now);
        assert DropOldest(q, threadId, n)[1..] == DropOldest(q[1..], threadId, n);
        if q[0].expiresAt > now {
          assert LiveRows(q, now)[1..] == LiveRows(q[1..], now);
        }
      }
    }
  }

  lemma {:induction false} DropOldestAppend(q: seq<QueueRow>, row: QueueRow, threadId: string, n: nat)
    requires n <= |Rows(q, threadId)|
    ensures DropOldest(q + [row], threadId, n) == DropOldest(q, threadId, n) + [row]
  {
    if q == [] || n == 0 {
    } else {
      assert (q + [row])[1..] == q[1..] + [row];
      DropOldestAppend(q[1..], row, threadId, if q[0].threadId == threadId then n - 1 else n);
    }
  }

  function Excess(count: nat, bound: nat): nat {
    if count > bound then count - bound else 0
  }

  lemma AppendBoundedDrops(q: seq<QueueRow>, row: QueueRow, bound: nat)
    ensures var count := |Rows(q, row.threadId)| + 1;
            AppendBounded(q, row, bound)
              == (DropOldest(q + [row], row.threadId, Excess(count, bound)), count - Excess(count, bound))
  {
    RowsAppend(q, row, row.threadId);
    assert DropOldest(q + [row], row.threadId, 0) == q + [row];
  }

  /** Expiring one thread's rows first, then enqueueing, shows what the plain store shows. */
  lemma EnqueueRefines(q: seq<QueueRow>, row: QueueRow, bound: nat, now: int)
    requires bound >= 1
    ensures AppendBounded(ExpireThread(q, row.threadId, now), row, bound).1 == AppendBounded(LiveRows(q, now), row, bound).1
    ensures LiveRows(AppendBounded(ExpireThread(q, row.threadId, now), row, bound).0, now)
         == LiveRows(AppendBounded(LiveRows(q, now), row, bound).0, now)
  {
    ExpireThreadShows(q, row.threadId, now);
    AppendBoundedDrops(ExpireThread(q, row.threadId, now), row, bound);
    AppendBoundedDrops(LiveRows(q, now), row, bound);
    DropRefines(q, row, Excess(|Rows(LiveRows(q, now), row.threadId)| + 1, bound), now);
  }

  lemma DropRefines(q: seq<QueueRow>, row: QueueRow, n: nat, now: int)
    requires n <= |Rows(LiveRows(q, now), row.threadId)|
    ensures LiveRows(DropOldest(ExpireThread(q, row.threadId, now) + [row], row.threadId, n), now)
         == LiveRows(DropOldest(LiveRows(q, now) + [row], row.threadId, n), now)
  {
    var base, live := ExpireThread(q, row.threadId, now), LiveRows(q, now);
    ExpireThreadShows(q, row.threadId, now);
    ExpireThreadMembers(q, row.threadId, now);
    DropOldestAppend(base, row, row.threadId, n);
    DropOldestAppend(live, row, row.threadId, n);
    LiveDropOldest(base, row.threadId, n, now);
    LiveAppend(DropOldest(base, row.threadId, n), row, now);
    LiveAppend(DropOldest(live, row.threadId, n), row, now);
    LiveShorter(q, now);
    LiveStays(live, row.threadId, n, now);
  }

  lemma {:induction false} LiveStays(q: seq<QueueRow>, threadId: string, n: nat, now: int)
    requires LiveRows(q, now) == q
    ensures LiveRows(DropOldest(q, threadId, n), now) == DropOldest(q, threadId, n)
  {
    if q != [] && n != 0 {
      LiveShorter(q[1..], now);
      assert q[0].expiresAt > now;
      assert LiveRows(q, now)[1..] == LiveRows(q[1..], now) == q[1..];
      LiveStays(q[1..], threadId, if q[0].threadId == threadId then n - 1 else n, now);
    }
  }

  lemma {:induction false} LiveShorter(q: seq<QueueRow>, now: int)
    ensures |LiveRows(q, now)| <= |q|
    ensures LiveRows(LiveRows(q, now), now) == LiveRows(q, now)
  {
    if q != [] {
      LiveShorter(q[1..], now);
      if q[0].expiresAt > now {
        assert LiveRows(q, now)[1..] == LiveRows(q[1..], now);
      }
    }
  }

  lemma DequeueRefines(q: seq<QueueRow>, threadId: string, now: int)
    ensures LiveRows(DropOldest(ExpireThread(q, threadId, now), threadId, 1), now)
         == LiveRows(DropOldest(LiveRows(q, now), threadId, 1), now)
  {
    ExpireThreadShows(q, threadId, now);
    ExpireThreadMembers(q, threadId, now);
    LiveDropOldest(ExpireThread(q, threadId, now), threadId, 1, now);
    LiveShorter(q, now);
    LiveStays(LiveRows(q, now), threadId, 1, now);
  }

  lemma {:induction false} DropMembers(q: seq<QueueRow>, threadId: string, n: nat)
    ensures forall r | r in DropOldest(q, threadId, n) :: r in q
  {
    if q != [] && n != 0 {
      DropMembers(q[1..], threadId, if q[0].threadId == threadId then n - 1 else n);
    }
  }

  lemma {:induction false} DropNothing(q: seq<QueueRow>, threadId: string)
    ensures Rows(q, threadId) == [] ==> DropOldest(q, threadId, 1) == q
  {
    if q != [] {
      DropNothing(q[1..], threadId);
    }
  }

  lemma {:induction false} LiveRowsLive(q: seq<QueueRow>, now: int)
    ensures forall r | r in LiveRows(q, now) :: r.expiresAt > now
  {
    if q != [] {
      LiveRowsLive(q[1..], now);
    }
  }

  /** Storing a cell that never expires adds no expiry. */
  lemma NoNewExpiry(s: Store, key: string, value: Cell)
    ensures forall e | Expires(s.(cache := s.cache[key := CacheRow(value, None)]), e) :: Expires(s, e)
  {
  }

  // ------------------------------------------------------------------
  // The object
  // ------------------------------------------------------------------

  /** Deleting one thread's expired lease, and inserting a new one where none is left, shows what the plain store shows. */
  lemma ExpireLockShows(before: map<string, Lease>, after: map<string, Lease>, threadId: string, lease: Lease, now: int)
    requires after == map t | t in before && !(t == threadId && before[t].expiresAt <= now) :: before[t]
    ensures LiveLocks(after, now) == LiveLocks(before, now) == LiveLocks(LiveLocks(before, now), now)
    ensures threadId in after <==> threadId in LiveLocks(before, now)
    ensures LiveLocks(after[threadId := lease], now) == LiveLocks(LiveLocks(before, now)[threadId := lease], now)
  {
  }

  /**
   * Each method takes the time of its call; a call does not outlast one reading of the clock. Its contract is in terms of
   * the plain store: what the object shows at that time is what the operation makes of what it showed before.
   */
  class ChatState {
    var locks: map<string, Lease>
    var cache: map<string, CacheRow>
    var queue: seq<QueueRow>
    var nextId: nat
    /** The object's one alarm; setting it replaces it, and it is gone once it fires. */
    var alarm: Option<int>
    /** Reads a list of strings out of text that a caller stored. */
    const parse: string -> seq<string>

    ghost function Tables(): Store
      reads this
    {
      Store(locks, cache, queue, nextId)
    }

    /** Every row that expires after `now` has an alarm armed no later than its expiry. */
    ghost predicate Armed(now: int)
      reads this
    {
      forall e | Expires(Tables(), e) && e > now :: alarm.Some? && alarm.value <= e
    }

    /** The contract that all operations share: reply and visible state are those of the plain store. */
    twostate predicate Refines(op: Op, now: int, reply: Reply)
      reads this
    {
      var (plain, plainReply) := Operate(Tick(old(Tables()), now), op, now, parse);
      reply == plainReply && Tick(Tables(), now) == Tick(plain, now)
    }

    /** Alarms are kept up, and once one is armed only its firing disarms. */
    twostate predicate KeepsAlarm(now: int)
      reads this
    {
      (old(Armed(now)) ==> Armed(now)) && (old(alarm).Some? ==> alarm.Some?)
    }

    constructor (parse: string -> seq<string>)
      ensures Tables() == EMPTY && alarm.None? && this.parse == parse
    {
      locks, cache, queue, nextId, alarm := map[], map[], [], 1, None;
      this.parse := parse;
    }

    method NextExpiry(now: int) returns (next: Option<int>)
      ensures IsNextExpiry(Tables(), now, next)
    {
      next := None;
      var threads := locks.Keys;
      while threads != {}
        invariant threads <= locks.Keys
        invariant forall t | t in locks.Keys - threads && locks[t].expiresAt > now :: next.Some? && next.value <= locks[t].expiresAt
        invariant next.Some? ==> next.value > now && exists t | t in locks :: locks[t].expiresAt == next.value
      {
        var t :| t in threads;
        next := LeastOf(next, locks[t].expiresAt, now);
        threads := threads - {t};
      }
      next := LeastCached(next, now);
      next := LeastQueued(next, now);
    }

    method LeastCached(least: Option<int>, now: int) returns (next: Option<int>)
      ensures least.Some? ==> next.Some? && next.value <= least.value
      ensures forall k | k in cache && cache[k].expiresAt.Some? && cache[k].expiresAt.value > now ::
                next.Some? && next.value <= cache[k].expiresAt.value
      ensures next != least ==> next.Some? && next.value > now && exists k | k in cache :: cache[k].expiresAt == next
    {
      next := least;
      var keys := cache.Keys;
      while keys != {}
        invariant keys <= cache.Keys
        invariant least.Some? ==> next.Some? && next.value <= least.value
        invariant forall k | k in cache.Keys - keys && cache[k].expiresAt.Some? && cache[k].expiresAt.value > now ::
                    next.Some? && next.value <= cache[k].expiresAt.value
        invariant next != least ==> next.Some? && next.value > now && exists k | k in cache :: cache[k].expiresAt == next
      {
        var k :| k in keys;
        if cache[k].expiresAt.Some? {
          next := LeastOf(next, cache[k].expiresAt.value, now);
        }
        keys := keys - {k};
      }
    }

    method LeastQueued(least: Option<int>, now: int) returns (next: Option<int>)
      ensures least.Some? ==> next.Some? && next.value <= least.value
      ensures forall r | r in queue && r.expiresAt > now :: next.Some? && next.value <= r.expiresAt
      ensures next != least ==> next.Some? && next.value > now && exists r | r in queue :: r.expiresAt == next.value
    {
      next := least;
      for i := 0 to |queue|
        invariant least.Some? ==> next.Some? && next.value <= least.value
        invariant forall r | r in queue[..i] && r.expiresAt > now :: next.Some? && next.value <= r.expiresAt
        invariant next != least ==> next.Some? && next.value > now && exists r | r in queue :: r.expiresAt == next.value
      {
        assert queue[..i + 1] == queue[..i] + [queue[i]] && queue[i] in queue;
        next := LeastOf(next, queue[i].expiresAt, now);
      }
      assert queue[..|queue|] == queue;
    }

    method ScheduleCleanupIfNeeded(now: int)
      modifies this`alarm
      ensures Armed(now) && (old(alarm).Some? ==> alarm.Some?)
    {
      var next := NextExpiry(now);
      if next.Some? {
        alarm := next;
      }
    }

    method AcquireLock(threadId: string, ttlMs: int, token: string, now: int) returns (lease: Option<Lease>)
      modifies this`locks, this`alarm
      ensures Refines(Op.AcquireLock(threadId, ttlMs, token), now, Granted(lease)) && KeepsAlarm(now)
    {
      TickTwice(Tables(), now, now);
      locks := map t | t in locks && !(t == threadId && locks[t].expiresAt <= now) :: locks[t];
      ExpireLockShows(old(locks), locks, threadId, Lease(token, now + ttlMs), now);
      if threadId in locks {
        FewerExpiries(Tables(), old(Tables()));
        return None;
      }
      lease := Some(Lease(token, now + ttlMs));
      locks := locks[threadId := lease.value];
      ScheduleCleanupIfNeeded(now);
    }

    method ForceReleaseLock(threadId: string, now: int)
      modifies this`locks
      ensures Refines(Op.ForceReleaseLock(threadId), now, Done) && KeepsAlarm(now)
    {
      TickTwice(Tables(), now, now);
      ghost var plain := Operate(Tick(Tables(), now), Op.ForceReleaseLock(threadId), now, parse).0;
      locks := map t | t in locks && t != threadId :: locks[t];
      assert LiveLocks(locks, now) == LiveLocks(plain.locks, now);
      FewerExpiries(Tables(), old(Tables()));
    }

    method ReleaseLock(threadId: string, token: string, now: int)
      modifies this`locks
      ensures Refines(Op.ReleaseLock(threadId, token), now, Done) && KeepsAlarm(now)
    {
      TickTwice(Tables(), now, now);
      ghost var plain := Operate(Tick(Tables(), now), Op.ReleaseLock(threadId, token), now, parse).0;
      locks := map t | t in locks && !(t == threadId && locks[t].token == token) :: locks[t];
      assert LiveLocks(locks, now) == LiveLocks(plain.locks, now);
      FewerExpiries(Tables(), old(Tables()));
    }

    method ExtendLock(threadId: string, token: string, ttlMs: int, now: int) returns (extended: bool)
      modifies this`locks, this`alarm
      ensures Refines(Op.ExtendLock(threadId, token, ttlMs), now, Flag(extended)) && KeepsAlarm(now)
    {
      TickTwice(Tables(), now, now);
      ghost var plain := Operate(Tick(Tables(), now), Op.ExtendLock(threadId, token, ttlMs), now, parse).0;
      extended := threadId in locks && locks[threadId].token == token && locks[threadId].expiresAt > now;
      if extended {
        locks := locks[threadId := Lease(token, now + ttlMs)];
        assert LiveLocks(locks, now) == LiveLocks(plain.locks, now);
        ScheduleCleanupIfNeeded(now);
      }
    }

    method CacheGet(key: string, now: int) returns (cell: Option<Cell>)
      modifies this`cache
      ensures Refines(Op.CacheGet(key), now, Found(cell)) && KeepsAlarm(now)
    {
      TickTwice(Tables(), now, now);
      if key !in cache {
        return None;
      }
      if !CacheLive(cache[key], now) {
        cache := map k | k in cache && k != key :: cache[k];
        assert LiveCache(cache, now) == LiveCache(old(cache), now);
        FewerExpiries(Tables(), old(Tables()));
        return None;
      }
      return Some(cache[key].value);
    }

    method CacheSet(key: string, value: string, ttl: Option<int>, now: int)
      modifies this`cache, this`alarm
      ensures Refines(Op.CacheSet(key, value, ttl), now, Done) && KeepsAlarm(now)
    {
      TickTwice(Tables(), now, now);
      StoreCell(key, Text(value), ExpiryOf(now, ttl), now);
    }

    /** INSERT OR REPLACE INTO cache, and the alarm for it if it expires. */
    method StoreCell(key: string, value: Cell, expiresAt: Option<int>, now: int)
      modifies this`cache, this`alarm
      ensures cache == old(cache)[key := CacheRow(value, expiresAt)]
      ensures LiveCache(cache, now) == LiveCache(LiveCache(old(cache), now)[key := CacheRow(value, expiresAt)], now)
      ensures KeepsAlarm(now)
    {
      cache := cache[key := CacheRow(value, expiresAt)];
      if expiresAt.Some? {
        ScheduleCleanupIfNeeded(now);
      } else {
        NoNewExpiry(old(Tables()), key, value);
        assert Tables() == old(Tables()).(cache := old(cache)[key := CacheRow(value, None)]);
        assert forall e | Expires(Tables(), e) :: Expires(old(Tables()), e);
      }
    }

    method CacheSetIfNotExists(key: string, value: string, ttl: Option<int>, now: int) returns (stored: bool)
      modifies this`cache, this`alarm
      ensures Refines(Op.CacheSetIfNotExists(key, value, ttl), now, Flag(stored)) && KeepsAlarm(now)
    {
      TickTwice(Tables(), now, now);
      if key in cache && CacheLive(cache[key], now) {
        return false;
      }
      StoreCell(key, Text(value), ExpiryOf(now, ttl), now);
      stored := true;
    }

    method CacheDelete(key: string, now: int)
      modifies this`cache
      ensures Refines(Op.CacheDelete(key), now, Done) && KeepsAlarm(now)
    {
      TickTwice(Tables(), now, now);
      ghost var plain := Operate(Tick(Tables(), now), Op.CacheDelete(key), now, parse).0;
      cache := map k | k in cache && k != key :: cache[k];
      assert LiveCache(cache, now) == LiveCache(plain.cache, now);
      FewerExpiries(Tables(), old(Tables()));
    }

    method ListAppend(key: string, value: string, maxLength: Option<int>, ttl: Option<int>, now: int)
      modifies this`cache, this`alarm
      ensures Refines(Op.ListAppend(key, value, maxLength, ttl), now, Done) && KeepsAlarm(now)
    {
      TickTwice(Tables(), now, now);
      var list := if key in cache && CacheLive(cache[key], now) then ItemsOf(cache[key].value, parse) else [];
      list := list + [value];
      if maxLength.Some? && |list| > maxLength.value {
        list := if maxLength.value <= 0 then [] else list[|list| - maxLength.value..];
      }
      StoreCell(key, ListOf(list), ExpiryOf(now, ttl), now);
    }

    method ListGet(key: string, now: int) returns (items: seq<string>)
      modifies this`cache
      ensures Refines(Op.ListGet(key), now, Items(items)) && KeepsAlarm(now)
    {
      var raw := CacheGet(key, now);
      return if raw.None? then [] else ItemsOf(raw.value, parse);
    }

    method Enqueue(threadId: string, item: Item, maxSize: int, now: int) returns (depth: nat)
      modifies this`queue, this`nextId, this`alarm
      ensures Refines(Op.Enqueue(threadId, item, maxSize), now, Count(depth)) && KeepsAlarm(now)
    {
      TickTwice(Tables(), now, now);
      var row := QueueRow(nextId, threadId, item, item.expiresAt.GetOr(now + DEFAULT_QUEUE_TTL_MS));
      EnqueueRefines(queue, row, Bound(maxSize), now);
      queue := ExpireThread(queue, threadId, now);
      queue, nextId := queue + [row], nextId + 1;
      depth := |Rows(queue, threadId)|;
      if depth > Bound(maxSize) {
        queue := DropOldest(queue, threadId, depth - Bound(maxSize));
        depth := Bound(maxSize);
      }
      ScheduleCleanupIfNeeded(now);
    }

    method Dequeue(threadId: string, now: int) returns (item: Option<Item>)
      modifies this`queue
      ensures Refines(Op.Dequeue(threadId), now, Taken(item)) && KeepsAlarm(now)
    {
      TickTwice(Tables(), now, now);
      ExpireThreadShows(queue, threadId, now);
      ExpireThreadMembers(queue, threadId, now);
      DequeueRefines(queue, threadId, now);
      DropMembers(ExpireThread(queue, threadId, now), threadId, 1);
      queue := ExpireThread(queue, threadId, now);
      var rows := Rows(queue, threadId);
      if rows == [] {
        DropNothing(LiveRows(old(queue), now), threadId);
        FewerExpiries(Tables(), old(Tables()));
        return None;
      }
      queue := DropOldest(queue, threadId, 1);
      FewerExpiries(Tables(), old(Tables()));
      return Some(rows[0].item);
    }

    method QueueDepth(threadId: string, now: int) returns (depth: nat)
      modifies this`queue
      ensures Refines(Op.QueueDepth(threadId), now, Count(depth)) && KeepsAlarm(now)
    {
      TickTwice(Tables(), now, now);
      ExpireThreadShows(queue, threadId, now);
      ExpireThreadMembers(queue, threadId, now);
      queue := ExpireThread(queue, threadId, now);
      FewerExpiries(Tables(), old(Tables()));
      depth := |Rows(queue, threadId)|;
    }

    /** `alarm`: the sweep leaves no row expired at `now` and arms the next alarm for the earliest row that is left. */
    method Sweep(now: int)
      modifies this
      ensures Refines(Op.Sweep, now, Done)
      ensures Tables() == Tick(old(Tables()), now) && IsNextExpiry(Tables(), now, alarm)
      ensures forall e | Expires(Tables(), e) :: e > now
    {
      TickTwice(Tables(), now, now);
      alarm := None;
      locks := LiveLocks(locks, now);
      cache := LiveCache(cache, now);
      queue := LiveRows(queue, now);
      LiveRowsLive(old(queue), now);
      alarm := NextExpiry(now);
    }
  }
}
