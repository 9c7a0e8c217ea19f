/**
 * The plain store that the chat-state object stands for: leases, cache cells, lists and queues in which an entry whose
 * expiry has come does not exist (apps/api/src/durable-objects/chat-state.ts:152-392).
 */
module ChatStore {
  import opened Wrappers

  datatype Lease = Lease(token: string, expiresAt: int)

  /** A cache value: text that a caller stored, or a list that `listAppend` stored, kept here as its elements. */
  datatype Cell = Text(text: string) | ListOf(items: seq<string>)

  datatype CacheRow = CacheRow(value: Cell, expiresAt: Option<int>)

  /** A queued value, with the expiry that it carries in its JSON, if any. */
  datatype Item = Item(json: string, expiresAt: Option<int>)

  datatype QueueRow = QueueRow(id: nat, threadId: string, item: Item, expiresAt: int)

  /** `queue` holds the rows of all threads in the order of their ids. */
  datatype Store = Store(locks: map<string, Lease>, cache: map<string, CacheRow>, queue: seq<QueueRow>, nextId: nat)

  const EMPTY := Store(map[], map[], [], 1)

  const DEFAULT_QUEUE_TTL_MS := 90000

  datatype Op =
    | AcquireLock(threadId: string, ttlMs: int, token: string)
    | ForceReleaseLock(threadId: string)
    | ReleaseLock(threadId: string, token: string)
    | ExtendLock(threadId: string, token: string, ttlMs: int)
    | CacheGet(key: string)
    | CacheSet(key: string, value: string, ttl: Option<int>)
    | CacheSetIfNotExists(key: string, value: string, ttl: Option<int>)
    | CacheDelete(key: string)
    | ListAppend(key: string, value: string, maxLength: Option<int>, ttl: Option<int>)
    | ListGet(key: string)
    | Enqueue(threadId: string, item: Item, maxSize: int)
    | Dequeue(threadId: string)
    | QueueDepth(threadId: string)
    | Sweep

  datatype Reply =
    | Done
    | Granted(lease: Option<Lease>)
    | Flag(value: bool)
    | Found(cell: Option<Cell>)
    | Items(items: seq<string>)
    | Count(count: nat)
    | Taken(item: Option<Item>)

  // ------------------------------------------------------------------
  // Expiry
  // ------------------------------------------------------------------

  predicate CacheLive(row: CacheRow, now: int) {
    row.expiresAt.None? || row.expiresAt.value > now
  }

  function LiveRows(q: seq<QueueRow>, now: int): seq<QueueRow> {
    if q == [] then []
    else if q[0].expiresAt > now then [q[0]] + LiveRows(q[1..], now)
    else LiveRows(q[1..], now)
  }

  function LiveLocks(locks: map<string, Lease>, now: int): map<string, Lease> {
    map t | t in locks && locks[t].expiresAt > now :: locks[t]
  }

  function LiveCache(cache: map<string, CacheRow>, now: int): map<string, CacheRow> {
    map k | k in cache && CacheLive(cache[k], now) :: cache[k]
  }

  /** The store without the entries that have expired at `now`. */
  function Tick(s: Store, now: int): Store {
    Store(LiveLocks(s.locks, now), LiveCache(s.cache, now), LiveRows(s.queue, now), s.nextId)
  }

  /** `ttlMs ? now + ttlMs : null`: no time to live, or a zero one, never expires. */
  function ExpiryOf(now: int, ttl: Option<int>): Option<int> {
    if ttl.Some? && ttl.value != 0 then Some(now + ttl.value) else None
  }

  // ------------------------------------------------------------------
  // Queues
  // ------------------------------------------------------------------

  function Rows(q: seq<QueueRow>, threadId: string): seq<QueueRow> {
    if q == [] then []
    else if q[0].threadId == threadId then [q[0]] + Rows(q[1..], threadId)
    else Rows(q[1..], threadId)
  }

  /** The rows without the first `n` of one thread. */
  function DropOldest(q: seq<QueueRow>, threadId: string, n: nat): seq<QueueRow> {
    if q == [] || n == 0 then q
    else if q[0].threadId == threadId then DropOldest(q[1..], threadId, n - 1)
    else [q[0]] + DropOldest(q[1..], threadId, n)
  }

  function Bound(maxSize: int): nat {
    if maxSize >= 1 then maxSize else 1
  }

  function NewRow(s: Store, threadId: string, item: Item, now: int): QueueRow {
    QueueRow(s.nextId, threadId, item, item.expiresAt.GetOr(now + DEFAULT_QUEUE_TTL_MS))
  }

  /** Drops the oldest rows of a thread beyond the bound; the depth that remains comes with the rest. */
  function Bounded(q: seq<QueueRow>, threadId: string, bound: nat): (seq<QueueRow>, nat) {
    var count := |Rows(q, threadId)|;
    if count > bound then (DropOldest(q, threadId, count - bound), bound) else (q, count)
  }

  function AppendBounded(queue: seq<QueueRow>, row: QueueRow, bound: nat): (seq<QueueRow>, nat) {
    Bounded(queue + [row], row.threadId, bound)
  }

  function Enqueued(s: Store, threadId: string, item: Item, maxSize: int, now: int): (Store, nat) {
    var (q, depth) := AppendBounded(s.queue, NewRow(s, threadId, item, now), Bound(maxSize));
    (s.(queue := q, nextId := s.nextId + 1), depth)
  }

  // ------------------------------------------------------------------
  // Lists
  // ------------------------------------------------------------------

  function ItemsOf(cell: Cell, parse: string -> seq<string>): seq<string> {
    match cell
    case Text(text) => parse(text)
    case ListOf(items) => items
  }

  /** The last `maxLength` elements, and none for a bound below zero. */
  function Capped(list: seq<string>, maxLength: Option<int>): seq<string> {
    if maxLength.None? || |list| <= maxLength.value then list
    else if maxLength.value <= 0 then []
    else list[|list| - maxLength.value..]
  }

  // ------------------------------------------------------------------
  // The operations of the plain store
  // ------------------------------------------------------------------

  /** One operation on a store that holds no expired entry. `parse` reads a list out of foreign text. */
  function Operate(s: Store, op: Op, now: int, parse: string -> seq<string>): (Store, Reply) {
    match op
    case AcquireLock(threadId, ttlMs, token) =>
      if threadId in s.locks then (s, Granted(None))
      else (s.(locks := s.locks[threadId := Lease(token, now + ttlMs)]), Granted(Some(Lease(token, now + ttlMs))))
    case ForceReleaseLock(threadId) => (s.(locks := s.locks - {threadId}), Done)
    case ReleaseLock(threadId, token) =>
      if threadId in s.locks && s.locks[threadId].token == token then (s.(locks := s.locks - {threadId}), Done) else (s, Done)
    case ExtendLock(threadId, token, ttlMs) =>
      if threadId in s.locks && s.locks[threadId].token == token
      then (s.(locks := s.locks[threadId := Lease(token, now + ttlMs)]), Flag(true))
      else (s, Flag(false))
    case CacheGet(key) => (s, Found(if key in s.cache then Some(s.cache[key].value) else None))
    case CacheSet(key, value, ttl) => (s.(cache := s.cache[key := CacheRow(Text(value), ExpiryOf(now, ttl))]), Done)
    case CacheSetIfNotExists(key, value, ttl) =>
      if key in s.cache then (s, Flag(false))
      else (s.(cache := s.cache[key := CacheRow(Text(value), ExpiryOf(now, ttl))]), Flag(true))
    case CacheDelete(key) => (s.(cache := s.cache - {key}), Done)
    case ListAppend(key, value, maxLength, ttl) =>
      var list := (if key in s.cache then ItemsOf(s.cache[key].value, parse) else []) + [value];
      (s.(cache := s.cache[key := CacheRow(ListOf(Capped(list, maxLength)), ExpiryOf(now, ttl))]), Done)
    case ListGet(key) => (s, Items(if key in s.cache then ItemsOf(s.cache[key].value, parse) else []))
    case Enqueue(threadId, item, maxSize) =>
      var (s', depth) := Enqueued(s, threadId, item, maxSize, now);
      (s', Count(depth))
    case Dequeue(threadId) =>
      var rows := Rows(s.queue, threadId);
      (s.(queue := DropOldest(s.queue, threadId, 1)), Taken(if rows == [] then None else Some(rows[0].item)))
    case QueueDepth(threadId) => (s, Count(|Rows(s.queue, threadId)|))
    case Sweep => (s, Done)
  }

  datatype Call = Call(op: Op, now: int)

  /** Calls whose times do not run backwards, none before `start`. */
  ghost predicate Chronological(calls: seq<Call>, start: int) {
    && (forall i | 0 <= i < |calls| :: start <= calls[i].now)
    && (forall i, j | 0 <= i < j < |calls| :: calls[i].now <= calls[j].now)
  }

  function Step(s: Store, call: Call, parse: string -> seq<string>): (Store, Reply) {
    var (s', reply) := Operate(Tick(s, call.now), call.op, call.now, parse);
    (Tick(s', call.now), reply)
  }

  /** The plain store after a series of calls, and its replies. */
  function Play(s: Store, calls: seq<Call>, parse: string -> seq<string>): (Store, seq<Reply>) {
    if calls == [] then (s, [])
    else
      var (before, replies) := Play(s, calls[..|calls| - 1], parse);
      var (after, reply) := Step(before, calls[|calls| - 1], parse);
      (after, replies + [reply])
  }

  // ------------------------------------------------------------------
  // Facts about expiry and queues
  // ------------------------------------------------------------------

  /** Looking earlier first makes no difference: what has expired then has expired now. */
  lemma TickTwice(s: Store, earlier: int, now: int)
    requires earlier <= now
    ensures Tick(Tick(s, earlier), now) == Tick(s, now)
  {
    LiveTwice(s.queue, earlier, now);
    assert LiveLocks(LiveLocks(s.locks, earlier), now) == LiveLocks(s.locks, now);
    assert LiveCache(LiveCache(s.cache, earlier), now) == LiveCache(s.cache, now);
  }

  lemma {:induction false} LiveTwice(q: seq<QueueRow>, earlier: int, now: int)
    requires earlier <= now
    ensures LiveRows(LiveRows(q, earlier), now) == LiveRows(q, now)
  {
    if q != [] {
      LiveTwice(q[1..], earlier, now);
      if q[0].expiresAt > earlier {
        assert LiveRows(q, earlier)[1..] == LiveRows(q[1..], earlier);
      }
    }
  }

  lemma {:induction false} LiveAppend(q: seq<QueueRow>, row: QueueRow, now: int)
    ensures LiveRows(q + [row], now) == LiveRows(q, now) + LiveRows([row], now)
  {
    if q == [] {
      assert q + [row] == [row];
    } else {
      LiveAppend(q[1..], row, now);
      assert (q + [row])[1..] == q[1..] + [row];
    }
  }

  lemma {:induction false} RowsAppend(q: seq<QueueRow>, row: QueueRow, threadId: string)
    ensures Rows(q + [row], threadId) == if row.threadId == threadId then Rows(q, threadId) + [row] else Rows(q, threadId)
  {
    if q == [] {
      assert q + [row] == [row];
    } else {
      RowsAppend(q[1..], row, threadId);
      assert (q + [row])[1..] == q[1..] + [row];
    }
  }

  /** Dropping the oldest of one thread keeps the rest of that thread and every other thread, in order. */
  lemma {:induction false} RowsDropOldest(q: seq<QueueRow>, threadId: string, n: nat, other: string)
    requires n <= |Rows(q, threadId)|
    ensures Rows(DropOldest(q, threadId, n), other)
         == if other == threadId then Rows(q, threadId)[n..] else Rows(q, other)
  {
    if q != [] && n != 0 {
      if q[0].threadId == threadId {
        RowsDropOldest(q[1..], threadId, n - 1, other);
      } else {
        RowsDropOldest(q[1..], threadId, n, other);
        assert DropOldest(q, threadId, n)[1..] == DropOldest(q[1..], threadId, n);
      }
    }
  }

  /**
   * After `enqueue` a thread's queue is the last `max(1, maxSize)` of its entries and the new one, in arrival order; the
   * returned depth is its length, and no other queue changes.
   */
  lemma EnqueueKeepsNewest(s: Store, threadId: string, item: Item, maxSize: int, now: int, other: string)
    ensures var (s', depth) := Enqueued(s, threadId, item, maxSize, now);
            var all := Rows(s.queue, threadId) + [NewRow(s, threadId, item, now)];
            && depth == |Rows(s'.queue, threadId)| == (if |all| <= Bound(maxSize) then |all| else Bound(maxSize))
            && Rows(s'.queue, threadId) == all[|all| - depth..]
            && (other != threadId ==> Rows(s'.queue, other) == Rows(s.queue, other))
  {
    var row := NewRow(s, threadId, item, now);
    RowsAppend(s.queue, row, threadId);
    RowsAppend(s.queue, row, other);
    BoundKeepsNewest(s.queue + [row], threadId, Bound(maxSize), other);
  }

  /** `all` cut down to its last `bound` rows; no other thread changes. */
  predicate LastOnly(q: seq<QueueRow>, threadId: string, bound: nat, other: string, q': seq<QueueRow>, depth: nat) {
    var all := Rows(q, threadId);
    && depth == |Rows(q', threadId)| == (if |all| <= bound then |all| else bound)
    && Rows(q', threadId) == all[|all| - depth..]
    && (other != threadId ==> Rows(q', other) == Rows(q, other))
  }

  lemma BoundKeepsNewest(q: seq<QueueRow>, threadId: string, bound: nat, other: string)
    ensures LastOnly(q, threadId, bound, other, Bounded(q, threadId, bound).0, Bounded(q, threadId, bound).1)
  {
    var count := |Rows(q, threadId)|;
    if count > bound {
      RowsDropOldest(q, threadId, count - bound, threadId);
      RowsDropOldest(q, threadId, count - bound, other);
      assert LastOnly(q, threadId, bound, other, DropOldest(q, threadId, count - bound), bound);
    } else {
      WithinBound(q, threadId, bound, other);
    }
  }

  lemma WithinBound(q: seq<QueueRow>, threadId: string, bound: nat, other: string)
    requires |Rows(q, threadId)| <= bound
    ensures LastOnly(q, threadId, bound, other, q, |Rows(q, threadId)|)
  {
  }
}
