/**
 * The bounded queues of the chat state, told from the calls and their replies alone: which entries wait, which one `dequeue`
 * returns, and that none is returned twice or out of order (apps/api/src/durable-objects/chat-state.ts:317-392).
 */
module QueueRuns {
  import opened Wrappers
  import opened ChatStore
  import opened ChatState
  import opened ChatRuns

  /** Call `i` puts an entry into the thread's queue. */
  predicate EnqueuesFor(calls: seq<Call>, threadId: string, i: nat) {
    i < |calls| && calls[i].op.Enqueue? && calls[i].op.threadId == threadId
  }

  /** When the entry of call `i` expires: at the time it carries, or else ninety seconds after the call. */
  function ExpiryOfCall(calls: seq<Call>, i: nat): int {
    if i < |calls| && calls[i].op.Enqueue? then calls[i].op.item.expiresAt.GetOr(calls[i].now + 90000) else 0
  }

  function Unexpired(calls: seq<Call>, waiting: seq<nat>, now: int): (left: seq<nat>)
    ensures |left| <= |waiting|
  {
    if waiting == [] then []
    else if ExpiryOfCall(calls, waiting[0]) > now then [waiting[0]] + Unexpired(calls, waiting[1..], now)
    else Unexpired(calls, waiting[1..], now)
  }

  /** The last of them, as many as the bound allows, and one at least. */
  function LastOnes(waiting: seq<nat>, maxSize: int): seq<nat> {
    var n := if maxSize >= 1 then maxSize else 1;
    if |waiting| <= n then waiting else waiting[|waiting| - n..]
  }

  /** The calls whose entries wait in the thread's queue, in the order of the calls. */
  function Waiting(calls: seq<Call>, threadId: string): seq<nat> {
    if calls == [] then []
    else
      var n := |calls| - 1;
      var before := Unexpired(calls, Waiting(calls[..n], threadId), calls[n].now);
      match calls[n].op
      case Enqueue(th, _, maxSize) =>
        if th == threadId then Unexpired(calls, LastOnes(before + [n], maxSize), calls[n].now) else before
      case Dequeue(th) => if th == threadId && before != [] then before[1..] else before
      case _ => before
  }

  /** The calls whose entries `dequeue` has returned for the thread, in the order of their return. */
  function TakenFrom(calls: seq<Call>, threadId: string): seq<nat> {
    if calls == [] then []
    else
      var n := |calls| - 1;
      var before := Unexpired(calls, Waiting(calls[..n], threadId), calls[n].now);
      var taken := TakenFrom(calls[..n], threadId);
      if calls[n].op == Dequeue(threadId) && before != [] then taken + [before[0]] else taken
  }

  /** What the callers of `dequeue` got for the thread. */
  function ItemsTaken(calls: seq<Call>, replies: seq<Reply>, threadId: string): seq<Item>
    requires |calls| == |replies|
  {
    if calls == [] then []
    else
      var n := |calls| - 1;
      var items := ItemsTaken(calls[..n], replies[..n], threadId);
      if calls[n].op == Dequeue(threadId) && replies[n].Taken? && replies[n].item.Some? then items + [replies[n].item.value] else items
  }

  // ------------------------------------------------------------------
  // Order
  // ------------------------------------------------------------------

  /** Calls that put something into the thread's queue, each later than the one before and the first than `low`. */
  predicate Rising(calls: seq<Call>, threadId: string, waiting: seq<nat>, low: int) {
    waiting == [] || (EnqueuesFor(calls, threadId, waiting[0]) && waiting[0] > low && Rising(calls, threadId, waiting[1..], waiting[0]))
  }

  lemma {:induction false} RisingPairs(calls: seq<Call>, threadId: string, waiting: seq<nat>, low: int)
    requires Rising(calls, threadId, waiting, low)
    ensures forall k | 0 <= k < |waiting| :: EnqueuesFor(calls, threadId, waiting[k]) && waiting[k] > low
    ensures forall j, k | 0 <= j < k < |waiting| :: waiting[j] < waiting[k]
  {
    if waiting != [] {
      RisingPairs(calls, threadId, waiting[1..], waiting[0]);
    }
  }

  lemma {:induction false} RisingLower(calls: seq<Call>, threadId: string, waiting: seq<nat>, low: int, lower: int)
    requires Rising(calls, threadId, waiting, low) && lower <= low
    ensures Rising(calls, threadId, waiting, lower)
  {
  }

  lemma {:induction false} UnexpiredRising(calls: seq<Call>, threadId: string, waiting: seq<nat>, low: int, now: int)
    requires Rising(calls, threadId, waiting, low)
    ensures Rising(calls, threadId, Unexpired(calls, waiting, now), low)
  {
    if waiting != [] {
      UnexpiredRising(calls, threadId, waiting[1..], waiting[0], now);
      if ExpiryOfCall(calls, waiting[0]) > now {
        assert Unexpired(calls, waiting, now)[1..] == Unexpired(calls, waiting[1..], now);
      } else {
        RisingLower(calls, threadId, Unexpired(calls, waiting[1..], now), waiting[0], low);
      }
    }
  }

  lemma {:induction false} RisingLonger(calls: seq<Call>, threadId: string, waiting: seq<nat>, low: int)
    requires calls != [] && Rising(calls[..|calls| - 1], threadId, waiting, low)
    ensures Rising(calls, threadId, waiting, low)
  {
    if waiting != [] {
      assert EnqueuesFor(calls[..|calls| - 1], threadId, waiting[0]);
      RisingLonger(calls, threadId, waiting[1..], waiting[0]);
    }
  }

  lemma {:induction false} RisingAppended(calls: seq<Call>, threadId: string, waiting: seq<nat>, low: int, next: nat)
    requires Rising(calls, threadId, waiting, low) && EnqueuesFor(calls, threadId, next)
    requires next > if waiting == [] then low else waiting[|waiting| - 1]
    ensures Rising(calls, threadId, waiting + [next], low)
  {
    if waiting != [] {
      RisingAppended(calls, threadId, waiting[1..], waiting[0], next);
      assert (waiting + [next])[1..] == waiting[1..] + [next];
    } else {
      assert (waiting + [next])[1..] == [];
    }
  }

  lemma {:induction false} RisingTail(calls: seq<Call>, threadId: string, waiting: seq<nat>, low: int, i: nat)
    requires Rising(calls, threadId, waiting, low) && i <= |waiting|
    ensures Rising(calls, threadId, waiting[i..], low)
  {
    if i > 0 {
      RisingTail(calls, threadId, waiting[1..], waiting[0], i - 1);
      assert waiting[1..][i - 1..] == waiting[i..];
      RisingLower(calls, threadId, waiting[i..], waiting[0], low);
    }
  }

  function LastOf(ids: seq<nat>): int {
    if ids == [] then -1 else ids[|ids| - 1]
  }

  /** What was taken is in the order of the calls, and what waits comes after it, in order too. */
  predicate InOrder(calls: seq<Call>, threadId: string, taken: seq<nat>, waiting: seq<nat>) {
    Rising(calls, threadId, taken, -1) && Rising(calls, threadId, waiting, LastOf(taken))
  }

  lemma {:induction false} QueueOrdered(calls: seq<Call>, threadId: string)
    ensures InOrder(calls, threadId, TakenFrom(calls, threadId), Waiting(calls, threadId))
  {
    if calls != [] {
      var n := |calls| - 1;
      var earlier := calls[..n];
      var taken, waiting := TakenFrom(earlier, threadId), Waiting(earlier, threadId);
      QueueOrdered(earlier, threadId);
      SameUnexpired(calls, waiting, threadId, LastOf(taken), calls[n].now);
      UnexpiredRising(earlier, threadId, waiting, LastOf(taken), calls[n].now);
      NextInOrder(calls, threadId, taken, Unexpired(calls, waiting, calls[n].now));
    }
  }

  lemma NextInOrder(calls: seq<Call>, threadId: string, taken: seq<nat>, before: seq<nat>)
    requires calls != [] && taken == TakenFrom(calls[..|calls| - 1], threadId)
    requires before == Unexpired(calls, Waiting(calls[..|calls| - 1], threadId), calls[|calls| - 1].now)
    requires InOrder(calls[..|calls| - 1], threadId, taken, before)
    ensures InOrder(calls, threadId, TakenFrom(calls, threadId), Waiting(calls, threadId))
  {
    var op := calls[|calls| - 1].op;
    RisingLonger(calls, threadId, taken, -1);
    RisingLonger(calls, threadId, before, LastOf(taken));
    if op.Enqueue? && op.threadId == threadId {
      EnqueueInOrder(calls, threadId, taken, before);
    } else if op == Dequeue(threadId) && before != [] {
      RisingAppended(calls, threadId, taken, -1, before[0]);
    }
  }

  lemma EnqueueInOrder(calls: seq<Call>, threadId: string, taken: seq<nat>, before: seq<nat>)
    requires calls != [] && EnqueuesFor(calls, threadId, |calls| - 1)
    requires InOrder(calls[..|calls| - 1], threadId, taken, before)
    ensures var call := calls[|calls| - 1];
            Rising(calls, threadId, Unexpired(calls, LastOnes(before + [|calls| - 1], call.op.maxSize), call.now), LastOf(taken))
  {
    var n := |calls| - 1;
    var all := before + [n];
    RisingPairs(calls[..n], threadId, taken, -1);
    RisingPairs(calls[..n], threadId, before, LastOf(taken));
    assert LastOf(taken) < n && (before != [] ==> before[|before| - 1] < n) by {
      assert taken != [] ==> EnqueuesFor(calls[..n], threadId, taken[|taken| - 1]);
      assert before != [] ==> EnqueuesFor(calls[..n], threadId, before[|before| - 1]);
    }
    RisingLonger(calls, threadId, before, LastOf(taken));
    RisingAppended(calls, threadId, before, LastOf(taken), n);
    var kept := LastOnes(all, calls[n].op.maxSize);
    RisingTail(calls, threadId, all, LastOf(taken), |all| - |kept|);
    assert all[|all| - |kept|..] == kept;
    UnexpiredRising(calls, threadId, kept, LastOf(taken), calls[n].now);
  }

  /** Later calls do not change when the entries of earlier ones expire. */
  lemma {:induction false} SameUnexpired(calls: seq<Call>, waiting: seq<nat>, threadId: string, low: int, now: int)
    requires calls != [] && Rising(calls[..|calls| - 1], threadId, waiting, low)
    ensures Unexpired(calls[..|calls| - 1], waiting, now) == Unexpired(calls, waiting, now)
  {
    if waiting != [] {
      assert EnqueuesFor(calls[..|calls| - 1], threadId, waiting[0]);
      SameUnexpired(calls, waiting[1..], threadId, waiting[0], now);
    }
  }

  // ------------------------------------------------------------------
  // The table holds what waits
  // ------------------------------------------------------------------

  /** The rows are the entries of these calls. */
  predicate Stands(rows: seq<QueueRow>, waiting: seq<nat>, calls: seq<Call>, threadId: string) {
    && |rows| == |waiting|
    && forall k | 0 <= k < |rows| ::
         && EnqueuesFor(calls, threadId, waiting[k]) && rows[k].item == calls[waiting[k]].op.item
         && rows[k].expiresAt == ExpiryOfCall(calls, waiting[k])
  }

  lemma {:induction false} StandsLive(rows: seq<QueueRow>, waiting: seq<nat>, calls: seq<Call>, threadId: string, now: int)
    requires Stands(rows, waiting, calls, threadId)
    ensures Stands(LiveRows(rows, now), Unexpired(calls, waiting, now), calls, threadId)
  {
    if rows != [] {
      StandsLive(rows[1..], waiting[1..], calls, threadId, now);
    }
  }

  lemma StandsLonger(rows: seq<QueueRow>, waiting: seq<nat>, calls: seq<Call>, threadId: string)
    requires calls != [] && Stands(rows, waiting, calls[..|calls| - 1], threadId)
    ensures Stands(rows, waiting, calls, threadId)
  {
    forall k | 0 <= k < |rows|
      ensures EnqueuesFor(calls, threadId, waiting[k]) && rows[k].item == calls[waiting[k]].op.item
      ensures rows[k].expiresAt == ExpiryOfCall(calls, waiting[k])
    {
      assert EnqueuesFor(calls[..|calls| - 1], threadId, waiting[k]);
    }
  }

  lemma {:induction false} RowsLive(q: seq<QueueRow>, threadId: string, now: int)
    ensures Rows(LiveRows(q, now), threadId) == LiveRows(Rows(q, threadId), now)
  {
    if q != [] {
      RowsLive(q[1..], threadId, now);
      if q[0].threadId == threadId {
        assert Rows(q, threadId)[1..] == Rows(q[1..], threadId);
      }
      if q[0].expiresAt > now {
        assert LiveRows(q, now)[1..] == LiveRows(q[1..], now);
      }
    }
  }

  /** In the table of a store, the thread's rows are the entries of these calls. */
  predicate Holds(s: Store, waiting: seq<nat>, calls: seq<Call>, threadId: string) {
    Stands(Rows(s.queue, threadId), waiting, calls, threadId)
  }

  lemma TickHolds(s: Store, waiting: seq<nat>, calls: seq<Call>, threadId: string, now: int)
    requires Holds(s, waiting, calls, threadId)
    ensures Holds(Tick(s, now), Unexpired(calls, waiting, now), calls, threadId)
  {
    RowsLive(s.queue, threadId, now);
    StandsLive(Rows(s.queue, threadId), waiting, calls, threadId, now);
  }

  /** After any calls the thread's rows are the entries of the calls that wait. */
  lemma {:induction false} QueueIsWaiting(calls: seq<Call>, threadId: string, parse: string -> seq<string>)
    ensures Holds(Play(EMPTY, calls, parse).0, Waiting(calls, threadId), calls, threadId)
  {
    if calls != [] {
      var n := |calls| - 1;
      var s, call := Play(EMPTY, calls[..n], parse).0, calls[n];
      var before := Unexpired(calls, Waiting(calls[..n], threadId), call.now);
      QueueIsWaiting(calls[..n], threadId, parse);
      StandsLonger(Rows(s.queue, threadId), Waiting(calls[..n], threadId), calls, threadId);
      TickHolds(s, Waiting(calls[..n], threadId), calls, threadId, call.now);
      PlayStep(calls, parse);
      StepHolds(s, calls, threadId, before, parse);
    }
  }

  /** The queue after the last call, before the expired entries are gone again. */
  function WaitingThen(calls: seq<Call>, threadId: string, before: seq<nat>): seq<nat>
    requires calls != []
  {
    var n := |calls| - 1;
    match calls[n].op
    case Enqueue(th, _, maxSize) => if th == threadId then LastOnes(before + [n], maxSize) else before
    case Dequeue(th) => if th == threadId && before != [] then before[1..] else before
    case _ => before
  }

  lemma StepHolds(s: Store, calls: seq<Call>, threadId: string, before: seq<nat>, parse: string -> seq<string>)
    requires calls != [] && Holds(Tick(s, calls[|calls| - 1].now), before, calls, threadId)
    requires before == Unexpired(calls, Waiting(calls[..|calls| - 1], threadId), calls[|calls| - 1].now)
    ensures Holds(Step(s, calls[|calls| - 1], parse).0, Waiting(calls, threadId), calls, threadId)
  {
    var call := calls[|calls| - 1];
    var s' := Operate(Tick(s, call.now), call.op, call.now, parse).0;
    OperateHolds(Tick(s, call.now), calls, threadId, before, parse);
    TickHolds(s', WaitingThen(calls, threadId, before), calls, threadId, call.now);
    UnexpiredTwice(calls, Waiting(calls[..|calls| - 1], threadId), call.now);
    UnexpiredTail(calls, before, call.now);
  }

  lemma {:induction false} UnexpiredTwice(calls: seq<Call>, waiting: seq<nat>, now: int)
    ensures Unexpired(calls, Unexpired(calls, waiting, now), now) == Unexpired(calls, waiting, now)
  {
    if waiting != [] {
      UnexpiredTwice(calls, waiting[1..], now);
      if ExpiryOfCall(calls, waiting[0]) > now {
        assert Unexpired(calls, waiting, now)[1..] == Unexpired(calls, waiting[1..], now);
      }
    }
  }

  lemma UnexpiredTail(calls: seq<Call>, waiting: seq<nat>, now: int)
    requires Unexpired(calls, waiting, now) == waiting
    ensures waiting != [] ==> Unexpired(calls, waiting[1..], now) == waiting[1..]
  {
    if waiting != [] && ExpiryOfCall(calls, waiting[0]) > now {
      assert waiting[1..] == ([waiting[0]] + Unexpired(calls, waiting[1..], now))[1..];
    }
  }

  lemma OperateHolds(s: Store, calls: seq<Call>, threadId: string, before: seq<nat>, parse: string -> seq<string>)
    requires calls != [] && Holds(s, before, calls, threadId)
    ensures var call := calls[|calls| - 1];
            Holds(Operate(s, call.op, call.now, parse).0, WaitingThen(calls, threadId, before), calls, threadId)
  {
    var call := calls[|calls| - 1];
    var op := call.op;
    if op.Enqueue? {
      EnqueueHolds(s, calls, threadId, before);
    } else if op.Dequeue? {
      DequeueHolds(s, op.threadId, calls, threadId, before);
    } else {
      assert Operate(s, op, call.now, parse).0.queue == s.queue;
    }
  }

  lemma EnqueueHolds(s: Store, calls: seq<Call>, threadId: string, before: seq<nat>)
    requires calls != [] && calls[|calls| - 1].op.Enqueue? && Holds(s, before, calls, threadId)
    ensures var call := calls[|calls| - 1];
            Holds(Enqueued(s, call.op.threadId, call.op.item, call.op.maxSize, call.now).0, WaitingThen(calls, threadId, before), calls, threadId)
  {
    var n := |calls| - 1;
    var call := calls[n];
    var op := call.op;
    EnqueueKeepsNewest(s, op.threadId, op.item, op.maxSize, call.now, threadId);
    if op.threadId == threadId {
      var row := NewRow(s, threadId, op.item, call.now);
      var rows := Rows(s.queue, threadId);
      assert Stands(rows + [row], before + [n], calls, threadId);
    }
  }

  lemma DequeueHolds(s: Store, th: string, calls: seq<Call>, threadId: string, before: seq<nat>)
    requires Holds(s, before, calls, threadId)
    ensures Holds(s.(queue := DropOldest(s.queue, th, 1)), if th == threadId && before != [] then before[1..] else before, calls, threadId)
  {
    if Rows(s.queue, th) != [] {
      RowsDropOldest(s.queue, th, 1, threadId);
    } else {
      DropNothing(s.queue, th);
    }
  }

  // ------------------------------------------------------------------
  // What the callers see
  // ------------------------------------------------------------------

  lemma HoldsReplies(s: Store, waiting: seq<nat>, calls: seq<Call>, threadId: string, now: int, parse: string -> seq<string>)
    requires Holds(s, waiting, calls, threadId)
    ensures Operate(s, QueueDepth(threadId), now, parse).1 == Count(|waiting|)
    ensures Operate(s, Dequeue(threadId), now, parse).1 == Taken(None) <==> waiting == []
    ensures waiting != [] ==>
              && EnqueuesFor(calls, threadId, waiting[0])
              && Operate(s, Dequeue(threadId), now, parse).1 == Taken(Some(calls[waiting[0]].op.item))
  {
  }

  lemma HoldsEnqueue(
    s: Store, waiting: seq<nat>, calls: seq<Call>, threadId: string, item: Item, maxSize: int, now: int, parse: string -> seq<string>)
    requires Holds(s, waiting, calls, threadId)
    ensures Operate(s, Enqueue(threadId, item, maxSize), now, parse).1 == Count(|LastOnes(waiting + [|calls|], maxSize)|)
  {
    EnqueueKeepsNewest(s, threadId, item, maxSize, now, threadId);
  }

  /** The store as a call at `now` finds it. */
  lemma FoundByCall(calls: seq<Call>, threadId: string, now: int, parse: string -> seq<string>)
    ensures Holds(Tick(Play(EMPTY, calls, parse).0, now), Unexpired(calls, Waiting(calls, threadId), now), calls, threadId)
  {
    QueueIsWaiting(calls, threadId, parse);
    TickHolds(Play(EMPTY, calls, parse).0, Waiting(calls, threadId), calls, threadId, now);
  }

  /**
   * After any calls, `dequeue` replies with nothing exactly when no unexpired entry waits, and otherwise with the entry of the
   * oldest call that waits; `queueDepth` replies how many wait.
   */
  lemma QueueReplies(calls: seq<Call>, threadId: string, now: int, parse: string -> seq<string>)
    ensures var (s, waiting) := (Play(EMPTY, calls, parse).0, Unexpired(calls, Waiting(calls, threadId), now));
            && Step(s, Call(QueueDepth(threadId), now), parse).1 == Count(|waiting|)
            && (Step(s, Call(Dequeue(threadId), now), parse).1 == Taken(None) <==> waiting == [])
            && (waiting != [] ==>
                  EnqueuesFor(calls, threadId, waiting[0])
                  && Step(s, Call(Dequeue(threadId), now), parse).1 == Taken(Some(calls[waiting[0]].op.item)))
  {
    var s := Play(EMPTY, calls, parse).0;
    FoundByCall(calls, threadId, now, parse);
    HoldsReplies(Tick(s, now), Unexpired(calls, Waiting(calls, threadId), now), calls, threadId, now, parse);
  }

  /** `enqueue` replies how many entries then wait, an entry that has expired on arrival among them. */
  lemma EnqueueReplies(calls: seq<Call>, threadId: string, item: Item, maxSize: int, now: int, parse: string -> seq<string>)
    ensures var (s, waiting) := (Play(EMPTY, calls, parse).0, Unexpired(calls, Waiting(calls, threadId), now));
            Step(s, Call(Enqueue(threadId, item, maxSize), now), parse).1 == Count(|LastOnes(waiting + [|calls|], maxSize)|)
  {
    FoundByCall(calls, threadId, now, parse);
    HoldsEnqueue(
      Tick(Play(EMPTY, calls, parse).0, now), Unexpired(calls, Waiting(calls, threadId), now), calls, threadId, item, maxSize, now, parse);
  }

  /** The items are the entries of these calls. */
  predicate EntriesOf(items: seq<Item>, taken: seq<nat>, calls: seq<Call>, threadId: string) {
    && |items| == |taken|
    && forall k | 0 <= k < |taken| :: EnqueuesFor(calls, threadId, taken[k]) && items[k] == calls[taken[k]].op.item
  }

  lemma {:induction false} EntriesTaken(calls: seq<Call>, threadId: string, parse: string -> seq<string>)
    ensures |Play(EMPTY, calls, parse).1| == |calls|
    ensures EntriesOf(ItemsTaken(calls, Play(EMPTY, calls, parse).1, threadId), TakenFrom(calls, threadId), calls, threadId)
  {
    PlayReplies(EMPTY, calls, parse);
    if calls != [] {
      var n := |calls| - 1;
      var earlier := calls[..n];
      EntriesTaken(earlier, threadId, parse);
      PlayStep(calls, parse);
      QueueReplies(earlier, threadId, calls[n].now, parse);
      QueueOrdered(earlier, threadId);
      SameUnexpired(calls, Waiting(earlier, threadId), threadId, LastOf(TakenFrom(earlier, threadId)), calls[n].now);
      EntriesNext(calls, threadId, Play(EMPTY, earlier, parse).1, Step(Play(EMPTY, earlier, parse).0, calls[n], parse).1);
    }
  }

  lemma EntriesNext(calls: seq<Call>, threadId: string, replies: seq<Reply>, reply: Reply)
    requires calls != [] && |replies| == |calls| - 1
    requires EntriesOf(ItemsTaken(calls[..|calls| - 1], replies, threadId), TakenFrom(calls[..|calls| - 1], threadId), calls[..|calls| - 1], threadId)
    requires calls[|calls| - 1].op == Dequeue(threadId) ==>
               var waiting := Unexpired(calls, Waiting(calls[..|calls| - 1], threadId), calls[|calls| - 1].now);
               && (reply == Taken(None) <==> waiting == [])
               && (waiting != [] ==>
                     EnqueuesFor(calls[..|calls| - 1], threadId, waiting[0]) && reply == Taken(Some(calls[waiting[0]].op.item)))
    ensures EntriesOf(ItemsTaken(calls, replies + [reply], threadId), TakenFrom(calls, threadId), calls, threadId)
  {
    var n := |calls| - 1;
    assert (replies + [reply])[..n] == replies;
    var taken := TakenFrom(calls[..n], threadId);
    forall k | 0 <= k < |taken| ensures EnqueuesFor(calls, threadId, taken[k]) {
      assert EnqueuesFor(calls[..n], threadId, taken[k]);
    }
  }

  /**
   * Over any run, what the callers of `dequeue` got for a thread are the entries of distinct `enqueue` calls on that thread, in
   * the order of those calls, and all that waits came after them.
   */
  lemma TakenInOrder(calls: seq<Call>, threadId: string, parse: string -> seq<string>)
    ensures |Play(EMPTY, calls, parse).1| == |calls|
    ensures var (taken, items) := (TakenFrom(calls, threadId), ItemsTaken(calls, Play(EMPTY, calls, parse).1, threadId));
            && EntriesOf(items, taken, calls, threadId)
            && (forall j, k | 0 <= j < k < |taken| :: taken[j] < taken[k])
            && (forall j, k | 0 <= j < |taken| && 0 <= k < |Waiting(calls, threadId)| :: taken[j] < Waiting(calls, threadId)[k])
  {
    EntriesTaken(calls, threadId, parse);
    QueueOrdered(calls, threadId);
    OrderedPairs(calls, threadId, TakenFrom(calls, threadId), Waiting(calls, threadId));
  }

  lemma OrderedPairs(calls: seq<Call>, threadId: string, taken: seq<nat>, waiting: seq<nat>)
    requires InOrder(calls, threadId, taken, waiting)
    ensures forall j, k | 0 <= j < k < |taken| :: taken[j] < taken[k]
    ensures forall j, k | 0 <= j < |taken| && 0 <= k < |waiting| :: taken[j] < waiting[k]
  {
    RisingPairs(calls, threadId, taken, -1);
    RisingPairs(calls, threadId, waiting, LastOf(taken));
    assert forall j | 0 <= j < |taken| :: taken[j] <= LastOf(taken);
  }
}
