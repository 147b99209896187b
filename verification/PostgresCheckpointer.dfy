/**
 `PostgresCheckpointer` itself: the buffer it updates in place, its loops, and the panic and
 interval bookkeeping, each method proved against the functions of PgStore.
 PostgreSQL is the `Pool`; how it answers a statement is a parameter.
 */
module PostgresCheckpointers {
  import opened Checkpoints
  import opened PgStore
  import Backpressure

  /** The `agent_checkpoints` table behind the connection pool. */
  class Pool {
    var table: Table

    constructor (table: Table)
      ensures this.table == table
    {
      this.table := table;
    }
  }

  /** A `thread_id` as it arrives in a config. */
  datatype RawId = Missing | NotUuid | Id(id: Uuid)

  datatype PutResult = Buffered(flushScheduled: bool) | InvalidArgument

  datatype Fetch = FetchFailed | Fetched(row: Option<Pending>)

  datatype Found = ReadFailed | Found(value: Option<Pending>)

  /** What wakes a waiting `aput`, and how long the buffer is then. */
  datatype Wake = Notified(length: nat) | TimedOut(length: nat)

  datatype Admission = Admitted | GaveUp | StillWaiting

  class PostgresCheckpointer {
    const pool: Pool
    const flushBatchSize: nat
    const maxBufferSize: nat
    const flushInterval: real
    const backpressureTimeout: real
    var buffer: Buffer
    var panicMode: bool
    var consecutiveFailures: nat
    var currentFlushInterval: real

    constructor (pool: Pool, flushInterval: real, flushBatchSize: nat, maxBufferMultiplier: nat, backpressureTimeout: real)
      requires flushInterval > 0.0 && flushBatchSize > 0 && maxBufferMultiplier > 1
      ensures Valid() && this.pool == pool && buffer == [] && !panicMode
      ensures this.flushBatchSize == flushBatchSize && maxBufferSize == flushBatchSize * maxBufferMultiplier
    {
      this.pool := pool;
      this.flushInterval := flushInterval;
      this.flushBatchSize := flushBatchSize;
      this.maxBufferSize := flushBatchSize * maxBufferMultiplier;
      this.backpressureTimeout := backpressureTimeout;
      buffer, panicMode := [], false;
      consecutiveFailures, currentFlushInterval := 0, flushInterval;
      new;
      AtLeastTwo(flushBatchSize, maxBufferMultiplier);
    }

    /** Ids are the keys of the dict, and a full buffer means panic mode. */
    ghost predicate Valid()
      reads this
    {
      && flushBatchSize > 0 && maxBufferSize >= 2
      && DistinctKeys(buffer)
      && (|buffer| >= maxBufferSize ==> panicMode)
    }

    /** The rest of `aput` once backpressure let it through; `now` stands in for an unreadable timestamp. */
    method Aput(threadId: RawId, checkpoint: Checkpoint, metadata: Metadata, now: int) returns (r: PutResult)
      requires Valid()
      modifies this`buffer, this`panicMode
      ensures Valid()
      ensures r.InvalidArgument? <==> !threadId.Id? || checkpoint.id.None?
      ensures r.InvalidArgument? ==> buffer == old(buffer) && panicMode == old(panicMode)
      ensures r.Buffered? ==> buffer == BufferPut(old(buffer), PendingFor(threadId.id, checkpoint, metadata, now))
      ensures r.Buffered? ==> panicMode == (old(panicMode) || |buffer| >= maxBufferSize)
      ensures r.Buffered? ==> (r.flushScheduled <==> panicMode || |buffer| >= flushBatchSize)
      ensures r.Buffered? ==>
                var p := PendingFor(threadId.id, checkpoint, metadata, now);
                p in buffer && forall q :: q in old(buffer) && q.key != p.key ==> q in buffer
    {
      if !threadId.Id? || checkpoint.id.None? {
        return InvalidArgument;
      }
      var p := PendingFor(threadId.id, checkpoint, metadata, now);
      PutKeepsDistinct(buffer, p);
      buffer := BufferPut(buffer, p);
      if |buffer| >= maxBufferSize && !panicMode {
        panicMode := true;
      }
      r := Buffered(panicMode || |buffer| >= flushBatchSize);
    }

    /** The wait of `aput`: `length` is the size of the buffer on entry, `wakes` what wakes it. */
    method ApplyBackpressure(length: nat, wakes: seq<Wake>) returns (r: Admission, used: nat)
      ensures (r, used) == Await(maxBufferSize, backpressureTimeout, length, 0, wakes)
    {
      used := 0;
      var current: nat := length;
      var waited := 0.0;
      ghost var polls: nat := 0;
      while current >= maxBufferSize
        invariant used <= |wakes| && waited == polls as real * Backpressure.POLL_SECONDS
        invariant Later(used, Await(maxBufferSize, backpressureTimeout, current, polls, wakes[used..]))
               == Await(maxBufferSize, backpressureTimeout, length, 0, wakes)
        decreases |wakes| - used, current >= maxBufferSize
      {
        if used == |wakes| {
          return StillWaiting, used;
        }
        var wake := wakes[used];
        assert wakes[used..][1..] == wakes[used + 1..];
        used := used + 1;
        current := wake.length;
        match wake
        case Notified(_) =>
          waited := 0.0;
          polls := 0;
        case TimedOut(_) =>
          waited := waited + Backpressure.POLL_SECONDS;
          polls := polls + 1;
          if waited >= backpressureTimeout {
            return GaveUp, used;
          }
      }
      r := Admitted;
    }

    /** `_peek_batch` */
    method PeekBatch() returns (batch: seq<Pending>)
      requires Valid()
      ensures batch == Peek(buffer, flushBatchSize)
      ensures batch == buffer[..if |buffer| < flushBatchSize then |buffer| else flushBatchSize]
      ensures batch == [] <==> buffer == []
    {
      batch := [];
      for i := 0 to |buffer|
        invariant batch == buffer[..i] && i < flushBatchSize
      {
        batch := batch + [buffer[i]];
        if |batch| >= flushBatchSize {
          break;
        }
      }
    }

    /** `_latest_buffered` */
    method FindLatestBuffered(thread: Uuid) returns (r: Option<Pending>)
      ensures r == LatestBuffered(buffer, thread)
    {
      var i := |buffer|;
      while i > 0
        invariant 0 <= i <= |buffer|
        invariant LatestBuffered(buffer[..i], thread) == LatestBuffered(buffer, thread)
      {
        assert buffer[..i][..i - 1] == buffer[..i - 1];
        if buffer[i - 1].thread == thread {
          return Some(buffer[i - 1]);
        }
        i := i - 1;
      }
      r := None;
    }

    /** `aget` when nothing interleaves: `select` is what the SELECT answers, if it is needed. */
    method Aget(thread: Uuid, select: Fetch) returns (r: Found)
      requires select.Fetched? ==> select.row == LatestRow(pool.table, thread)
      ensures r.Found? ==> r.value == Read(buffer, pool.table, thread)
      ensures r.ReadFailed? <==> select.FetchFailed? && LatestBuffered(buffer, thread).None?
    {
      var pending := FindLatestBuffered(thread);
      if pending.Some? {
        return Found(pending);
      }
      match select
      case FetchFailed => r := ReadFailed;
      case Fetched(row) => r := Found(row);
    }

    /** `adelete_thread`: the buffer is emptied of the thread, and then its DELETE succeeds or fails. */
    method AdeleteThread(thread: Uuid, outcome: DeleteOutcome) returns (ok: bool)
      requires Valid() && outcome.Possible()
      modifies this`buffer, pool
      ensures Valid()
      ensures ok == outcome.ok && buffer == DropThread(old(buffer), thread)
      ensures pool.table == if outcome.applied then DropRows(old(pool.table), thread) else old(pool.table)
      ensures Read(buffer, pool.table, thread) == if outcome.applied then None else LatestRow(old(pool.table), thread)
    {
      DropKeepsDistinct(buffer, thread);
      buffer := DropThread(buffer, thread);
      if outcome.applied {
        pool.table := DropRows(pool.table, thread);
      }
      ok := outcome.ok;
    }

    /** `_flush` when nothing interleaves; `outcome(i)` is PostgreSQL's answer to the i-th chunk. */
    method Flush(outcome: nat -> Outcome, durationMs: real) returns (ok: bool)
      requires Valid()
      modifies this, pool
      ensures Valid()
      ensures Drained(buffer, pool.table, ok) == Drain(flushBatchSize, old(buffer), old(pool.table), outcome, 0)
      ensures !ok || old(buffer) == [] ==>
                panicMode == old(panicMode) && consecutiveFailures == old(consecutiveFailures) &&
                currentFlushInterval == old(currentFlushInterval)
      ensures ok && old(buffer) != [] ==> consecutiveFailures == 0 && !panicMode
      ensures ok && old(buffer) != [] ==>
                currentFlushInterval == if durationMs > 500.0 then 1.0
                                        else if durationMs < 50.0 then flushInterval
                                        else old(currentFlushInterval)
    {
      if |buffer| == 0 {
        return true;
      }
      var sent := 0;
      while true
        invariant Valid() && panicMode == old(panicMode)
        invariant consecutiveFailures == old(consecutiveFailures) && currentFlushInterval == old(currentFlushInterval)
        invariant Drain(flushBatchSize, buffer, pool.table, outcome, sent) ==
                  Drain(flushBatchSize, old(buffer), old(pool.table), outcome, 0)
        decreases |buffer|
      {
        var batch := PeekBatch();
        if batch == [] {
          break;
        }
        ForgetShrinks(buffer, batch);
        ForgetKeepsDistinct(buffer, batch);
        match outcome(sent) {
          case Failed =>
            return false;
          case FailedAfterCommit =>
            pool.table := Upsert(pool.table, batch);
            return false;
          case Committed =>
            pool.table := Upsert(pool.table, batch);
            buffer := Forget(buffer, batch);
        }
        sent := sent + 1;
      }
      consecutiveFailures := 0;
      if durationMs > 500.0 {
        currentFlushInterval := 1.0;
      } else if durationMs < 50.0 {
        currentFlushInterval := flushInterval;
      }
      if panicMode && |buffer| < maxBufferSize / 2 {
        panicMode := false;
      }
      ok := true;
    }
  }

  /** How a put waits: `polls` in a row have timed out so far.  The second part is how many wake-ups it took. */
  function Await(maxBuffer: nat, timeout: real, current: nat, polls: nat, wakes: seq<Wake>): (Admission, nat)
    decreases |wakes|
  {
    if current < maxBuffer then (Admitted, 0)
    else if |wakes| == 0 then (StillWaiting, 0)
    else
      match wakes[0]
      case Notified(length) => Later(1, Await(maxBuffer, timeout, length, 0, wakes[1..]))
      case TimedOut(length) =>
        if (polls + 1) as real * Backpressure.POLL_SECONDS >= timeout then (GaveUp, 1)
        else Later(1, Await(maxBuffer, timeout, length, polls + 1, wakes[1..]))
  }

  function Later(n: nat, r: (Admission, nat)): (Admission, nat) {
    (r.0, n + r.1)
  }

  /** The last `n` of the first `used` wake-ups are polls that timed out. */
  predicate LastTimedOut(wakes: seq<Wake>, used: nat, n: nat) {
    n <= used <= |wakes| && forall i :: used - n <= i < used ==> wakes[i].TimedOut?
  }

  /** The last `n` of `used` wake-ups add up to the timeout, together with the polls before if there are no others. */
  predicate TimeIsUp(timeout: real, used: nat, n: nat, polls: nat) {
    (n + if n == used then polls else 0) as real * 0.1 >= timeout
  }

  /**
   What the wait promises: a put is let in only below capacity, at the first wake-up that finds room, and
   gives up exactly when the polls that timed out in a row add up to the timeout.
   */
  lemma {:induction false} AwaitMeaning(maxBuffer: nat, timeout: real, current: nat, polls: nat, wakes: seq<Wake>)
    requires polls as real * 0.1 < timeout
    ensures var (r, used) := Await(maxBuffer, timeout, current, polls, wakes);
            && used <= |wakes|
            && (forall i :: 0 <= i < used - 1 ==> wakes[i].length >= maxBuffer)
            && (r.Admitted? ==> (if used == 0 then current else wakes[used - 1].length) < maxBuffer)
            && (used > 0 ==> current >= maxBuffer)
            && (r.StillWaiting? ==> used == |wakes| && current >= maxBuffer && (used > 0 ==> wakes[used - 1].length >= maxBuffer))
            && (r.GaveUp? ==> exists n: nat :: LastTimedOut(wakes, used, n) && TimeIsUp(timeout, used, n, polls))
            && (!r.GaveUp? ==> forall k: nat, n: nat :: k <= used && LastTimedOut(wakes, k, n) ==> !TimeIsUp(timeout, k, n, polls))
    decreases |wakes|
  {
    if current >= maxBuffer && |wakes| > 0 {
      var next := if wakes[0].Notified? then 0 else polls + 1;
      var more := wakes[1..];
      if next as real * Backpressure.POLL_SECONDS < timeout {
        AwaitMeaning(maxBuffer, timeout, wakes[0].length, next, more);
        var (r, used) := Await(maxBuffer, timeout, wakes[0].length, next, more);
        if r.GaveUp? {
          var n: nat :| LastTimedOut(more, used, n) && TimeIsUp(timeout, used, n, next);
          GaveUpLater(wakes, used, n);
        } else {
          forall k: nat, n: nat | k <= used + 1 && LastTimedOut(wakes, k, n)
            ensures !TimeIsUp(timeout, k, n, polls)
          {
            if k > 0 {
              TimedOutBefore(wakes, k, n);
            }
          }
        }
      } else {
        assert LastTimedOut(wakes, 1, 1);
      }
    }
  }

  lemma GaveUpLater(wakes: seq<Wake>, used: nat, n: nat)
    requires |wakes| > 0 && LastTimedOut(wakes[1..], used, n)
    ensures LastTimedOut(wakes, used + 1, n)
    ensures wakes[0].TimedOut? && n == used ==> LastTimedOut(wakes, used + 1, n + 1)
  {
  }

  lemma TimedOutBefore(wakes: seq<Wake>, k: nat, n: nat)
    requires k > 0 && LastTimedOut(wakes, k, n)
    ensures n < k ==> LastTimedOut(wakes[1..], k - 1, n)
    ensures n == k ==> wakes[0].TimedOut? && LastTimedOut(wakes[1..], k - 1, n - 1)
  {
  }

  function PendingFor(thread: Uuid, checkpoint: Checkpoint, metadata: Metadata, now: int): Pending
    requires checkpoint.id.Some?
  {
    Pending(checkpoint.id.value, thread, checkpoint, metadata,
            if checkpoint.ts.Some? then checkpoint.ts.value else now)
  }

  lemma AtLeastTwo(a: nat, b: nat)
    requires a > 0 && b > 1
    ensures a * b >= 2
  {
  }
}
