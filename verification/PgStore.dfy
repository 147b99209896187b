/**
 The durable layer as a state machine whose steps are the stretches of code between two awaits:
 any number of writers, deletes and the one task that holds the flush lock interleave freely.  The main
 results: at every point of every run a read returns the last put of a thread that is not being deleted,
 no such put is ever missing from both buffer and table, and a read that awaits between its two halves
 returns a value that the thread showed at some moment while it was running.
 */
module PgStore {
  import opened Checkpoints

  /** The `_buffer` dict: pending checkpoints in insertion order, keyed by their own `key`. */
  type Buffer = seq<Pending>

  ghost predicate DistinctKeys(buffer: Buffer) {
    forall i, j :: 0 <= i < j < |buffer| ==> buffer[i].key != buffer[j].key
  }

  /** `self._buffer[p.key] = p`: a present key keeps its position, an absent one goes to the end. */
  function BufferPut(buffer: Buffer, p: Pending): (r: Buffer)
    ensures p in r && forall q :: q in r ==> q == p || q in buffer
    ensures |buffer| <= |r| <= |buffer| + 1
    ensures forall i :: 0 <= i < |buffer| ==> r[i].key == buffer[i].key && (r[i] == p || r[i] == buffer[i])
    ensures (exists i :: 0 <= i < |buffer| && buffer[i].key == p.key) || r == buffer + [p]
    ensures (forall i :: 0 <= i < |buffer| ==> buffer[i].key != p.key) || |r| == |buffer|
  {
    if |buffer| == 0 then [p]
    else if buffer[0].key == p.key then [p] + buffer[1..]
    else
      assert buffer == [buffer[0]] + buffer[1..];
      [buffer[0]] + BufferPut(buffer[1..], p)
  }

  /** The buffered checkpoint of the thread that was inserted last. */
  function LatestBuffered(buffer: Buffer, thread: Uuid): (r: Option<Pending>)
    ensures r.None? <==> forall i :: 0 <= i < |buffer| ==> buffer[i].thread != thread
    ensures r.Some? ==> r.value.thread == thread &&
                        exists i :: && 0 <= i < |buffer| && buffer[i] == r.value
                                    && forall j :: i < j < |buffer| ==> buffer[j].thread != thread
  {
    if |buffer| == 0 then None
    else if buffer[|buffer| - 1].thread == thread then Some(buffer[|buffer| - 1])
    else LatestBuffered(buffer[..|buffer| - 1], thread)
  }

  /** What a read sees when nothing happens between its two halves: buffer first, then the table. */
  ghost function Read(buffer: Buffer, table: Table, thread: Uuid): Option<Pending> {
    if LatestBuffered(buffer, thread).Some? then LatestBuffered(buffer, thread) else LatestRow(table, thread)
  }

  function Min(a: nat, b: nat): nat {
    if a < b then a else b
  }

  /** The first `batchSize` buffered checkpoints, left in the buffer. */
  function Peek(buffer: Buffer, batchSize: nat): seq<Pending> {
    buffer[..Min(batchSize, |buffer|)]
  }

  predicate InBatch(batch: seq<Pending>, key: Uuid) {
    exists i :: 0 <= i < |batch| && batch[i].key == key
  }

  /** `del self._buffer[pending.key]` for every checkpoint of a committed batch. */
  function Forget(buffer: Buffer, batch: seq<Pending>): (r: Buffer)
    ensures forall p :: p in r <==> p in buffer && !InBatch(batch, p.key)
    ensures |r| <= |buffer|
  {
    if |buffer| == 0 then []
    else if InBatch(batch, buffer[0].key) then Forget(buffer[1..], batch)
    else [buffer[0]] + Forget(buffer[1..], batch)
  }

  /** Forgetting the head of the buffer leaves the rest of it. */
  lemma {:induction false} ForgetHead(buffer: Buffer, batch: seq<Pending>, n: nat)
    requires n <= |buffer| && DistinctKeys(buffer)
    requires forall i :: 0 <= i < |buffer| ==> (InBatch(batch, buffer[i].key) <==> i < n)
    ensures Forget(buffer, batch) == buffer[n..]
  {
    hide InBatch;
    if |buffer| > 0 {
      ForgetHead(buffer[1..], batch, if n == 0 then 0 else n - 1);
      if n > 0 {
        assert buffer[1..][n - 1..] == buffer[n..];
      } else {
        assert buffer == [buffer[0]] + buffer[1..];
      }
    }
  }

  function DropThread(buffer: Buffer, thread: Uuid): (r: Buffer)
    ensures forall p :: p in r <==> p in buffer && p.thread != thread
    ensures |r| <= |buffer|
  {
    if |buffer| == 0 then []
    else if buffer[0].thread == thread then DropThread(buffer[1..], thread)
    else [buffer[0]] + DropThread(buffer[1..], thread)
  }

  lemma PutKeepsDistinct(buffer: Buffer, p: Pending)
    requires DistinctKeys(buffer)
    ensures DistinctKeys(BufferPut(buffer, p))
    ensures forall q :: q in buffer && q.key != p.key ==> q in BufferPut(buffer, p)
  {
    var r := BufferPut(buffer, p);
    forall q | q in buffer && q.key != p.key ensures q in r {
      var i :| 0 <= i < |buffer| && buffer[i] == q;
      assert r[i] == q;
    }
  }

  lemma {:induction false} ForgetKeepsDistinct(buffer: Buffer, batch: seq<Pending>)
    requires DistinctKeys(buffer)
    ensures DistinctKeys(Forget(buffer, batch))
  {
    if |buffer| > 0 {
      ForgetKeepsDistinct(buffer[1..], batch);
      var r := Forget(buffer[1..], batch);
      forall i | 0 <= i < |r| ensures r[i].key != buffer[0].key {
        assert r[i] in buffer[1..];
      }
    }
  }

  lemma {:induction false} DropKeepsDistinct(buffer: Buffer, thread: Uuid)
    requires DistinctKeys(buffer)
    ensures DistinctKeys(DropThread(buffer, thread))
  {
    if |buffer| > 0 {
      DropKeepsDistinct(buffer[1..], thread);
      var r := DropThread(buffer[1..], thread);
      forall i | 0 <= i < |r| ensures r[i].key != buffer[0].key {
        assert r[i] in buffer[1..];
      }
    }
  }

  function DropRows(table: Table, thread: Uuid): Table {
    map e | e in table && e.0 != thread :: table[e]
  }

  // ---------------------------------------------------------------- the state machine

  /** The flush lock holder: no statement outstanding, one sent, or one applied and not yet acknowledged. */
  datatype Flight = Idle | Sent(batch: seq<Pending>) | Applied(batch: seq<Pending>)

  datatype Store = Store(buffer: Buffer, table: Table, flight: Flight)

  datatype Step =
    | Put(p: Pending)           // aput stores into the buffer
    | PeekBatch                 // the flusher picks the next chunk and sends it
    | Commit                    // PostgreSQL applies the chunk
    | Reject                    // the statement fails and nothing was applied
    | LoseAck                   // the statement was applied but the client sees an error
    | Acknowledge               // the flusher deletes the committed chunk from the buffer
    | DropBuffered(thread: Uuid) // adelete_thread empties the buffer of the thread
    | DeleteRows(thread: Uuid)   // and, after an await, its DELETE is applied
    | DeleteFails(thread: Uuid)  // or fails and leaves the rows
    | Elsewhere                 // some other part of the system runs

  predicate StoreEnabled(s: Store, step: Step) {
    match step
    case Put(_) => true
    case PeekBatch => s.flight.Idle? && |s.buffer| > 0
    case Commit => s.flight.Sent?
    case Reject => s.flight.Sent?
    case LoseAck => s.flight.Applied?
    case Acknowledge => s.flight.Applied?
    case DropBuffered(t) => s.flight.Idle? || forall i :: 0 <= i < |s.flight.batch| ==> s.flight.batch[i].thread != t
    case DeleteRows(_) => true
    case DeleteFails(_) => true
    case Elsewhere => true
  }

  function StoreNext(batchSize: nat, s: Store, step: Step): Store
    requires StoreEnabled(s, step)
  {
    match step
    case Put(p) => s.(buffer := BufferPut(s.buffer, p))
    case PeekBatch => s.(flight := Sent(Peek(s.buffer, batchSize)))
    case Commit => s.(table := Upsert(s.table, s.flight.batch), flight := Applied(s.flight.batch))
    case Reject => s.(flight := Idle)
    case LoseAck => s.(flight := Idle)
    case Acknowledge => s.(buffer := Forget(s.buffer, s.flight.batch), flight := Idle)
    case DropBuffered(t) => s.(buffer := DropThread(s.buffer, t))
    case DeleteRows(t) => s.(table := DropRows(s.table, t))
    case DeleteFails(_) => s
    case Elsewhere => s
  }

  /** The store with its history: the puts not deleted since, every id ever used, and the threads being deleted. */
  datatype System = System(store: Store, puts: seq<Pending>, used: set<Uuid>, deleting: set<Uuid>)

  /** The plain map that the store implements: the last put of each thread. */
  function LastPut(puts: seq<Pending>, thread: Uuid): (r: Option<Pending>)
    ensures r.None? <==> forall p :: p in puts ==> p.thread != thread
    ensures r.Some? ==> r.value in puts && r.value.thread == thread
  {
    if |puts| == 0 then None
    else if puts[|puts| - 1].thread == thread then Some(puts[|puts| - 1])
    else LastPut(puts[..|puts| - 1], thread)
  }

  /** A failed delete keeps, of the thread's puts, those that had been flushed. */
  function KeepFlushed(puts: seq<Pending>, table: Table, thread: Uuid): (r: seq<Pending>)
    ensures forall p :: p in r <==> p in puts && (p.thread == thread ==> RowIn(table, p))
  {
    if |puts| == 0 then []
    else if puts[0].thread == thread && !RowIn(table, puts[0]) then KeepFlushed(puts[1..], table, thread)
    else [puts[0]] + KeepFlushed(puts[1..], table, thread)
  }

  /**
   Callers use every checkpoint id once, put the checkpoints of a thread in (created_at, id) order, and
   neither put to a thread nor delete it while it is being deleted, nor delete it while a chunk of it is in flight.
   */
  ghost predicate Enabled(s: System, step: Step) {
    && StoreEnabled(s.store, step)
    && match step
       case Put(p) =>
         && p.key !in s.used && p.thread !in s.deleting
         && forall q :: q in s.puts && q.thread == p.thread ==> Older(q, p)
       case DropBuffered(t) => t !in s.deleting
       case DeleteRows(t) => t in s.deleting
       case DeleteFails(t) => t in s.deleting
       case _ => true
  }

  ghost function Next(batchSize: nat, s: System, step: Step): System
    requires Enabled(s, step)
  {
    System(
      StoreNext(batchSize, s.store, step),
      match step {
        case Put(p) => s.puts + [p]
        case DeleteRows(t) => DropThread(s.puts, t)
        case DeleteFails(t) => KeepFlushed(s.puts, s.store.table, t)
        case _ => s.puts },
      if step.Put? then s.used + {step.p.key} else s.used,
      match step {
        case DropBuffered(t) => s.deleting + {t}
        case DeleteRows(t) => s.deleting - {t}
        case DeleteFails(t) => s.deleting - {t}
        case _ => s.deleting })
  }

  // ---------------------------------------------------------------- the invariant

  /** Ids are distinct, and the checkpoints of one thread stand in the order of the table. */
  ghost predicate Ascends(ps: seq<Pending>) {
    && DistinctKeys(ps)
    && forall i, j :: 0 <= i < j < |ps| && ps[i].thread == ps[j].thread ==> Older(ps[i], ps[j])
  }

  /** Every put is in the buffer or in the table, and a put that has left the buffer is older than what is left. */
  ghost predicate PutsPresent(s: System) {
    && (forall p :: p in s.puts && p.thread !in s.deleting ==> p in s.store.buffer || RowIn(s.store.table, p))
    && (forall p, q :: p in s.puts && p !in s.store.buffer && q in s.store.buffer && q.thread == p.thread ==> Older(p, q))
  }

  /** Buffer and table hold nothing but puts, the buffer none of a thread being deleted. */
  ghost predicate OnlyPuts(s: System) {
    && (forall p :: p in s.store.buffer ==> p in s.puts && p.thread !in s.deleting)
    && (forall e :: e in s.store.table ==> PendingOf(e.0, e.1, s.store.table[e]) in s.puts)
  }

  /** The outstanding chunk is the head of the buffer; once applied it is in the table. */
  ghost predicate FlightIsHead(s: Store) {
    s.flight.Idle? ||
    (&& 0 < |s.flight.batch| <= |s.buffer|
     && s.flight.batch == s.buffer[..|s.flight.batch|]
     && (s.flight.Applied? ==> forall i :: 0 <= i < |s.flight.batch| ==> RowIn(s.table, s.flight.batch[i])))
  }

  ghost predicate Inv(s: System) {
    && Ascends(s.store.buffer)
    && Ascends(s.puts) && (forall p :: p in s.puts ==> p.key in s.used)
    && PutsPresent(s) && OnlyPuts(s) && FlightIsHead(s.store)
  }

  const Empty := System(Store([], map[], Idle), [], {}, {})

  lemma EmptyInv()
    ensures Inv(Empty)
  {
  }

  lemma AppendAscends(ps: seq<Pending>, p: Pending)
    requires Ascends(ps)
    requires forall q :: q in ps ==> q.key != p.key && (q.thread == p.thread ==> Older(q, p))
    ensures Ascends(ps + [p])
  {
  }

  /** A fresh id goes to the end of the buffer. */
  lemma PutAppends(s: System, p: Pending)
    requires Inv(s) && p.key !in s.used
    ensures BufferPut(s.store.buffer, p) == s.store.buffer + [p]
  {
  }

  lemma PutKeepsInv(batchSize: nat, s: System, p: Pending)
    requires Inv(s) && Enabled(s, Put(p))
    ensures Inv(Next(batchSize, s, Put(p)))
  {
    PutAppends(s, p);
    AppendAscends(s.store.buffer, p);
    AppendAscends(s.puts, p);
    if !s.store.flight.Idle? {
      var n := |s.store.flight.batch|;
      assert (s.store.buffer + [p])[..n] == s.store.buffer[..n];
    }
  }

  lemma PeekKeepsInv(batchSize: nat, s: System)
    requires batchSize > 0 && Inv(s) && Enabled(s, PeekBatch)
    ensures Inv(Next(batchSize, s, PeekBatch))
  {
  }

  lemma HeadIsSubset(buffer: Buffer, n: nat)
    requires n <= |buffer| && Ascends(buffer)
    ensures forall p :: p in buffer[..n] ==> p in buffer
    ensures DistinctRows(buffer[..n])
  {
  }

  lemma CommitKeepsInv(batchSize: nat, s: System)
    requires Inv(s) && Enabled(s, Commit)
    ensures Inv(Next(batchSize, s, Commit))
  {
    var batch := s.store.flight.batch;
    var after := Upsert(s.store.table, batch);
    HeadIsSubset(s.store.buffer, |batch|);
    forall e | e in after ensures PendingOf(e.0, e.1, after[e]) in s.puts {
      UpsertRow(s.store.table, batch, e);
      if i :| 0 <= i < |batch| && (batch[i].thread, batch[i].key) == e {
        assert batch[i] in batch;
      }
    }
    forall p | p in s.puts && RowIn(s.store.table, p) ensures RowIn(after, p) {
      CommitKeepsRow(s, p);
    }
    forall i | 0 <= i < |batch| ensures RowIn(after, batch[i]) {
      UpsertRow(s.store.table, batch, (batch[i].thread, batch[i].key));
    }
  }

  /** Applying a chunk never changes a row that is already there. */
  lemma CommitKeepsRow(s: System, p: Pending)
    requires Inv(s) && s.store.flight.Sent? && p in s.puts && RowIn(s.store.table, p)
    ensures RowIn(Upsert(s.store.table, s.store.flight.batch), p)
  {
    var batch := s.store.flight.batch;
    HeadIsSubset(s.store.buffer, |batch|);
    UpsertRow(s.store.table, batch, (p.thread, p.key));
    if i :| 0 <= i < |batch| && (batch[i].thread, batch[i].key) == (p.thread, p.key) {
      assert batch[i] in batch;
      SamePut(s.puts, batch[i], p);
    }
  }

  lemma SamePut(puts: seq<Pending>, p: Pending, q: Pending)
    requires Ascends(puts) && p in puts && q in puts && p.key == q.key
    ensures p == q
  {
  }

  lemma AcknowledgeDropsHead(s: Store)
    requires Ascends(s.buffer) && FlightIsHead(s) && s.flight.Applied?
    ensures Forget(s.buffer, s.flight.batch) == s.buffer[|s.flight.batch|..]
  {
    var n := |s.flight.batch|;
    forall i | 0 <= i < |s.buffer| ensures InBatch(s.flight.batch, s.buffer[i].key) <==> i < n {
      if i < n { assert s.flight.batch[i].key == s.buffer[i].key; }
    }
    ForgetHead(s.buffer, s.flight.batch, n);
  }

  lemma DroppingHeadKeepsPuts(s: System, n: System)
    requires Inv(s) && s.store.flight.Applied?
    requires n == s.(store := Store(s.store.buffer[|s.store.flight.batch|..], s.store.table, Idle))
    ensures PutsPresent(n) && OnlyPuts(n)
  {
  }

  lemma TailAscends(ps: seq<Pending>, k: nat)
    requires Ascends(ps) && k <= |ps|
    ensures Ascends(ps[k..])
  {
  }

  lemma AcknowledgeKeepsInv(batchSize: nat, s: System)
    requires Inv(s) && Enabled(s, Acknowledge)
    ensures Inv(Next(batchSize, s, Acknowledge))
  {
    var k := |s.store.flight.batch|;
    AcknowledgeDropsHead(s.store);
    TailAscends(s.store.buffer, k);
    DroppingHeadKeepsPuts(s, Next(batchSize, s, Acknowledge));
  }

  lemma {:induction false} DropThreadAscends(ps: seq<Pending>, thread: Uuid)
    requires Ascends(ps)
    ensures Ascends(DropThread(ps, thread))
  {
    if |ps| > 0 {
      DropThreadAscends(ps[1..], thread);
      var r := DropThread(ps[1..], thread);
      forall i | 0 <= i < |r|
        ensures r[i].key != ps[0].key && (r[i].thread == ps[0].thread ==> Older(ps[0], r[i]))
      {
        assert r[i] in ps[1..];
      }
    }
  }

  lemma {:induction false} KeepFlushedAscends(ps: seq<Pending>, table: Table, thread: Uuid)
    requires Ascends(ps)
    ensures Ascends(KeepFlushed(ps, table, thread))
  {
    if |ps| > 0 {
      KeepFlushedAscends(ps[1..], table, thread);
      var r := KeepFlushed(ps[1..], table, thread);
      forall i | 0 <= i < |r|
        ensures r[i].key != ps[0].key && (r[i].thread == ps[0].thread ==> Older(ps[0], r[i]))
      {
        assert r[i] in ps[1..];
      }
    }
  }

  /** Dropping a thread of which the head holds nothing leaves the head. */
  lemma {:induction false} DropKeepsHead(head: seq<Pending>, tail: seq<Pending>, thread: Uuid)
    requires forall p :: p in head ==> p.thread != thread
    ensures DropThread(head + tail, thread) == head + DropThread(tail, thread)
  {
    if |head| == 0 {
      assert head + tail == tail && head + DropThread(tail, thread) == DropThread(tail, thread);
    } else {
      var h, rest := head[0], head[1..];
      assert h in head && head == [h] + rest;
      assert (head + tail)[0] == h && (head + tail)[1..] == rest + tail;
      DropKeepsHead(rest, tail, thread);
      assert [h] + (rest + DropThread(tail, thread)) == [h] + rest + DropThread(tail, thread);
    }
  }

  /** The chunk in flight stays the head of the buffer when a thread it does not hold is dropped. */
  lemma DropKeepsFlight(s: Store, thread: Uuid)
    requires FlightIsHead(s) && StoreEnabled(s, DropBuffered(thread))
    ensures FlightIsHead(s.(buffer := DropThread(s.buffer, thread)))
  {
    hide DropThread;
    if !s.flight.Idle? {
      var batch, tail := s.flight.batch, s.buffer[|s.flight.batch|..];
      assert s.buffer == batch + tail;
      DropKeepsHead(batch, tail, thread);
      assert (batch + DropThread(tail, thread))[..|batch|] == batch;
    }
  }

  lemma DropBufferedKeepsInv(batchSize: nat, s: System, thread: Uuid)
    requires Inv(s) && Enabled(s, DropBuffered(thread))
    ensures Inv(Next(batchSize, s, DropBuffered(thread)))
  {
    hide DropThread, BufferPut, Forget, Ascends, FlightIsHead;
    DropThreadAscends(s.store.buffer, thread);
    DropKeepsFlight(s.store, thread);
  }

  lemma DeleteRowsKeepsInv(batchSize: nat, s: System, thread: Uuid)
    requires Inv(s) && Enabled(s, DeleteRows(thread))
    ensures Inv(Next(batchSize, s, DeleteRows(thread)))
  {
    DropThreadAscends(s.puts, thread);
    var n := Next(batchSize, s, DeleteRows(thread));
    forall p | p in s.puts && p.thread != thread && RowIn(s.store.table, p) ensures RowIn(n.store.table, p) {
    }
    if !s.store.flight.Idle? {
      forall i | 0 <= i < |s.store.flight.batch| ensures s.store.flight.batch[i].thread != thread {
        assert s.store.flight.batch[i] == s.store.buffer[i] && s.store.buffer[i] in s.store.buffer;
      }
    }
    hide DropThread, Ascends;
  }

  lemma DeleteFailsKeepsInv(batchSize: nat, s: System, thread: Uuid)
    requires Inv(s) && Enabled(s, DeleteFails(thread))
    ensures Inv(Next(batchSize, s, DeleteFails(thread)))
  {
    KeepFlushedAscends(s.puts, s.store.table, thread);
  }

  /** Every step of every writer and of the flusher keeps the invariant. */
  lemma StepKeepsInv(batchSize: nat, s: System, step: Step)
    requires batchSize > 0 && Inv(s) && Enabled(s, step)
    ensures Inv(Next(batchSize, s, step))
  {
    match step
    case Put(p) => PutKeepsInv(batchSize, s, p);
    case PeekBatch => PeekKeepsInv(batchSize, s);
    case Commit => CommitKeepsInv(batchSize, s);
    case Reject =>
    case LoseAck =>
    case Acknowledge => AcknowledgeKeepsInv(batchSize, s);
    case DropBuffered(t) => DropBufferedKeepsInv(batchSize, s, t);
    case DeleteRows(t) => DeleteRowsKeepsInv(batchSize, s, t);
    case DeleteFails(t) => DeleteFailsKeepsInv(batchSize, s, t);
    case Elsewhere =>
  }

  // ---------------------------------------------------------------- reads

  lemma {:induction false} LastPutIsNewest(puts: seq<Pending>, p: Pending)
    requires Ascends(puts) && p in puts
    ensures LastPut(puts, p.thread).Some?
    ensures p == LastPut(puts, p.thread).value || Older(p, LastPut(puts, p.thread).value)
  {
    var n := |puts| - 1;
    if puts[n].thread != p.thread {
      assert puts == puts[..n] + [puts[n]];
      LastPutIsNewest(puts[..n], p);
    }
  }

  lemma BufferedIsNewest(buffer: Buffer, p: Pending)
    requires Ascends(buffer) && p in buffer
    ensures var q := LatestBuffered(buffer, p.thread);
            q.Some? && q.value in buffer && (q.value == p || Older(p, q.value))
  {
  }

  lemma BufferedReadIsLastPut(s: System, thread: Uuid)
    requires Inv(s) && LatestBuffered(s.store.buffer, thread).Some?
    ensures LatestBuffered(s.store.buffer, thread) == LastPut(s.puts, thread)
  {
    hide LatestBuffered, LastPut, Ascends;
    var q := LatestBuffered(s.store.buffer, thread).value;
    assert q in s.store.buffer && q.thread == thread;
    LastPutIsNewest(s.puts, q);
    var last := LastPut(s.puts, thread).value;
    if last in s.store.buffer {
      BufferedIsNewest(s.store.buffer, last);
    }
  }

  lemma TableReadIsLastPut(s: System, thread: Uuid)
    requires Inv(s) && LatestBuffered(s.store.buffer, thread).None? && thread !in s.deleting
    ensures LatestRow(s.store.table, thread) == LastPut(s.puts, thread)
  {
    var table, last := s.store.table, LastPut(s.puts, thread);
    if last.Some? {
      assert last.value !in s.store.buffer;
      forall k | (thread, k) in table && k != last.value.key
        ensures Older(PendingOf(thread, k, table[(thread, k)]), last.value)
      {
        LastPutIsNewest(s.puts, PendingOf(thread, k, table[(thread, k)]));
      }
      LatestRowIs(table, thread, last.value);
    } else {
      forall k ensures (thread, k) !in table {
        assert (thread, k) in table ==> PendingOf(thread, k, table[(thread, k)]) in s.puts;
      }
    }
  }

  /** In every reachable state a read that is not interrupted returns exactly the last put of a thread not being deleted. */
  lemma ReadIsLastPut(s: System, thread: Uuid)
    requires Inv(s) && thread !in s.deleting
    ensures Read(s.store.buffer, s.store.table, thread) == LastPut(s.puts, thread)
  {
    if LatestBuffered(s.store.buffer, thread).Some? {
      BufferedReadIsLastPut(s, thread);
    } else {
      TableReadIsLastPut(s, thread);
    }
  }

  /**
   While a thread is being deleted a read sees its newest row.  That is stale, neither the last put nor
   nothing, exactly when the table still holds a row of the thread and its last put is not one of them.
   */
  lemma DeletingRead(s: System, thread: Uuid)
    requires Inv(s) && thread in s.deleting
    ensures var r := Read(s.store.buffer, s.store.table, thread);
            && LatestBuffered(s.store.buffer, thread).None? && r == LatestRow(s.store.table, thread)
            && (r != None && r != LastPut(s.puts, thread) <==>
                  && (exists k :: (thread, k) in s.store.table)
                  && !RowIn(s.store.table, LastPut(s.puts, thread).value))
  {
    NoneBuffered(s, thread);
    var r := LatestRow(s.store.table, thread);
    if r.Some? {
      RowIsPut(s, thread, r.value);
      LastPutIsNewest(s.puts, r.value);
      hide Inv, LatestBuffered, LastPut;
      assert RowIn(s.store.table, r.value) && IsLatestRow(s.store.table, thread, r.value);
    }
  }

  lemma NoneBuffered(s: System, thread: Uuid)
    requires Inv(s) && thread in s.deleting
    ensures LatestBuffered(s.store.buffer, thread).None?
  {
    forall i | 0 <= i < |s.store.buffer| ensures s.store.buffer[i].thread != thread {
      assert s.store.buffer[i] in s.store.buffer;
    }
  }

  lemma RowIsPut(s: System, thread: Uuid, p: Pending)
    requires Inv(s) && p.thread == thread && RowIn(s.store.table, p)
    ensures p in s.puts && Ascends(s.puts)
  {
    assert PendingOf(thread, p.key, s.store.table[(thread, p.key)]) in s.puts;
  }

  // ---------------------------------------------------------------- runs

  /** `run[i + 1]` follows from `run[i]` by `steps[i]`. */
  ghost predicate IsRun(batchSize: nat, run: seq<System>, steps: seq<Step>) {
    && |run| == |steps| + 1
    && forall i :: 0 <= i < |steps| ==> Enabled(run[i], steps[i]) && run[i + 1] == Next(batchSize, run[i], steps[i])
  }

  lemma {:induction false} RunKeepsInv(batchSize: nat, run: seq<System>, steps: seq<Step>, i: nat)
    requires batchSize > 0 && IsRun(batchSize, run, steps) && Inv(run[0]) && i < |run|
    ensures Inv(run[i])
    decreases i
  {
    if i > 0 {
      RunKeepsInv(batchSize, run, steps, i - 1);
      StepKeepsInv(batchSize, run[i - 1], steps[i - 1]);
    }
  }

  /**
   Refinement: along every run from the empty store every read of a thread not being deleted is a read of
   the plain map, and none of its puts is missing; of a thread being deleted a read sees the newest row.
   */
  lemma RunRefinesPlainMap(batchSize: nat, run: seq<System>, steps: seq<Step>, i: nat, thread: Uuid)
    requires batchSize > 0 && IsRun(batchSize, run, steps) && run[0] == Empty && i < |run|
    ensures Read(run[i].store.buffer, run[i].store.table, thread) ==
            if thread in run[i].deleting then LatestRow(run[i].store.table, thread) else LastPut(run[i].puts, thread)
    ensures forall p :: p in run[i].puts && p.thread !in run[i].deleting ==>
              p in run[i].store.buffer || RowIn(run[i].store.table, p)
  {
    EmptyInv();
    RunKeepsInv(batchSize, run, steps, i);
    if thread in run[i].deleting {
      NoneBuffered(run[i], thread);
    } else {
      ReadIsLastPut(run[i], thread);
    }
  }

  /** What a thread shows: its last put, or, while it is being deleted, its newest row. */
  ghost predicate Shows(s: System, thread: Uuid, r: Option<Pending>) {
    LastPut(s.puts, thread) == r || (thread in s.deleting && LatestRow(s.store.table, thread) == r)
  }

  /** The thread showed `r` in some state from `i` to `j`. */
  ghost predicate WasShown(run: seq<System>, i: nat, j: nat, thread: Uuid, r: Option<Pending>)
    requires j < |run|
  {
    exists k :: i <= k <= j && Shows(run[k], thread, r)
  }

  lemma WasShownLater(run: seq<System>, i: nat, j: nat, thread: Uuid, r: Option<Pending>)
    requires j + 1 < |run| && WasShown(run, i, j, thread, r)
    ensures WasShown(run, i, j + 1, thread, r)
  {
  }

  /** Whatever of the thread is buffered at `j` but was not at `i` was the last put somewhere in between. */
  lemma {:induction false} BufferedWasShown(
    batchSize: nat, run: seq<System>, steps: seq<Step>, i: nat, j: nat, thread: Uuid, p: Pending)
    requires IsRun(batchSize, run, steps) && i <= j < |run|
    requires LatestBuffered(run[i].store.buffer, thread).None?
    requires p.thread == thread && p in run[j].store.buffer
    ensures WasShown(run, i, j, thread, Some(p))
    decreases j
  {
    hide Next, Enabled, LatestRow, Shows;
    assert i < j;
    assert run[j - 1 + 1] == Next(batchSize, run[j - 1], steps[j - 1]);
    BufferedBefore(batchSize, run[j - 1], steps[j - 1], p);
    if p in run[j - 1].store.buffer {
      BufferedWasShown(batchSize, run, steps, i, j - 1, thread, p);
      WasShownLater(run, i, j - 1, thread, Some(p));
    } else {
      PutIsShown(batchSize, run[j - 1], p);
      hide IsRun, LatestBuffered;
      assert Shows(run[j], thread, Some(p));
    }
  }

  lemma PutIsShown(batchSize: nat, s: System, p: Pending)
    requires Enabled(s, Put(p))
    ensures Shows(Next(batchSize, s, Put(p)), p.thread, Some(p))
  {
  }

  /** What is buffered after a step was buffered before it, or was just put. */
  lemma BufferedBefore(batchSize: nat, s: System, step: Step, p: Pending)
    requires Enabled(s, step) && p in Next(batchSize, s, step).store.buffer
    ensures p in s.store.buffer || step == Put(p)
  {
  }

  lemma SameRowsSameLatest(before: Table, after: Table, thread: Uuid)
    requires forall k :: (thread, k) in before <==> (thread, k) in after
    requires forall k :: (thread, k) in before ==> before[(thread, k)] == after[(thread, k)]
    ensures LatestRow(before, thread) == LatestRow(after, thread)
  {
  }

  /** Applying a chunk leaves the thread's newest row alone or makes it a row of the chunk. */
  lemma CommitReads(s: System, thread: Uuid)
    requires Inv(s) && s.store.flight.Sent?
    ensures var r := LatestRow(Upsert(s.store.table, s.store.flight.batch), thread);
            r == LatestRow(s.store.table, thread) || (r.Some? && r.value.thread == thread && r.value in s.store.buffer)
  {
    var before, batch := s.store.table, s.store.flight.batch;
    var after := Upsert(before, batch);
    HeadIsSubset(s.store.buffer, |batch|);
    var r := LatestRow(after, thread);
    if r.Some? {
      UpsertRow(before, batch, (thread, r.value.key));
      if x :| 0 <= x < |batch| && (batch[x].thread, batch[x].key) == (thread, r.value.key) {
        assert batch[x] in batch && r.value == batch[x];
      } else {
        forall k | (thread, k) in before && k != r.value.key
          ensures Older(PendingOf(thread, k, before[(thread, k)]), r.value)
        {
          CommitKeepsRow(s, PendingOf(thread, k, before[(thread, k)]));
        }
        LatestRowIs(before, thread, r.value);
      }
    }
  }

  /** How one step can change the thread's newest row. */
  ghost predicate RowChange(s: System, n: System, thread: Uuid) {
    var r := LatestRow(n.store.table, thread);
    || r == LatestRow(s.store.table, thread)
    || (r.Some? && r.value.thread == thread && r.value in n.store.buffer)
    || (r.None? && LastPut(n.puts, thread).None?)
  }

  /** The table read of the second half of `aget`, by induction over the steps since the first half. */
  lemma {:induction false} TableReadWasShown(
    batchSize: nat, run: seq<System>, steps: seq<Step>, i: nat, j: nat, thread: Uuid)
    requires IsRun(batchSize, run, steps) && i <= j < |run|
    requires LatestBuffered(run[i].store.buffer, thread).None?
    requires WasShown(run, i, i, thread, LatestRow(run[i].store.table, thread))
    requires forall k :: i <= k < j ==> RowChange(run[k], run[k + 1], thread)
    ensures WasShown(run, i, j, thread, LatestRow(run[j].store.table, thread))
    decreases j
  {
    hide IsRun, RowChange, LatestBuffered, LatestRow, WasShown;
    if i < j {
      TableReadWasShown(batchSize, run, steps, i, j - 1, thread);
      assert RowChange(run[j - 1], run[j - 1 + 1], thread);
      TableReadStep(batchSize, run, steps, i, j, thread);
    }
  }

  lemma TableReadIsLast(batchSize: nat, run: seq<System>, steps: seq<Step>, i: nat, thread: Uuid)
    requires batchSize > 0 && IsRun(batchSize, run, steps) && Inv(run[0]) && i < |run|
    requires LatestBuffered(run[i].store.buffer, thread).None?
    ensures WasShown(run, i, i, thread, LatestRow(run[i].store.table, thread))
  {
    RunKeepsInv(batchSize, run, steps, i);
    if thread !in run[i].deleting {
      TableReadIsLastPut(run[i], thread);
    }
    assert Shows(run[i], thread, LatestRow(run[i].store.table, thread));
  }

  lemma TableReadStep(batchSize: nat, run: seq<System>, steps: seq<Step>, i: nat, j: nat, thread: Uuid)
    requires IsRun(batchSize, run, steps) && i < j < |run|
    requires LatestBuffered(run[i].store.buffer, thread).None?
    requires WasShown(run, i, j - 1, thread, LatestRow(run[j - 1].store.table, thread))
    requires RowChange(run[j - 1], run[j], thread)
    ensures WasShown(run, i, j, thread, LatestRow(run[j].store.table, thread))
  {
    var r := LatestRow(run[j].store.table, thread);
    if r == LatestRow(run[j - 1].store.table, thread) {
      WasShownLater(run, i, j - 1, thread, r);
    } else if r.Some? {
      BufferedWasShown(batchSize, run, steps, i, j, thread, r.value);
    } else {
      assert Shows(run[j], thread, r);
    }
  }

  lemma RunStepReads(batchSize: nat, run: seq<System>, steps: seq<Step>, i: nat, thread: Uuid)
    requires batchSize > 0 && IsRun(batchSize, run, steps) && Inv(run[0]) && i < |steps|
    ensures RowChange(run[i], run[i + 1], thread)
  {
    RunKeepsInv(batchSize, run, steps, i);
    StepReads(batchSize, run[i], steps[i], thread);
  }

  lemma StepReads(batchSize: nat, s: System, step: Step, thread: Uuid)
    requires Inv(s) && Enabled(s, step)
    ensures RowChange(s, Next(batchSize, s, step), thread)
  {
    match step
    case Commit => CommitReads(s, thread);
    case DeleteRows(t) =>
      if t != thread {
        SameRowsSameLatest(s.store.table, DropRows(s.store.table, t), thread);
      }
    case _ =>
  }

  /**
   Linearizability of `aget`: its buffer half runs in state `i`, its table half, after an await, in
   state `j`; whatever runs in between, the thread showed the answer at some moment from i to j.
   */
  lemma AgetIsLinearizable(batchSize: nat, run: seq<System>, steps: seq<Step>, i: nat, j: nat, thread: Uuid)
    requires batchSize > 0 && IsRun(batchSize, run, steps) && run[0] == Empty && i <= j < |run|
    ensures var pending := LatestBuffered(run[i].store.buffer, thread);
            WasShown(run, i, j, thread, if pending.Some? then pending else LatestRow(run[j].store.table, thread))
  {
    EmptyInv();
    RunKeepsInv(batchSize, run, steps, i);
    if LatestBuffered(run[i].store.buffer, thread).Some? {
      BufferedReadIsLastPut(run[i], thread);
      assert Shows(run[i], thread, LatestBuffered(run[i].store.buffer, thread));
    } else {
      TableReadIsLast(batchSize, run, steps, i, thread);
      forall k | i <= k < j ensures RowChange(run[k], run[k + 1], thread) {
        RunStepReads(batchSize, run, steps, k, thread);
      }
      TableReadWasShown(batchSize, run, steps, i, j, thread);
    }
  }

  /** For a thread that is not deleted meanwhile, the answer was its last put at some moment from i to j. */
  lemma AgetReturnsLastPut(batchSize: nat, run: seq<System>, steps: seq<Step>, i: nat, j: nat, thread: Uuid)
    requires batchSize > 0 && IsRun(batchSize, run, steps) && run[0] == Empty && i <= j < |run|
    requires forall k :: i <= k <= j ==> thread !in run[k].deleting
    ensures var pending := LatestBuffered(run[i].store.buffer, thread);
            var r := if pending.Some? then pending else LatestRow(run[j].store.table, thread);
            exists k :: i <= k <= j && LastPut(run[k].puts, thread) == r
  {
    hide IsRun, LatestBuffered, LatestRow, LastPut;
    AgetIsLinearizable(batchSize, run, steps, i, j, thread);
  }

  // ---------------------------------------------------------------- one flush without interference

  /** How PostgreSQL answers one statement. */
  datatype Outcome = Committed | Failed | FailedAfterCommit

  datatype Drained = Drained(buffer: Buffer, table: Table, ok: bool)

  /** `_flush`: chunk after chunk until the buffer is empty or a statement fails; `outcome(i)` answers the i-th one. */
  function Drain(batchSize: nat, buffer: Buffer, table: Table, outcome: nat -> Outcome, i: nat): (r: Drained)
    requires batchSize > 0
    ensures r.ok ==> r.buffer == []
    ensures |r.buffer| <= |buffer|
    decreases |buffer|
  {
    if |buffer| == 0 then Drained(buffer, table, true)
    else
      var batch := Peek(buffer, batchSize);
      match outcome(i)
      case Failed => Drained(buffer, table, false)
      case FailedAfterCommit => Drained(buffer, Upsert(table, batch), false)
      case Committed =>
        ForgetShrinks(buffer, batch);
        Drain(batchSize, Forget(buffer, batch), Upsert(table, batch), outcome, i + 1)
  }

  lemma {:induction false} ForgetShrinks(buffer: Buffer, batch: seq<Pending>)
    requires |buffer| > 0 && |batch| > 0 && batch[0] == buffer[0]
    ensures |Forget(buffer, batch)| < |buffer|
  {
  }

  predicate IsFlusherStep(step: Step) {
    step.PeekBatch? || step.Commit? || step.Reject? || step.LoseAck? || step.Acknowledge?
  }

  /** No step of the flusher changes what a read of any thread returns, deleted ones included. */
  lemma FlusherKeepsRead(batchSize: nat, s: System, step: Step, thread: Uuid)
    requires batchSize > 0 && Inv(s) && Enabled(s, step) && IsFlusherStep(step)
    ensures var n := Next(batchSize, s, step);
            Inv(n) && Read(n.store.buffer, n.store.table, thread) == Read(s.store.buffer, s.store.table, thread)
  {
    StepKeepsInv(batchSize, s, step);
    var n := Next(batchSize, s, step);
    if thread !in s.deleting {
      ReadIsLastPut(s, thread);
      ReadIsLastPut(n, thread);
    } else {
      NoneBuffered(s, thread);
      NoneBuffered(n, thread);
      if step.Commit? {
        CommitKeepsOtherRows(s, thread);
      }
    }
    hide Inv, LatestBuffered, LatestRow, LastPut, Forget, Upsert;
  }

  lemma CommitKeepsOtherRows(s: System, thread: Uuid)
    requires Inv(s) && thread in s.deleting && s.store.flight.Sent?
    ensures LatestRow(Upsert(s.store.table, s.store.flight.batch), thread) == LatestRow(s.store.table, thread)
  {
    var batch := s.store.flight.batch;
    var after := Upsert(s.store.table, batch);
    HeadIsSubset(s.store.buffer, |batch|);
    forall i | 0 <= i < |batch| ensures batch[i].thread != thread {
      assert batch[i] in batch;
    }
    forall k: Uuid ensures ((thread, k) in s.store.table <==> (thread, k) in after) &&
                           ((thread, k) in after ==> s.store.table[(thread, k)] == after[(thread, k)])
    {
      UpsertRow(s.store.table, batch, (thread, k));
    }
    SameRowsSameLatest(s.store.table, after, thread);
  }

  /** From an idle flusher, picking, committing and acknowledging a chunk moves exactly the head of the buffer into the table. */
  lemma ChunkMovesHead(batchSize: nat, s: System)
    requires batchSize > 0 && Inv(s) && s.store.flight.Idle? && s.store.buffer != []
    ensures var n := if |s.store.buffer| < batchSize then |s.store.buffer| else batchSize;
            && Enabled(s, PeekBatch)
            && (var sent := Next(batchSize, s, PeekBatch);
                && sent.store == s.store.(flight := Sent(s.store.buffer[..n])) && Enabled(sent, Commit)
                && (var applied := Next(batchSize, sent, Commit);
                    && applied.store == Store(s.store.buffer, Upsert(s.store.table, s.store.buffer[..n]), Applied(s.store.buffer[..n]))
                    && Enabled(applied, Acknowledge)
                    && Next(batchSize, applied, Acknowledge).store ==
                       Store(s.store.buffer[n..], Upsert(s.store.table, s.store.buffer[..n]), Idle)))
  {
    hide Upsert, LastPut, DropThread, KeepFlushed, BufferPut, InBatch, Forget;
    ForgetPeeked(s.store.buffer, batchSize);
    hide Inv, DistinctKeys;
  }

  /** A flush, however it ends, is a run of the state machine: it keeps the invariant and changes no read. */
  lemma {:induction false} DrainKeepsReads(
    batchSize: nat, s: System, outcome: nat -> Outcome, i: nat, thread: Uuid)
    requires batchSize > 0 && Inv(s) && s.store.flight.Idle?
    ensures var d := Drain(batchSize, s.store.buffer, s.store.table, outcome, i);
            && Inv(s.(store := Store(d.buffer, d.table, Idle)))
            && Read(d.buffer, d.table, thread) == Read(s.store.buffer, s.store.table, thread)
    decreases |s.store.buffer|
  {
    hide Inv, Read, Forget, Upsert, BufferPut;
    if |s.store.buffer| > 0 {
      FlusherKeepsRead(batchSize, s, PeekBatch, thread);
      var sent := Next(batchSize, s, PeekBatch);
      if !outcome(i).Failed? {
        FlusherKeepsRead(batchSize, sent, Commit, thread);
        var applied := Next(batchSize, sent, Commit);
        if outcome(i).FailedAfterCommit? {
          FlusherKeepsRead(batchSize, applied, LoseAck, thread);
        } else {
          FlusherKeepsRead(batchSize, applied, Acknowledge, thread);
          ForgetShrinks(s.store.buffer, sent.store.flight.batch);
          DrainKeepsReads(batchSize, Next(batchSize, applied, Acknowledge), outcome, i + 1, thread);
        }
      }
    }
  }

  /** How many chunks of at most `c` items `n` items take. */
  function Chunks(n: nat, c: nat): nat
    requires c > 0
  {
    if n == 0 then 0 else 1 + Chunks(n - Min(c, n), c)
  }

  /** It is n / c rounded up. */
  lemma {:induction false} ChunksRoundsUp(n: nat, c: nat)
    requires c > 0
    ensures n <= Chunks(n, c) * c < n + c
  {
    if n > c {
      ChunksRoundsUp(n - c, c);
      assert Chunks(n, c) * c == Chunks(n - c, c) * c + c;
    } else if n > 0 {
      assert Chunks(n, c) == 1 + Chunks(0, c) == 1;
    }
  }

  lemma ForgetPeeked(buffer: Buffer, batchSize: nat)
    requires DistinctKeys(buffer)
    ensures Forget(buffer, Peek(buffer, batchSize)) == buffer[Min(batchSize, |buffer|)..]
  {
    var n, batch := Min(batchSize, |buffer|), Peek(buffer, batchSize);
    forall k | 0 <= k < |buffer| ensures InBatch(batch, buffer[k].key) <==> k < n {
      if k < n { assert batch[k].key == buffer[k].key; }
    }
    ForgetHead(buffer, batch, n);
  }

  /** When every statement commits, a flush empties the buffer, in one statement per chunk. */
  lemma {:induction false} DrainEmptiesBuffer(batchSize: nat, buffer: Buffer, table: Table, outcome: nat -> Outcome, i: nat)
    requires batchSize > 0 && DistinctKeys(buffer)
    requires forall k :: i <= k < i + Chunks(|buffer|, batchSize) ==> outcome(k) == Committed
    ensures Drain(batchSize, buffer, table, outcome, i) == Drained([], Upsert(table, buffer), true)
    decreases |buffer|
  {
    hide Forget, InBatch, BufferPut, LatestBuffered;
    if |buffer| > 0 {
      var n := Min(batchSize, |buffer|);
      var batch := Peek(buffer, batchSize);
      ForgetPeeked(buffer, batchSize);
      DrainEmptiesBuffer(batchSize, buffer[n..], Upsert(table, batch), outcome, i + 1);
      UpsertConcat(table, batch, buffer[n..]);
      assert buffer == batch + buffer[n..];
    }
  }

  lemma {:induction false} UpsertConcat(table: Table, a: seq<Pending>, b: seq<Pending>)
    ensures Upsert(table, a + b) == Upsert(Upsert(table, a), b)
    decreases |a|
  {
    if |a| == 0 {
      assert a + b == b;
    } else {
      assert (a + b)[1..] == a[1..] + b;
      UpsertConcat(table[(a[0].thread, a[0].key) := RowOf(a[0])], a[1..], b);
    }
  }

  predicate RowBuffered(buffer: Buffer, e: (Uuid, Uuid)) {
    exists i :: 0 <= i < |buffer| && (buffer[i].thread, buffer[i].key) == e
  }

  /** Everything else of the thread, buffered or stored, is older than `q`. */
  ghost predicate NewestOfThread(buffer: Buffer, table: Table, thread: Uuid, q: Pending) {
    && (forall p :: p in buffer && p.thread == thread && p.key != q.key ==> Older(p, q))
    && (forall k :: (thread, k) in table && !RowBuffered(buffer, (thread, k)) ==>
          Older(PendingOf(thread, k, table[(thread, k)]), q))
  }

  /**
   Without the ordering of puts: a complete flush keeps what a read of the thread returns if and only
   if the checkpoint buffered last is newer than everything else the thread has buffered or stored.
   */
  lemma FlushKeepsReadIff(buffer: Buffer, table: Table, thread: Uuid)
    requires DistinctKeys(buffer) && LatestBuffered(buffer, thread).Some?
    ensures LatestRow(Upsert(table, buffer), thread) == LatestBuffered(buffer, thread) <==>
            NewestOfThread(buffer, table, thread, LatestBuffered(buffer, thread).value)
  {
    var q := LatestBuffered(buffer, thread).value;
    if NewestOfThread(buffer, table, thread, q) {
      NewestIsLatest(buffer, table, thread, q);
    } else if LatestRow(Upsert(table, buffer), thread) == Some(q) {
      LatestIsNewest(buffer, table, thread, q);
    }
  }

  lemma FlushedRow(buffer: Buffer, table: Table, e: (Uuid, Uuid))
    requires DistinctKeys(buffer)
    ensures forall i :: 0 <= i < |buffer| && (buffer[i].thread, buffer[i].key) == e ==> RowIn(Upsert(table, buffer), buffer[i])
    ensures !RowBuffered(buffer, e) ==>
              (e in Upsert(table, buffer) <==> e in table) && (e in table ==> Upsert(table, buffer)[e] == table[e])
  {
  }

  lemma NewestIsLatest(buffer: Buffer, table: Table, thread: Uuid, q: Pending)
    requires DistinctKeys(buffer) && q in buffer && q.thread == thread && NewestOfThread(buffer, table, thread, q)
    ensures LatestRow(Upsert(table, buffer), thread) == Some(q)
  {
    var after := Upsert(table, buffer);
    FlushedRow(buffer, table, (thread, q.key));
    forall k | (thread, k) in after && k != q.key ensures Older(PendingOf(thread, k, after[(thread, k)]), q) {
      FlushedRow(buffer, table, (thread, k));
      if i :| 0 <= i < |buffer| && (buffer[i].thread, buffer[i].key) == (thread, k) {
        assert buffer[i] in buffer;
      }
    }
    LatestRowIs(after, thread, q);
  }

  lemma LatestIsNewest(buffer: Buffer, table: Table, thread: Uuid, q: Pending)
    requires DistinctKeys(buffer) && q in buffer && IsLatestRow(Upsert(table, buffer), thread, q)
    ensures NewestOfThread(buffer, table, thread, q)
  {
    forall p | p in buffer && p.thread == thread && p.key != q.key ensures Older(p, q) {
      FlushedRow(buffer, table, (thread, p.key));
      assert RowIn(Upsert(table, buffer), p);
    }
    var i :| 0 <= i < |buffer| && buffer[i] == q;
    forall k | (thread, k) in table && !RowBuffered(buffer, (thread, k))
      ensures Older(PendingOf(thread, k, table[(thread, k)]), q)
    {
      FlushedRow(buffer, table, (thread, k));
      assert (buffer[i].thread, buffer[i].key) == (thread, q.key);
    }
  }

  // ---------------------------------------------------------------- why the hypotheses are there

  const sample := Checkpoint(Some(1), Some(10), Mapping, Mapping, 0)

  /** Storing an id again while its chunk is committed but not acknowledged loses the second version. */
  lemma StoringAgainInFlightLosesTheUpdate()
    ensures var first := Pending(1, 7, sample, 0, 10);
            var second := first.(checkpoint := sample.(content := 1));
            var s0 := StoreNext(50, Store([], map[], Idle), Put(first));
            var s1 := StoreNext(50, StoreNext(50, s0, PeekBatch), Commit);
            var s2 := StoreNext(50, StoreNext(50, s1, Put(second)), Acknowledge);
            s2.buffer == [] && RowIn(s2.table, first) && !RowIn(s2.table, second)
  {
    var first := Pending(1, 7, sample, 0, 10);
    var second := first.(checkpoint := sample.(content := 1));
    assert Peek([first], 50) == [first];
    UpsertRow(map[], [first], (7, 1));
    PutOverOne(first, second);
    ForgetOne(first, second);
    hide BufferPut, Forget, Upsert, InBatch;
  }

  lemma PutOverOne(first: Pending, second: Pending)
    requires first.key == second.key
    ensures BufferPut([], first) == [first] && BufferPut([first], second) == [second]
  {
  }

  lemma ForgetOne(first: Pending, second: Pending)
    requires first.key == second.key
    ensures Forget([second], [first]) == []
  {
    assert [first][0].key == second.key && InBatch([first], second.key);
    assert [second][1..] == [];
  }

  /** The read in the gap of a delete: the first put is flushed, the second buffered, and the first comes back. */
  lemma ReadDuringDeleteIsStale()
    ensures var first := Pending(1, 7, sample, 0, 10);
            var second := Pending(2, 7, sample.(id := Some(2)), 0, 20);
            var s := Store([second], map[(7, 1) := RowOf(first)], Idle);
            var gap := StoreNext(50, s, DropBuffered(7));
            && Read(s.buffer, s.table, 7) == Some(second)
            && Read(gap.buffer, gap.table, 7) == Some(first)
            && Read(gap.buffer, StoreNext(50, gap, DeleteRows(7)).table, 7) == None
  {
    var first := Pending(1, 7, sample, 0, 10);
    LatestRowIs(map[(7, 1) := RowOf(first)], 7, first);
  }

  /** Deleting a thread while its chunk is on the way brings the deleted checkpoint back. */
  lemma DeletingInFlightResurrects()
    ensures var p := Pending(1, 7, sample, 0, 10);
            var s0 := StoreNext(50, StoreNext(50, Store([], map[], Idle), Put(p)), PeekBatch);
            var s1 := StoreNext(50, s0.(buffer := DropThread(s0.buffer, 7)), DeleteRows(7));
            var s2 := StoreNext(50, s1, Commit);
            Read(s1.buffer, s1.table, 7) == None && Read(s2.buffer, s2.table, 7) == Some(p)
  {
  }
}
