/**
 Both layers together as a state machine.  A put passes through three stages with an await after
 each (Redis entry, Redis pointer, PostgreSQL buffer); puts of different threads interleave, Redis
 evicts any keys at any time, and the flusher runs on.  Every Redis write and every buffer write is
 accepted here; a refused Redis write is treated at the end.
 Main results: a read of a thread with no put under way returns exactly its last put, and a read
 whose four accesses happen at four different moments returns a value that was visible at one
 moment while it was running.
 */
module CompositeStore {
  import opened Checkpoints
  import opened PgStore
  import opened RedisLayer

  datatype Stage = Begun | EntryWritten | PointerWritten

  /** A put under way. */
  datatype Writing = Writing(p: Pending, stage: Stage)

  /** Both layers, the puts under way (at most one per thread), and every put ever begun by id. */
  datatype Layers = Layers(pg: System, redis: Redis, writing: map<Uuid, Writing>, begun: map<Uuid, Pending>)

  datatype LayerStep =
    | Begin(p: Pending)
    | PutEntry(thread: Uuid)
    | PutPointer(thread: Uuid)
    | PutBuffer(thread: Uuid)
    | Evict(entries: set<(Uuid, EntryId)>, pointers: set<Uuid>)
    | Flushing(step: Step)
    | RemoveBuffered(thread: Uuid) // adelete_thread, after its Redis keys have gone (one by one, as by Evict)
    | RemoveRows(thread: Uuid)     // its DELETE is applied
    | RemoveFails(thread: Uuid)    // or fails

  ghost predicate LayerEnabled(s: Layers, step: LayerStep) {
    match step
    case Begin(p) =>
      && p.checkpoint.id == Some(p.key) && p.key !in s.begun && p.thread !in s.writing && p.thread !in s.pg.deleting
      && forall q :: q in s.pg.puts && q.thread == p.thread ==> Older(q, p)
    case PutEntry(t) => t in s.writing && s.writing[t].stage.Begun?
    case PutPointer(t) => t in s.writing && s.writing[t].stage.EntryWritten?
    case PutBuffer(t) => t in s.writing && s.writing[t].stage.PointerWritten?
    case Evict(_, _) => true
    case Flushing(step) => IsFlusherStep(step) && StoreEnabled(s.pg.store, step)
    case RemoveBuffered(t) =>
      t !in s.writing && t !in s.redis.latest && t !in s.pg.deleting && StoreEnabled(s.pg.store, DropBuffered(t))
    case RemoveRows(t) => t in s.pg.deleting
    case RemoveFails(t) => t in s.pg.deleting
  }

  /** What the step is for the durable layer. */
  ghost function PgStep(s: Layers, step: LayerStep): Step
    requires LayerEnabled(s, step)
  {
    match step
    case PutBuffer(t) => Put(s.writing[t].p)
    case Flushing(step) => step
    case RemoveBuffered(t) => DropBuffered(t)
    case RemoveRows(t) => DeleteRows(t)
    case RemoveFails(t) => DeleteFails(t)
    case _ => Elsewhere
  }

  ghost function LayerNext(batchSize: nat, s: Layers, step: LayerStep): Layers
    requires LayerEnabled(s, step) && Enabled(s.pg, PgStep(s, step))
  {
    var pg := Next(batchSize, s.pg, PgStep(s, step));
    match step
    case Begin(p) => s.(pg := pg, writing := s.writing[p.thread := Writing(p, Begun)], begun := s.begun[p.key := p])
    case PutEntry(t) =>
      s.(pg := pg, redis := WriteEntry(s.redis, t, StoredOf(s.writing[t].p)),
         writing := s.writing[t := s.writing[t].(stage := EntryWritten)])
    case PutPointer(t) =>
      s.(pg := pg, redis := WritePointer(s.redis, t, Some(s.writing[t].p.key)),
         writing := s.writing[t := s.writing[t].(stage := PointerWritten)])
    case PutBuffer(t) => s.(pg := pg, writing := s.writing - {t})
    case Evict(es, ps) => s.(pg := pg, redis := EvictKeys(s.redis, es, ps))
    case _ => s.(pg := pg)
  }

  // ---------------------------------------------------------------- the invariant

  /** Every entry is the put that first used its id. */
  ghost predicate EntriesAreBegun(s: Layers) {
    forall e :: e in s.redis.entries ==>
      && e.1.Some? && e.1.value in s.begun
      && s.begun[e.1.value].thread == e.0 && s.redis.entries[e] == StoredOf(s.begun[e.1.value])
  }

  /** A pointer that survives names the last put, or the put under way once it has written the pointer. */
  ghost predicate PointersAreCurrent(s: Layers) {
    forall t :: t in s.redis.latest ==>
      if t in s.writing && s.writing[t].stage.PointerWritten?
      then s.redis.latest[t] == Some(s.writing[t].p.key)
      else LastPut(s.pg.puts, t).Some? && s.redis.latest[t] == Some(LastPut(s.pg.puts, t).value.key)
  }

  ghost predicate WritingIsPossible(s: Layers) {
    forall t :: t in s.writing ==>
      var p := s.writing[t].p;
      && p.thread == t && p.checkpoint.id == Some(p.key)
      && p.key in s.begun && s.begun[p.key] == p && p.key !in s.pg.used
      && forall q :: q in s.pg.puts && q.thread == t ==> Older(q, p)
  }

  ghost predicate PutsAreBegun(s: Layers) {
    && (forall k :: k in s.pg.used ==> k in s.begun)
    && (forall p :: p in s.pg.puts ==> p.key in s.begun && s.begun[p.key] == p && p.checkpoint.id == Some(p.key))
    && (forall k :: k in s.begun ==> s.begun[k].key == k)
    && (forall t, u :: t in s.writing && u in s.writing && t != u ==> s.writing[t].p.key != s.writing[u].p.key)
  }

  /** A thread being deleted in PostgreSQL has no pointer and no put under way. */
  ghost predicate DeletingIsQuiet(s: Layers) {
    forall t :: t in s.pg.deleting ==> t !in s.redis.latest && t !in s.writing
  }

  ghost predicate LayersInv(s: Layers) {
    && Inv(s.pg) && DeletingIsQuiet(s) && EntriesAreBegun(s) && PointersAreCurrent(s) && WritingIsPossible(s) && PutsAreBegun(s)
  }

  const NoLayers := Layers(Empty, Redis(map[], map[]), map[], map[])

  /** Each step of the whole is a possible step of the durable layer. */
  lemma PgStepEnabled(s: Layers, step: LayerStep)
    requires LayersInv(s) && LayerEnabled(s, step)
    ensures Enabled(s.pg, PgStep(s, step))
  {
  }

  lemma RedisStepKeepsEntries(batchSize: nat, s: Layers, step: LayerStep)
    requires LayersInv(s) && LayerEnabled(s, step) && Enabled(s.pg, PgStep(s, step))
    ensures EntriesAreBegun(LayerNext(batchSize, s, step))
  {
  }

  lemma StepKeepsPointers(batchSize: nat, s: Layers, step: LayerStep)
    requires LayersInv(s) && LayerEnabled(s, step) && Enabled(s.pg, PgStep(s, step))
    ensures PointersAreCurrent(LayerNext(batchSize, s, step))
  {
    hide Inv, EntriesAreBegun, PutsAreBegun, StoreNext, StoreEnabled, LastPut, DropThread;
    var n := LayerNext(batchSize, s, step);
    forall t | t in n.redis.latest
      ensures if t in n.writing && n.writing[t].stage.PointerWritten?
              then n.redis.latest[t] == Some(n.writing[t].p.key)
              else LastPut(n.pg.puts, t).Some? && n.redis.latest[t] == Some(LastPut(n.pg.puts, t).value.key)
    {
      assert n.pg.puts == s.pg.puts || step.PutBuffer? || step.RemoveRows? || step.RemoveFails?;
      if step.PutBuffer? {
        LastPutAppend(s.pg.puts, s.writing[step.thread].p, t);
      } else if step.RemoveRows? {
        LastPutDrop(s.pg.puts, step.thread, t);
      } else if step.RemoveFails? {
        LastPutKeep(s.pg.puts, s.pg.store.table, step.thread, t);
      }
    }
  }

  lemma LastPutAppend(puts: seq<Pending>, p: Pending, thread: Uuid)
    ensures LastPut(puts + [p], thread) == if p.thread == thread then Some(p) else LastPut(puts, thread)
  {
  }

  /** Seen from the front: the first put counts only when no later one is of the thread. */
  lemma {:induction false} LastPutCons(p: Pending, rest: seq<Pending>, thread: Uuid)
    ensures LastPut([p] + rest, thread) ==
            if LastPut(rest, thread).Some? then LastPut(rest, thread)
            else if p.thread == thread then Some(p) else None
  {
    if |rest| == 0 {
      assert [p] + rest == [] + [p];
      LastPutAppend([], p, thread);
    } else {
      var n := |rest| - 1;
      LastPutCons(p, rest[..n], thread);
      assert [p] + rest == ([p] + rest[..n]) + [rest[n]];
      LastPutAppend([p] + rest[..n], rest[n], thread);
    }
  }

  lemma {:induction false} LastPutDrop(puts: seq<Pending>, dropped: Uuid, thread: Uuid)
    requires thread != dropped
    ensures LastPut(DropThread(puts, dropped), thread) == LastPut(puts, thread)
  {
    if |puts| > 0 {
      assert puts == [puts[0]] + puts[1..];
      LastPutCons(puts[0], puts[1..], thread);
      LastPutDrop(puts[1..], dropped, thread);
      if puts[0].thread != dropped {
        LastPutCons(puts[0], DropThread(puts[1..], dropped), thread);
      }
    }
  }

  lemma {:induction false} LastPutKeep(puts: seq<Pending>, table: Table, failed: Uuid, thread: Uuid)
    requires thread != failed
    ensures LastPut(KeepFlushed(puts, table, failed), thread) == LastPut(puts, thread)
  {
    if |puts| > 0 {
      assert puts == [puts[0]] + puts[1..];
      LastPutCons(puts[0], puts[1..], thread);
      LastPutKeep(puts[1..], table, failed, thread);
      if !(puts[0].thread == failed && !RowIn(table, puts[0])) {
        LastPutCons(puts[0], KeepFlushed(puts[1..], table, failed), thread);
      }
    }
  }

  lemma StepKeepsQuiet(batchSize: nat, s: Layers, step: LayerStep)
    requires LayersInv(s) && LayerEnabled(s, step) && Enabled(s.pg, PgStep(s, step))
    ensures DeletingIsQuiet(LayerNext(batchSize, s, step))
  {
    hide Inv, EntriesAreBegun, PointersAreCurrent, StoreNext, StoreEnabled, LastPut, WritingIsPossible;
  }

  lemma StepKeepsWriting(batchSize: nat, s: Layers, step: LayerStep)
    requires LayersInv(s) && LayerEnabled(s, step) && Enabled(s.pg, PgStep(s, step))
    ensures WritingIsPossible(LayerNext(batchSize, s, step))
  {
    hide Inv, EntriesAreBegun, PointersAreCurrent, StoreNext, LastPut;
  }

  lemma StepKeepsBegun(batchSize: nat, s: Layers, step: LayerStep)
    requires LayersInv(s) && LayerEnabled(s, step) && Enabled(s.pg, PgStep(s, step))
    ensures PutsAreBegun(LayerNext(batchSize, s, step))
  {
    hide Inv, EntriesAreBegun, PointersAreCurrent, StoreNext, LastPut;
  }

  lemma LayerStepKeepsInv(batchSize: nat, s: Layers, step: LayerStep)
    requires batchSize > 0 && LayersInv(s) && LayerEnabled(s, step)
    ensures Enabled(s.pg, PgStep(s, step)) && LayersInv(LayerNext(batchSize, s, step))
  {
    PgStepEnabled(s, step);
    StepKeepsInv(batchSize, s.pg, PgStep(s, step));
    RedisStepKeepsEntries(batchSize, s, step);
    StepKeepsPointers(batchSize, s, step);
    StepKeepsWriting(batchSize, s, step);
    StepKeepsQuiet(batchSize, s, step);
    StepKeepsBegun(batchSize, s, step);
  }

  // ---------------------------------------------------------------- reads

  /** The answer of `aget` when its accesses are not interrupted. */
  ghost function CompositeRead(redis: Redis, buffer: Buffer, table: Table, thread: Uuid, redisFails: bool): Option<Stored> {
    if !redisFails && RedisGet(redis, thread).Some? then RedisGet(redis, thread)
    else Answer(Read(buffer, table, thread))
  }

  function Answer(r: Option<Pending>): Option<Stored> {
    if r.Some? then Some(StoredOf(r.value)) else None
  }

  /** With no put and no delete of the thread under way, a read returns exactly its last put (none after a delete). */
  lemma QuietReadIsLastPut(s: Layers, thread: Uuid, redisFails: bool)
    requires LayersInv(s) && thread !in s.writing && thread !in s.pg.deleting
    ensures CompositeRead(s.redis, s.pg.store.buffer, s.pg.store.table, thread, redisFails)
         == Answer(LastPut(s.pg.puts, thread))
  {
    ReadIsLastPut(s.pg, thread);
  }

  /**
   While PostgreSQL is deleting the thread, Redis has nothing and a read sees the newest row: stale exactly
   when a row is left and the last put is not in the table.
   */
  lemma DeletingCompositeRead(s: Layers, thread: Uuid, redisFails: bool)
    requires LayersInv(s) && thread in s.pg.deleting
    ensures var r := CompositeRead(s.redis, s.pg.store.buffer, s.pg.store.table, thread, redisFails);
            && r == Answer(LatestRow(s.pg.store.table, thread))
            && (r != None && LatestRow(s.pg.store.table, thread) != LastPut(s.pg.puts, thread) <==>
                  && (exists k :: (thread, k) in s.pg.store.table)
                  && !RowIn(s.pg.store.table, LastPut(s.pg.puts, thread).value))
  {
    DeletingRead(s.pg, thread);
    hide Inv, LatestBuffered, LatestRow, LastPut, EntriesAreBegun, PointersAreCurrent, PutsAreBegun;
  }

  // ---------------------------------------------------------------- runs

  ghost predicate IsLayerRun(batchSize: nat, run: seq<Layers>, steps: seq<LayerStep>) {
    && |run| == |steps| + 1 && run[0] == NoLayers
    && forall i :: 0 <= i < |steps| ==>
         && LayerEnabled(run[i], steps[i]) && Enabled(run[i].pg, PgStep(run[i], steps[i]))
         && run[i + 1] == LayerNext(batchSize, run[i], steps[i])
  }

  lemma {:induction false} LayerRunKeepsInv(batchSize: nat, run: seq<Layers>, steps: seq<LayerStep>, i: nat)
    requires batchSize > 0 && IsLayerRun(batchSize, run, steps) && i < |run|
    ensures LayersInv(run[i])
    decreases i
  {
    if i == 0 {
      EmptyInv();
    } else {
      LayerRunKeepsInv(batchSize, run, steps, i - 1);
      LayerStepKeepsInv(batchSize, run[i - 1], steps[i - 1]);
    }
  }

  /** Along every run, whatever Redis has lost and however far flushing has got; in the gap of a delete, the newest row. */
  lemma RunReadsLastPut(batchSize: nat, run: seq<Layers>, steps: seq<LayerStep>, i: nat, thread: Uuid, redisFails: bool)
    requires batchSize > 0 && IsLayerRun(batchSize, run, steps) && i < |run| && thread !in run[i].writing
    ensures CompositeRead(run[i].redis, run[i].pg.store.buffer, run[i].pg.store.table, thread, redisFails)
         == if thread in run[i].pg.deleting then Answer(LatestRow(run[i].pg.store.table, thread))
            else Answer(LastPut(run[i].pg.puts, thread))
  {
    LayerRunKeepsInv(batchSize, run, steps, i);
    if thread in run[i].pg.deleting {
      DeletingCompositeRead(run[i], thread, redisFails);
    } else {
      QuietReadIsLastPut(run[i], thread, redisFails);
    }
  }

  /** What a reader may see of a thread: its last put, the put under way, or, while it is being deleted, its newest row. */
  ghost predicate Visible(s: Layers, thread: Uuid, r: Option<Stored>) {
    || r == Answer(LastPut(s.pg.puts, thread))
    || (thread in s.pg.deleting && r == Answer(LatestRow(s.pg.store.table, thread)))
    || (thread in s.writing && r == Some(StoredOf(s.writing[thread].p)))
  }

  /** What an id means never changes. */
  lemma {:induction false} BegunStays(batchSize: nat, run: seq<Layers>, steps: seq<LayerStep>, i: nat, j: nat, k: Uuid)
    requires IsLayerRun(batchSize, run, steps) && i <= j < |run| && k in run[i].begun
    ensures k in run[j].begun && run[j].begun[k] == run[i].begun[k]
    decreases j
  {
    if i < j {
      BegunStays(batchSize, run, steps, i, j - 1, k);
    }
  }

  /** The pointer read at `i` and the entry read at `j` give a value visible at `i`. */
  lemma RedisAnswerWasVisible(batchSize: nat, run: seq<Layers>, steps: seq<LayerStep>, i: nat, j: nat, thread: Uuid)
    requires batchSize > 0 && IsLayerRun(batchSize, run, steps) && i <= j < |run|
    requires thread in run[i].redis.latest && (thread, run[i].redis.latest[thread]) in run[j].redis.entries
    ensures Visible(run[i], thread, Some(run[j].redis.entries[(thread, run[i].redis.latest[thread])]))
  {
    LayerRunKeepsInv(batchSize, run, steps, i);
    LayerRunKeepsInv(batchSize, run, steps, j);
    var id := run[i].redis.latest[thread];
    BegunStays(batchSize, run, steps, i, j, id.value);
  }

  /** The same run seen by the durable layer. */
  lemma PgRun(batchSize: nat, run: seq<Layers>, steps: seq<LayerStep>)
    returns (pgRun: seq<System>, pgSteps: seq<Step>)
    requires IsLayerRun(batchSize, run, steps)
    ensures IsRun(batchSize, pgRun, pgSteps) && |pgRun| == |run| && pgRun[0] == Empty
    ensures forall i :: 0 <= i < |run| ==> pgRun[i] == run[i].pg
  {
    pgRun := seq(|run|, i requires 0 <= i < |run| => run[i].pg);
    pgSteps := seq(|steps|, i requires 0 <= i < |steps| && LayerEnabled(run[i], steps[i]) => PgStep(run[i], steps[i]));
  }

  /**
   Linearizability of the composite `aget`: the pointer is read at `i1`, the entry at `i2`, the
   buffer at `i3` and the table at `i4`.  Whatever else runs in between, and whether or not the
   Redis reads fail, the answer was visible at some moment from `i1` to `i4`.
   */
  lemma CompositeAgetIsLinearizable(
    batchSize: nat, run: seq<Layers>, steps: seq<LayerStep>,
    i1: nat, i2: nat, i3: nat, i4: nat, thread: Uuid, redisFails: bool)
    requires batchSize > 0 && IsLayerRun(batchSize, run, steps) && i1 <= i2 <= i3 <= i4 < |run|
    ensures var hit := !redisFails && thread in run[i1].redis.latest &&
                       (thread, run[i1].redis.latest[thread]) in run[i2].redis.entries;
            var pending := LatestBuffered(run[i3].pg.store.buffer, thread);
            var answer := if hit then Some(run[i2].redis.entries[(thread, run[i1].redis.latest[thread])])
                          else Answer(if pending.Some? then pending else LatestRow(run[i4].pg.store.table, thread));
            exists k :: i1 <= k <= i4 && Visible(run[k], thread, answer)
  {
    if !redisFails && thread in run[i1].redis.latest && (thread, run[i1].redis.latest[thread]) in run[i2].redis.entries {
      RedisAnswerWasVisible(batchSize, run, steps, i1, i2, thread);
    } else {
      var pgRun, pgSteps := PgRun(batchSize, run, steps);
      AgetIsLinearizable(batchSize, pgRun, pgSteps, i3, i4, thread);
      var pending := LatestBuffered(run[i3].pg.store.buffer, thread);
      var r := if pending.Some? then pending else LatestRow(run[i4].pg.store.table, thread);
      var k :| i3 <= k <= i4 && Shows(pgRun[k], thread, r);
      assert Visible(run[k], thread, Answer(r));
    }
  }

  // ---------------------------------------------------------------- puts and deletes go through

  /** The step is taken from `s` to `n`. */
  ghost predicate Takes(batchSize: nat, s: Layers, step: LayerStep, n: Layers) {
    LayerEnabled(s, step) && Enabled(s.pg, PgStep(s, step)) && n == LayerNext(batchSize, s, step)
  }

  /** The steps follow each other from `run[0]` on. */
  ghost predicate Follows(batchSize: nat, run: seq<Layers>, steps: seq<LayerStep>) {
    |run| == |steps| + 1 && forall i :: 0 <= i < |steps| ==> Takes(batchSize, run[i], steps[i], run[i + 1])
  }

  lemma CanTake(batchSize: nat, s: Layers, step: LayerStep) returns (n: Layers)
    requires batchSize > 0 && LayersInv(s) && LayerEnabled(s, step)
    ensures Takes(batchSize, s, step, n) && LayersInv(n)
  {
    LayerStepKeepsInv(batchSize, s, step);
    n := LayerNext(batchSize, s, step);
  }

  /**
   A put with a fresh id, of a thread that no other put or delete is busy with and newer than the thread's puts,
   can take its four steps, after which Redis answers with it, and so does a read whether or not Redis answers.
   */
  lemma PutGoesThrough(batchSize: nat, s: Layers, p: Pending) returns (run: seq<Layers>)
    requires batchSize > 0 && LayersInv(s) && p.checkpoint.id == Some(p.key) && p.key !in s.begun
    requires p.thread !in s.writing && p.thread !in s.pg.deleting
    requires forall q :: q in s.pg.puts && q.thread == p.thread ==>
               q.createdAt < p.createdAt || (q.createdAt == p.createdAt && q.key < p.key)
    ensures Follows(batchSize, run, [Begin(p), PutEntry(p.thread), PutPointer(p.thread), PutBuffer(p.thread)]) && run[0] == s
    ensures var n := run[4];
            && n.pg.puts == s.pg.puts + [p] && n.writing == s.writing && RedisGet(n.redis, p.thread) == Some(StoredOf(p))
            && (forall fails :: CompositeRead(n.redis, n.pg.store.buffer, n.pg.store.table, p.thread, fails) == Some(StoredOf(p)))
            && forall t :: t != p.thread ==> RedisGet(n.redis, t) == RedisGet(s.redis, t)
  {
    var t := p.thread;
    hide LayersInv, Next, Enabled, LatestRow, RedisGet, CompositeRead;
    var s1 := CanTake(batchSize, s, Begin(p));
    var s2 := CanTake(batchSize, s1, PutEntry(t));
    var s3 := CanTake(batchSize, s2, PutPointer(t));
    var n := CanTake(batchSize, s3, PutBuffer(t));
    PutEffect(batchSize, s, s1, s2, s3, n, p);
    hide Takes, LayerEnabled;
    run := [s, s1, s2, s3, n];
  }

  lemma PutEffect(batchSize: nat, s: Layers, s1: Layers, s2: Layers, s3: Layers, n: Layers, p: Pending)
    requires batchSize > 0 && LayersInv(s) && LayersInv(n) && p.thread !in s.writing && p.thread !in s.pg.deleting
    requires p.checkpoint.id == Some(p.key)
    requires Takes(batchSize, s, Begin(p), s1) && Takes(batchSize, s1, PutEntry(p.thread), s2)
    requires Takes(batchSize, s2, PutPointer(p.thread), s3) && Takes(batchSize, s3, PutBuffer(p.thread), n)
    ensures n.pg.puts == s.pg.puts + [p] && n.writing == s.writing && RedisGet(n.redis, p.thread) == Some(StoredOf(p))
    ensures forall fails :: CompositeRead(n.redis, n.pg.store.buffer, n.pg.store.table, p.thread, fails) == Some(StoredOf(p))
    ensures forall t :: t != p.thread ==> RedisGet(n.redis, t) == RedisGet(s.redis, t)
  {
    hide LayersInv, Inv, LatestRow, BufferPut, Read;
    assert n.writing == s.writing;
    forall fails
      ensures CompositeRead(n.redis, n.pg.store.buffer, n.pg.store.table, p.thread, fails) == Some(StoredOf(p))
    {
      QuietReadIsLastPut(n, p.thread, fails);
      LastPutAppend(s.pg.puts, p, p.thread);
    }
  }

  /**
   A delete of a thread that no put or delete is busy with and no chunk in flight holds can take its steps, after
   which a read finds nothing, whether or not Redis answers; the other threads' puts and pointers are as before.
   */
  lemma DeleteGoesThrough(batchSize: nat, s: Layers, thread: Uuid) returns (run: seq<Layers>)
    requires batchSize > 0 && LayersInv(s) && thread !in s.writing && thread !in s.pg.deleting
    requires s.pg.store.flight.Idle? ||
             forall i :: 0 <= i < |s.pg.store.flight.batch| ==> s.pg.store.flight.batch[i].thread != thread
    ensures Follows(batchSize, run, [Evict({}, {thread}), RemoveBuffered(thread), RemoveRows(thread)]) && run[0] == s
    ensures var n := run[3];
            && n.pg.puts == DropThread(s.pg.puts, thread) && n.pg.deleting == s.pg.deleting
            && n.redis.latest == s.redis.latest - {thread} && n.redis.entries == s.redis.entries
            && forall fails :: CompositeRead(n.redis, n.pg.store.buffer, n.pg.store.table, thread, fails) == None
  {
    hide LayersInv, LatestRow, RedisGet, CompositeRead;
    var s1 := CanTake(batchSize, s, Evict({}, {thread}));
    assert s1.pg.store == s.pg.store;
    hide StoreNext;
    var s2 := CanTake(batchSize, s1, RemoveBuffered(thread));
    var n := CanTake(batchSize, s2, RemoveRows(thread));
    DeleteEffect(batchSize, s, s1, s2, n, thread);
    hide Takes, LayerEnabled;
    run := [s, s1, s2, n];
  }

  lemma DeleteEffect(batchSize: nat, s: Layers, s1: Layers, s2: Layers, n: Layers, thread: Uuid)
    requires LayersInv(n) && thread !in s.writing && thread !in s.pg.deleting
    requires Takes(batchSize, s, Evict({}, {thread}), s1) && Takes(batchSize, s1, RemoveBuffered(thread), s2)
    requires Takes(batchSize, s2, RemoveRows(thread), n)
    ensures n.pg.puts == DropThread(s.pg.puts, thread) && n.pg.deleting == s.pg.deleting
    ensures n.redis.latest == s.redis.latest - {thread} && n.redis.entries == s.redis.entries
    ensures forall fails :: CompositeRead(n.redis, n.pg.store.buffer, n.pg.store.table, thread, fails) == None
  {
    hide LayersInv, LatestRow, StoreNext, RedisGet, CompositeRead, DropThread;
    forall fails ensures CompositeRead(n.redis, n.pg.store.buffer, n.pg.store.table, thread, fails) == None {
      QuietReadIsLastPut(n, thread, fails);
      NoneInDropped(s.pg.puts, thread);
    }
  }

  lemma NoneInDropped(puts: seq<Pending>, thread: Uuid)
    ensures LastPut(DropThread(puts, thread), thread) == None
  {
  }

  // ---------------------------------------------------------------- when Redis refuses a write

  /**
   In a reachable state, a put that Redis refuses but PostgreSQL buffers is what the next read returns
   if and only if the pointer write was applied after all, or Redis could not answer for the thread anyway.
   */
  lemma RefusedRedisWriteIsReadIff(s: Layers, p: Pending, o: WriteOutcome)
    requires LayersInv(s) && LayerEnabled(s, Begin(p)) && o.Possible()
    ensures CompositeRead(RedisPut(s.redis, p.thread, StoredOf(p), o), BufferPut(s.pg.store.buffer, p),
                          s.pg.store.table, p.thread, false)
         == Some(StoredOf(p))
       <==> o.pointerApplied || RedisGet(s.redis, p.thread).None?
  {
    hide LayersInv, LayerEnabled, RedisPut, RedisGet, LatestBuffered, BufferPut;
    KeptAnswer(s, p);
    BufferedPutIsRead(s.pg.store.buffer, p);
    RefusedPutRead(s.redis, p, o);
  }

  lemma BufferedPutIsRead(buffer: Buffer, p: Pending)
    requires BufferPut(buffer, p) == buffer + [p]
    ensures LatestBuffered(BufferPut(buffer, p), p.thread) == Some(p)
  {
  }

  /** What Redis answers before a put is another checkpoint than the one being put. */
  lemma KeptAnswer(s: Layers, p: Pending)
    requires LayersInv(s) && LayerEnabled(s, Begin(p))
    ensures p.checkpoint.id == Some(p.key) && BufferPut(s.pg.store.buffer, p) == s.pg.store.buffer + [p]
    ensures p.thread in s.redis.latest ==> s.redis.latest[p.thread] != Some(p.key)
    ensures RedisGet(s.redis, p.thread).Some? ==> RedisGet(s.redis, p.thread) != Some(StoredOf(p))
  {
  }

  lemma RefusedPutRead(redis: Redis, p: Pending, o: WriteOutcome)
    requires o.Possible() && p.checkpoint.id == Some(p.key)
    requires p.thread in redis.latest ==> redis.latest[p.thread] != Some(p.key)
    ensures RedisGet(RedisPut(redis, p.thread, StoredOf(p), o), p.thread) ==
            if o.pointerApplied then Some(StoredOf(p)) else RedisGet(redis, p.thread)
  {
  }

  /** The stale read: the first put went to both layers, Redis refused the second. */
  lemma StaleReadAfterRefusedWrite()
    ensures var first := Pending(1, 7, Checkpoint(Some(1), Some(10), Mapping, Mapping, 0), 0, 10);
            var second := Pending(2, 7, Checkpoint(Some(2), Some(9000), Mapping, Mapping, 1), 0, 9000);
            var redis := RedisPut(Redis(map[], map[]), 7, StoredOf(first), Accepted);
            var refused := RedisPut(redis, 7, StoredOf(second), WriteOutcome(false, false, false));
            var buffer := BufferPut(BufferPut([], first), second);
            && Read(buffer, map[], 7) == Some(second)
            && CompositeRead(refused, buffer, map[], 7, false) == Some(StoredOf(first))
  {
  }
}
