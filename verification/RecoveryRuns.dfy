/**
 Whole recoveries: threads reconciled in any order and any number of times while the flusher drains
 the buffer chunk by chunk, from the state that a crash leaves behind.
 */
module RecoveryRuns {
  import opened Checkpoints
  import opened PgStore
  import opened RedisLayer
  import opened CompositeStore
  import opened PostgresCheckpointers
  import opened Recovery

  datatype RecoveryStep =
    | Thread(thread: Uuid, now: int)             // one thread, without a storage error
    | Chunk(size: nat, acknowledged: bool)       // one chunk commits; its removal may still be outstanding

  predicate StepEnabled(w: World, s: RecoveryStep) {
    s.Chunk? ==> s.size <= |w.buffer|
  }

  ghost function StepNext(w: World, s: RecoveryStep): World
    requires StepEnabled(w, s)
  {
    match s
    case Thread(t, now) => Settle(w, t, now)
    case Chunk(n, acknowledged) =>
      World(w.redis, if acknowledged then Forget(w.buffer, w.buffer[..n]) else w.buffer, Upsert(w.table, w.buffer[..n]))
  }

  // ---------------------------------------------------------------- chunks

  lemma OneDeltaPerThread(w: World, owner: Uuid -> Uuid, p: Pending, q: Pending)
    requires StartupInv(w, owner) && p in w.buffer && q in w.buffer && p.thread == q.thread
    ensures p == q
  {
  }

  /** The rows of a thread after a chunk: as before, plus its delta if that was in the chunk. */
  lemma ChunkRow(w: World, owner: Uuid -> Uuid, n: nat, e: (Uuid, Uuid))
    requires StartupInv(w, owner) && n <= |w.buffer|
    ensures var after := Upsert(w.table, w.buffer[..n]);
            || (e in after && exists i :: 0 <= i < n && (w.buffer[i].thread, w.buffer[i].key) == e && after[e] == RowOf(w.buffer[i]))
            || ((forall i :: 0 <= i < n ==> (w.buffer[i].thread, w.buffer[i].key) != e) &&
                (e in after <==> e in w.table) && (e in after ==> after[e] == w.table[e]))
  {
    UpsertRow(w.table, w.buffer[..n], e);
    if i :| 0 <= i < n && (w.buffer[i].thread, w.buffer[i].key) == e {
      assert w.buffer[..n][i] == w.buffer[i];
    } else {
      assert forall i :: 0 <= i < |w.buffer[..n]| ==> (w.buffer[..n][i].thread, w.buffer[..n][i].key) != e;
    }
  }

  lemma ChunkKeepsTable(w: World, owner: Uuid -> Uuid, n: nat)
    requires StartupInv(w, owner) && n <= |w.buffer|
    ensures StartupInv(w.(table := Upsert(w.table, w.buffer[..n])), owner)
  {
    var after := Upsert(w.table, w.buffer[..n]);
    forall e | e in after
      ensures owner(e.1) == e.0 && after[e].checkpoint.id == Some(e.1) && OwnTime(PendingOf(e.0, e.1, after[e]))
    {
      ChunkRow(w, owner, n, e);
      if i :| 0 <= i < n && (w.buffer[i].thread, w.buffer[i].key) == e && after[e] == RowOf(w.buffer[i]) {
        assert w.buffer[i] in w.buffer;
      }
    }
    forall p, k | p in w.buffer && (p.thread, k) in after && k != p.key
      ensures Older(PendingOf(p.thread, k, after[(p.thread, k)]), p)
    {
      ChunkRow(w, owner, n, (p.thread, k));
      forall i | 0 <= i < n ensures (w.buffer[i].thread, w.buffer[i].key) != (p.thread, k) {
        if w.buffer[i].thread == p.thread {
          OneDeltaPerThread(w, owner, p, w.buffer[i]);
        }
      }
    }
  }

  lemma ForgetKeepsInv(w: World, owner: Uuid -> Uuid, n: nat)
    requires StartupInv(w, owner) && n <= |w.buffer|
    ensures StartupInv(w.(buffer := Forget(w.buffer, w.buffer[..n])), owner)
  {
    ForgetKeepsDistinct(w.buffer, w.buffer[..n]);
  }

  lemma CommitKeepsRead(w: World, owner: Uuid -> Uuid, n: nat, thread: Uuid)
    requires StartupInv(w, owner) && n <= |w.buffer|
    ensures Read(w.buffer, Upsert(w.table, w.buffer[..n]), thread) == Read(w.buffer, w.table, thread)
  {
    if LatestBuffered(w.buffer, thread).None? {
      var after := Upsert(w.table, w.buffer[..n]);
      forall k: Uuid ensures ((thread, k) in w.table <==> (thread, k) in after) &&
                       ((thread, k) in w.table ==> w.table[(thread, k)] == after[(thread, k)])
      {
        ChunkRow(w, owner, n, (thread, k));
      }
      SameRowsSameLatest(w.table, after, thread);
    }
  }

  /** Removing a committed chunk from the buffer changes no read: the table now answers. */
  lemma ForgetKeepsRead(w: World, owner: Uuid -> Uuid, n: nat, thread: Uuid)
    requires StartupInv(w, owner) && n <= |w.buffer|
    requires forall i :: 0 <= i < n ==> RowIn(w.table, w.buffer[i])
    ensures Read(Forget(w.buffer, w.buffer[..n]), w.table, thread) == Read(w.buffer, w.table, thread)
  {
    var rest := Forget(w.buffer, w.buffer[..n]);
    var before := LatestBuffered(w.buffer, thread);
    forall q | q in rest ensures q in w.buffer {}
    if before.Some? {
      var p := before.value;
      assert p in w.buffer;
      if p in rest {
        LatestIn(rest, p);
        OneDeltaPerThread(w, owner, p, LatestBuffered(rest, thread).value);
      } else {
        assert InBatch(w.buffer[..n], p.key);
        var i :| 0 <= i < n && w.buffer[..n][i].key == p.key;
        assert w.buffer[i] in w.buffer && w.buffer[i] == p by {
          var j :| 0 <= j < |w.buffer| && w.buffer[j] == p;
        }
        NoneLeft(w, owner, rest, p);
        LatestRowIs(w.table, thread, p);
      }
    } else {
      if LatestBuffered(rest, thread).Some? {
        var q := LatestBuffered(rest, thread).value;
        assert q in rest && q in w.buffer;
        LatestIn(w.buffer, q);
      }
    }
  }

  lemma LatestIn(buffer: Buffer, p: Pending)
    requires p in buffer
    ensures LatestBuffered(buffer, p.thread).Some?
    ensures LatestBuffered(buffer, p.thread).value in buffer
  {
  }

  lemma NoneLeft(w: World, owner: Uuid -> Uuid, rest: Buffer, p: Pending)
    requires StartupInv(w, owner) && p in w.buffer && p !in rest && forall q :: q in rest ==> q in w.buffer
    ensures LatestBuffered(rest, p.thread).None?
  {
  }

  /** A chunk, acknowledged or not, keeps the invariant and changes no durable reading. */
  lemma ChunkKeepsReads(w: World, owner: Uuid -> Uuid, n: nat, acknowledged: bool)
    requires StartupInv(w, owner) && n <= |w.buffer|
    ensures var next := StepNext(w, Chunk(n, acknowledged));
            StartupInv(next, owner) && next.redis == w.redis && forall t :: PgRead(next, t) == PgRead(w, t)
  {
    var committed := w.(table := Upsert(w.table, w.buffer[..n]));
    ChunkKeepsTable(w, owner, n);
    forall t ensures PgRead(committed, t) == PgRead(w, t) {
      CommitKeepsRead(w, owner, n, t);
    }
    if acknowledged {
      ForgetKeepsInv(committed, owner, n);
      forall i | 0 <= i < n ensures RowIn(committed.table, w.buffer[i]) {
        HeadIsDistinct(w.buffer, n);
        assert w.buffer[..n][i] == w.buffer[i];
        UpsertRow(w.table, w.buffer[..n], (w.buffer[i].thread, w.buffer[i].key));
      }
      forall t ensures PgRead(committed.(buffer := Forget(w.buffer, w.buffer[..n])), t) == PgRead(w, t) {
        ForgetKeepsRead(committed, owner, n, t);
      }
    }
  }

  lemma HeadIsDistinct(buffer: Buffer, n: nat)
    requires DistinctKeys(buffer) && n <= |buffer|
    ensures DistinctRows(buffer[..n])
  {
  }

  // ---------------------------------------------------------------- runs

  ghost predicate IsRecoveryRun(run: seq<World>, steps: seq<RecoveryStep>) {
    && |run| == |steps| + 1
    && forall i :: 0 <= i < |steps| ==> StepEnabled(run[i], steps[i]) && run[i + 1] == StepNext(run[i], steps[i])
  }

  ghost predicate Visited(steps: seq<RecoveryStep>, i: nat, thread: Uuid)
    requires i <= |steps|
  {
    exists j :: 0 <= j < i && steps[j].Thread? && steps[j].thread == thread
  }

  /** One step: what a thread settles on never changes, and a visited thread stays settled and quiet. */
  lemma StepKeepsSettled(w: World, owner: Uuid -> Uuid, s: RecoveryStep, thread: Uuid)
    requires StartupInv(w, owner) && StepEnabled(w, s)
    ensures var n := StepNext(w, s);
            && StartupInv(n, owner) && Settled(n, thread) == Settled(w, thread)
            && ((s.Thread? && s.thread == thread) || (PgRead(w, thread) == Settled(w, thread) && Quiet(w, thread)) ==>
                  PgRead(n, thread) == Settled(n, thread) && Quiet(n, thread))
            && (thread in n.redis.latest <==> thread in w.redis.latest)
  {
    match s
    case Thread(t, now) => SettleThread(w, owner, t, now);
    case Chunk(n, acknowledged) => ChunkKeepsReads(w, owner, n, acknowledged);
  }

  lemma {:induction false} RunSettles(run: seq<World>, steps: seq<RecoveryStep>, owner: Uuid -> Uuid, i: nat, thread: Uuid)
    requires IsRecoveryRun(run, steps) && StartupInv(run[0], owner) && i < |run|
    ensures StartupInv(run[i], owner) && Settled(run[i], thread) == Settled(run[0], thread)
    ensures Visited(steps, i, thread) ==> PgRead(run[i], thread) == Settled(run[i], thread) && Quiet(run[i], thread)
    ensures thread in run[i].redis.latest <==> thread in run[0].redis.latest
    decreases i
  {
    if i > 0 {
      RunSettles(run, steps, owner, i - 1, thread);
      StepKeepsSettled(run[i - 1], owner, steps[i - 1], thread);
      assert run[i] == StepNext(run[i - 1], steps[i - 1]);
    }
  }

  /**
   The outcome of an error-free recovery: in any order, with any chunks flushed in between and after,
   a reconciled thread reads durably as Redis had it when PostgreSQL had nothing or something older by more
   than 1000 microseconds (and the Redis copy is well formed), and otherwise as PostgreSQL had it.
   */
  lemma RecoveryOutcome(run: seq<World>, steps: seq<RecoveryStep>, owner: Uuid -> Uuid, i: nat, thread: Uuid)
    requires IsRecoveryRun(run, steps) && StartupInv(run[0], owner) && i < |run| && Visited(steps, i, thread)
    ensures var redis, pg := RedisGet(run[0].redis, thread), PgRead(run[0], thread);
            PgRead(run[i], thread) ==
            if && redis.Some?
               && (var c := redis.value.checkpoint;
                   && c.id.Some? && c.channelValues != Other && c.channelVersions == Mapping
                   && (pg.None? || (c.ts.Some? && pg.value.checkpoint.ts.Some? && c.ts.value - pg.value.checkpoint.ts.value > 1000)))
            then redis else pg
  {
    hide PgRead, RedisGet, Settled, StartupInv, IsRecoveryRun, Quiet;
    RunSettles(run, steps, owner, i, thread);
    SettledIs(run[0], thread);
  }

  /**
   Idempotence: once every thread that Redis knows has been visited, no later visit of any thread
   changes either layer, replays anything, or finds a conflict.
   */
  lemma SecondPassIsIdle(run: seq<World>, steps: seq<RecoveryStep>, owner: Uuid -> Uuid, m: nat, i: nat)
    requires IsRecoveryRun(run, steps) && StartupInv(run[0], owner) && m <= i < |steps| && steps[i].Thread?
    requires forall t :: t in run[0].redis.latest ==> Visited(steps, m, t)
    ensures run[i + 1] == run[i] && Quiet(run[i], steps[i].thread)
  {
    var thread := steps[i].thread;
    RunSettles(run, steps, owner, i, thread);
    if thread in run[0].redis.latest {
      assert Visited(steps, m, thread);
      var j :| 0 <= j < m && steps[j].Thread? && steps[j].thread == thread;
      assert Visited(steps, i, thread);
    }
    SettleThread(run[i], owner, thread, steps[i].now);
  }

  /**
   A thread's step may be taken as one: chunks flushed between its reads and its replay change neither what
   was read nor what is decided from it, so acting then is acting at once.
   */
  lemma {:induction false} ChunksKeepDecision(
    run: seq<World>, steps: seq<RecoveryStep>, owner: Uuid -> Uuid, i: nat, j: nat, thread: Uuid)
    requires IsRecoveryRun(run, steps) && StartupInv(run[0], owner) && i <= j < |run|
    requires forall k :: i <= k < j ==> steps[k].Chunk?
    ensures RedisGet(run[j].redis, thread) == RedisGet(run[i].redis, thread) && PgRead(run[j], thread) == PgRead(run[i], thread)
    ensures Decide(RedisGet(run[i].redis, thread), PgRead(run[i], thread)) ==
            Decide(RedisGet(run[j].redis, thread), PgRead(run[j], thread))
    decreases j
  {
    hide Decide, PgRead, RedisGet;
    if i < j {
      ChunksKeepDecision(run, steps, owner, i, j - 1, thread);
      RunSettles(run, steps, owner, j - 1, thread);
      ChunkKeepsReads(run[j - 1], owner, steps[j - 1].size, steps[j - 1].acknowledged);
      assert run[j - 1 + 1] == StepNext(run[j - 1], steps[j - 1]);
    }
  }

  // ---------------------------------------------------------------- from a crash

  /** What is left after a crash: the table, and whatever Redis still holds. */
  function Crash(s: Layers, entries: set<(Uuid, EntryId)>, pointers: set<Uuid>): World {
    World(EvictKeys(s.redis, entries, pointers), [], s.pg.store.table)
  }

  function OwnerOf(begun: map<Uuid, Pending>): Uuid -> Uuid {
    k => if k in begun then begun[k].thread else 0
  }

  /** A crash at any point of any run leaves a state that recovery can start from. */
  lemma CrashStartsUp(s: Layers, entries: set<(Uuid, EntryId)>, pointers: set<Uuid>)
    requires LayersInv(s) && forall k :: k in s.begun ==> OwnTime(s.begun[k]) && s.begun[k].checkpoint.id == Some(k)
    ensures StartupInv(Crash(s, entries, pointers), OwnerOf(s.begun))
  {
  }

  /** Every other put of the thread is older than the checkpoint by more than the slack of 1000 microseconds. */
  ghost predicate BeyondSlack(puts: seq<Pending>, thread: Uuid, v: Stored) {
    v.checkpoint.ts.Some? &&
    forall q :: q in puts && q.thread == thread && StoredOf(q) != v ==>
      q.checkpoint.ts.Some? && v.checkpoint.ts.value - q.checkpoint.ts.value > 1000
  }

  /**
   Crash recovery at any moment, puts under way included: what a thread's surviving Redis checkpoint
   says is what the thread reads durably after any error-free recovery that visited it, and it is the
   thread's last put or the put that the crash interrupted.
   */
  lemma RecoveryRestoresSurvivor(
    s: Layers, entries: set<(Uuid, EntryId)>, pointers: set<Uuid>,
    run: seq<World>, steps: seq<RecoveryStep>, i: nat, thread: Uuid)
    requires LayersInv(s) && forall k :: k in s.begun ==> OwnTime(s.begun[k]) && s.begun[k].checkpoint.id == Some(k)
    requires RedisGet(Crash(s, entries, pointers).redis, thread).Some?
    requires IsValid(RedisGet(Crash(s, entries, pointers).redis, thread).value.checkpoint)
    requires BeyondSlack(s.pg.puts, thread, RedisGet(Crash(s, entries, pointers).redis, thread).value)
    requires IsRecoveryRun(run, steps) && run[0] == Crash(s, entries, pointers)
    requires i < |run| && Visited(steps, i, thread)
    ensures PgRead(run[i], thread) == RedisGet(Crash(s, entries, pointers).redis, thread)
    ensures Visible(s, thread, PgRead(run[i], thread))
  {
    CrashStartsUp(s, entries, pointers);
    SurvivorIsVisible(s, entries, pointers, thread);
    RowIsBeyondSlack(s, thread, RedisGet(Crash(s, entries, pointers).redis, thread).value);
    CrashReads(s, entries, pointers, thread);
    hide PgRead, RedisGet, StartupInv, IsRecoveryRun, LayersInv, BeyondSlack, Visible, Crash, Visited;
    RecoveryOutcome(run, steps, OwnerOf(s.begun), i, thread);
  }

  /**
   In particular: if the thread's last put survives in Redis, is well formed, and is more than the slack
   newer than every earlier put of the thread, recovery restores that last put, whatever the crash had
   left in the table.
   */
  lemma RecoveryRestoresLastPut(
    s: Layers, entries: set<(Uuid, EntryId)>, pointers: set<Uuid>,
    run: seq<World>, steps: seq<RecoveryStep>, i: nat, last: Pending)
    requires LayersInv(s) && forall k :: k in s.begun ==> OwnTime(s.begun[k]) && s.begun[k].checkpoint.id == Some(k)
    requires LastPut(s.pg.puts, last.thread) == Some(last) && last.thread !in s.writing
    requires RedisGet(Crash(s, entries, pointers).redis, last.thread).Some?
    requires IsValid(last.checkpoint) && BeyondSlack(s.pg.puts, last.thread, StoredOf(last))
    requires IsRecoveryRun(run, steps) && run[0] == Crash(s, entries, pointers)
    requires i < |run| && Visited(steps, i, last.thread)
    ensures PgRead(run[i], last.thread) == Some(StoredOf(last))
  {
    SurvivorIsVisible(s, entries, pointers, last.thread);
    RecoveryRestoresSurvivor(s, entries, pointers, run, steps, i, last.thread);
  }

  lemma RowIsBeyondSlack(s: Layers, thread: Uuid, v: Stored)
    requires Inv(s.pg) && BeyondSlack(s.pg.puts, thread, v)
    ensures var row := LatestRow(s.pg.store.table, thread);
            || row.None? || StoredOf(row.value) == v
            || (v.checkpoint.ts.Some? && row.value.checkpoint.ts.Some? && v.checkpoint.ts.value - row.value.checkpoint.ts.value > 1000)
  {
  }

  /** What Redis still answers after a crash was visible when it happened. */
  lemma SurvivorIsVisible(s: Layers, entries: set<(Uuid, EntryId)>, pointers: set<Uuid>, thread: Uuid)
    requires LayersInv(s) && RedisGet(Crash(s, entries, pointers).redis, thread).Some?
    ensures Visible(s, thread, RedisGet(Crash(s, entries, pointers).redis, thread))
  {
  }

  /**
   Exactly when the slack costs the last put: a well-formed last put that survives in Redis is restored if
   and only if the table's newest row is missing, is that put, or is older by more than the slack.
   */
  lemma LastPutIsRestoredIff(
    s: Layers, entries: set<(Uuid, EntryId)>, pointers: set<Uuid>,
    run: seq<World>, steps: seq<RecoveryStep>, i: nat, last: Pending)
    requires LayersInv(s) && forall k :: k in s.begun ==> OwnTime(s.begun[k]) && s.begun[k].checkpoint.id == Some(k)
    requires LastPut(s.pg.puts, last.thread) == Some(last) && last.thread !in s.writing
    requires RedisGet(Crash(s, entries, pointers).redis, last.thread).Some? && IsValid(last.checkpoint)
    requires IsRecoveryRun(run, steps) && run[0] == Crash(s, entries, pointers)
    requires i < |run| && Visited(steps, i, last.thread)
    ensures var row := LatestRow(s.pg.store.table, last.thread);
            PgRead(run[i], last.thread) == Some(StoredOf(last)) <==>
            || row.None? || StoredOf(row.value) == StoredOf(last)
            || (&& last.checkpoint.ts.Some? && row.value.checkpoint.ts.Some?
                && last.checkpoint.ts.value - row.value.checkpoint.ts.value > 1000)
  {
    hide LayersInv, LatestRow, LatestBuffered, IsRecoveryRun, Visited, RedisGet, Visible, StartupInv;
    CrashStartsUp(s, entries, pointers);
    SurvivorIsLast(s, entries, pointers, last);
    RecoveryOutcome(run, steps, OwnerOf(s.begun), i, last.thread);
    CrashReads(s, entries, pointers, last.thread);
  }

  lemma SurvivorIsLast(s: Layers, entries: set<(Uuid, EntryId)>, pointers: set<Uuid>, last: Pending)
    requires LayersInv(s) && LastPut(s.pg.puts, last.thread) == Some(last) && last.thread !in s.writing
    requires RedisGet(Crash(s, entries, pointers).redis, last.thread).Some?
    ensures RedisGet(Crash(s, entries, pointers).redis, last.thread) == Some(StoredOf(last))
  {
    SurvivorIsVisible(s, entries, pointers, last.thread);
  }

  lemma CrashReads(s: Layers, entries: set<(Uuid, EntryId)>, pointers: set<Uuid>, thread: Uuid)
    ensures PgRead(Crash(s, entries, pointers), thread) == Answer(LatestRow(s.pg.store.table, thread))
  {
  }

  /** Within the slack the last put is lost from both layers: the older flushed checkpoint replaces it. */
  lemma LastPutLostWithinSlack()
    ensures var first := Pending(1, 7, Checkpoint(Some(1), Some(10), Mapping, Mapping, 0), 0, 10);
            var last := Pending(2, 7, Checkpoint(Some(2), Some(900), Mapping, Mapping, 1), 0, 900);
            var redis := RedisPut(RedisPut(Redis(map[], map[]), 7, StoredOf(first), Accepted), 7, StoredOf(last), Accepted);
            var w := World(redis, [], map[(7, 1) := RowOf(first)]);
            && RedisGet(redis, 7) == Some(StoredOf(last))
            && var n := Settle(w, 7, 0);
               PgRead(n, 7) == RedisGet(n.redis, 7) == Some(StoredOf(first)) && n.buffer == []
  {
  }

  // ---------------------------------------------------------------- when the PostgreSQL read fails

  /**
   A replay only buffers, so a failing PostgreSQL read does not stop it: the thread then reads as the
   Redis checkpoint, which is the right answer if and only if an error-free pass would have replayed it
   or PostgreSQL already had it.
   */
  lemma FailedPgReadReplaysIff(w: World, owner: Uuid -> Uuid, thread: Uuid, now: int)
    requires StartupInv(w, owner) && LatestBuffered(w.buffer, thread).None?
    requires RedisGet(w.redis, thread).Some? && IsValid(RedisGet(w.redis, thread).value.checkpoint)
    requires forall q :: q in w.buffer ==> Some(q.key) != RedisGet(w.redis, thread).value.checkpoint.id
    ensures var (n, d) := RecoverThread(w, thread, true, NoFaults.(pgRead := true), now);
            && d.deltaReplayed == 1 && PgRead(n, thread) == RedisGet(w.redis, thread)
            && (PgRead(n, thread) == Settled(w, thread) <==>
                  || PgRead(w, thread).None? || PgRead(w, thread) == RedisGet(w.redis, thread)
                  || (var r, pg := RedisGet(w.redis, thread).value.checkpoint, PgRead(w, thread).value.checkpoint;
                      r.ts.Some? && pg.ts.Some? && r.ts.value - pg.ts.value > 1000))
  {
    var r := RedisGet(w.redis, thread).value;
    var p := PendingFor(thread, r.checkpoint, r.metadata, now);
    forall q | q in w.buffer ensures q.thread != thread {
      if q.thread == thread { LatestIn(w.buffer, q); }
    }
    PutDelta(w.buffer, w.table, p);
    FailedReadPuts(w, thread, now, p);
    SettledIs(w, thread);
    hide RecoverThread, Settled, StartupInv, LatestRow, RedisGet, BufferPut;
  }

  lemma FailedReadPuts(w: World, thread: Uuid, now: int, p: Pending)
    requires LatestBuffered(w.buffer, thread).None? && RedisGet(w.redis, thread) == Some(StoredOf(p))
    requires IsValid(p.checkpoint) && p == PendingFor(thread, p.checkpoint, p.metadata, now)
    ensures RecoverThread(w, thread, true, NoFaults.(pgRead := true), now).0 == w.(buffer := BufferPut(w.buffer, p))
    ensures RecoverThread(w, thread, true, NoFaults.(pgRead := true), now).1.deltaReplayed == 1
  {
  }

  /**
   PostgreSQL holds a newer checkpoint than Redis and cannot be read: the older one is replayed over it and
   read until a flush, which lets the newer row answer again; an error-free pass keeps the newer one.
   */
  lemma FailedPgReadHidesNewer()
    ensures var older := Pending(1, 7, Checkpoint(Some(1), Some(10), Mapping, Mapping, 0), 0, 10);
            var newer := Pending(2, 7, Checkpoint(Some(2), Some(5000), Mapping, Mapping, 1), 0, 5000);
            var w := World(RedisPut(Redis(map[], map[]), 7, StoredOf(older), Accepted), [], map[(7, 2) := RowOf(newer)]);
            && Settled(w, 7) == PgRead(Settle(w, 7, 0), 7) == Some(StoredOf(newer))
            && var (n, d) := RecoverThread(w, 7, true, NoFaults.(pgRead := true), 0);
               && d.deltaReplayed == 1 && n.buffer == [older] && PgRead(n, 7) == Some(StoredOf(older))
               && PgRead(World(n.redis, [], Upsert(n.table, n.buffer)), 7) == Some(StoredOf(newer))
  {
    var older := Pending(1, 7, Checkpoint(Some(1), Some(10), Mapping, Mapping, 0), 0, 10);
    var newer := Pending(2, 7, Checkpoint(Some(2), Some(5000), Mapping, Mapping, 1), 0, 5000);
    var table: Table := map[(7, 2) := RowOf(newer)];
    var w := World(RedisPut(Redis(map[], map[]), 7, StoredOf(older), Accepted), [], table);
    hide LatestRow, Upsert, RecoverThread, Settle, Settled;
    LatestRowIs(table, 7, newer);
    KeepsNewer(w, 7, 0);
    FailedReadPuts(w, 7, 0, older);
    UpsertOne(table, older);
    LatestRowIs(Upsert(table, [older]), 7, newer);
  }

  lemma KeepsNewer(w: World, thread: Uuid, now: int)
    requires RedisGet(w.redis, thread).Some? && PgRead(w, thread).Some?
    requires CompareTimestamps(RedisGet(w.redis, thread).value.checkpoint, PgRead(w, thread).value.checkpoint) < 0
    ensures Settle(w, thread, now) == w && Settled(w, thread) == PgRead(w, thread)
  {
  }

  lemma UpsertOne(table: Table, p: Pending)
    ensures Upsert(table, [p]) == table[(p.thread, p.key) := RowOf(p)]
  {
    assert [p][1..] == [];
  }
}
