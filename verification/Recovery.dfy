/**
 The recovery pass after a restart, as functions of both layers.  `RecoverThread` reconciles one
 thread under any combination of storage faults; the pass walks a list of threads while the flusher
 may already be draining the buffer, chunk by chunk.
 */
module Recovery {
  import opened Checkpoints
  import opened PgStore
  import opened RedisLayer
  import opened CompositeStore
  import opened PostgresCheckpointers

  /** What survives in both layers; `buffer` is empty right after a crash. */
  datatype World = World(redis: Redis, buffer: Buffer, table: Table)

  /** Which accesses for one thread fail; `rewrite` is how the conflict rewrite of Redis ends. */
  datatype Faults = Faults(
    pgRead: bool, redisRead: bool, replay: bool, rewrite: WriteOutcome, checkRedis: bool, checkPg: bool)

  const NoFaults := Faults(false, false, false, Accepted, false, false)

  datatype Stats = Stats(pgRecovered: nat, deltaReplayed: nat, conflicts: nat, corrupted: nat, skipped: int)

  function Add(a: Stats, b: Stats): Stats {
    Stats(a.pgRecovered + b.pgRecovered, a.deltaReplayed + b.deltaReplayed, a.conflicts + b.conflicts,
          a.corrupted + b.corrupted, a.skipped + b.skipped)
  }

  function Total(s: Stats): int {
    s.pgRecovered + s.deltaReplayed + s.conflicts + s.corrupted + s.skipped
  }

  /** `_RECOVERY_TIMESTAMP_SLACK_SECONDS`, 1 ms, in microseconds. */
  const SLACK := 1000

  /** +1 if Redis is newer, -1 if PostgreSQL is, 0 if within the slack or not comparable. */
  function CompareTimestamps(redis: Checkpoint, pg: Checkpoint): int {
    if redis.ts.None? || pg.ts.None? then 0
    else if redis.ts.value - pg.ts.value > SLACK then 1
    else if pg.ts.value - redis.ts.value > SLACK then -1
    else 0
  }

  /** `_is_valid_checkpoint` on a dict. */
  predicate IsValid(c: Checkpoint) {
    c.id.Some? && (c.channelValues.Mapping? || c.channelValues.Listing?) && c.channelVersions.Mapping?
  }

  ghost function PgRead(w: World, thread: Uuid): Option<Stored> {
    Answer(Read(w.buffer, w.table, thread))
  }

  /** A failing SELECT matters only when the buffer has no answer. */
  ghost function PgTuple(w: World, thread: Uuid, fails: bool): Option<Stored> {
    if fails && LatestBuffered(w.buffer, thread).None? then None else PgRead(w, thread)
  }

  function RedisTuple(w: World, thread: Uuid, reachable: bool, fails: bool): Option<Stored> {
    if reachable && !fails then RedisGet(w.redis, thread) else None
  }

  datatype Action = NoState | KeepPg | Replay(delta: Stored) | NeedsReview | PgWins(winner: Stored)

  /** The branch that one thread takes, given what the two reads returned. */
  function Decide(redis: Option<Stored>, pg: Option<Stored>): Action {
    if redis.None? then (if pg.Some? then KeepPg else NoState)
    else
      var r := redis.value;
      if pg.None? then (if IsValid(r.checkpoint) then Replay(r) else NeedsReview)
      else
        var cmp := CompareTimestamps(r.checkpoint, pg.value.checkpoint);
        if cmp > 0 then (if IsValid(r.checkpoint) then Replay(r) else NeedsReview)
        else if cmp < 0 then KeepPg
        else if r.checkpoint != pg.value.checkpoint then PgWins(pg.value)
        else KeepPg
  }

  /** The replayed thread reads back through the composite as something well-formed. */
  ghost predicate ReadsBackValid(w: World, thread: Uuid, f: Faults) {
    var redis := RedisTuple(w, thread, true, f.checkRedis);
    var r := if redis.Some? then redis else PgTuple(w, thread, f.checkPg);
    r.Some? && IsValid(r.value.checkpoint)
  }

  /** What the branch does to the layers; `now` is the clock a replay uses for an unreadable timestamp. */
  function Act(w: World, thread: Uuid, a: Action, f: Faults, now: int): World {
    match a
    case PgWins(v) => w.(redis := RedisPut(w.redis, thread, v, f.rewrite))
    case Replay(r) =>
      if f.replay || r.checkpoint.id.None? then w
      else w.(buffer := BufferPut(w.buffer, PendingFor(thread, r.checkpoint, r.metadata, now)))
    case _ => w
  }

  /** The counters that the branch raises. */
  function Count(a: Action, replayRefused: bool, readsBack: bool): Stats {
    match a
    case NoState => Stats(0, 0, 0, 0, 0)
    case KeepPg => Stats(1, 0, 0, 0, 0)
    case NeedsReview => Stats(0, 0, 0, 1, 0)
    case PgWins(_) => Stats(0, 0, 1, 0, 0)
    case Replay(_) =>
      if replayRefused then Stats(0, 0, 0, 0, 1)
      else if readsBack then Stats(0, 1, 0, 0, 0)
      else Stats(0, 1, 0, 1, 0)
  }

  /** `_recover_thread` */
  ghost function RecoverThread(w: World, thread: Uuid, reachable: bool, f: Faults, now: int): (World, Stats) {
    var a := Decide(RedisTuple(w, thread, reachable, f.redisRead), PgTuple(w, thread, f.pgRead));
    var n := Act(w, thread, a, f, now);
    (n, Count(a, f.replay, ReadsBackValid(n, thread, f)))
  }

  /** The error-free step of one thread. */
  ghost function Settle(w: World, thread: Uuid, now: int): World {
    RecoverThread(w, thread, true, NoFaults, now).0
  }

  // ---------------------------------------------------------------- under any faults

  /**
   Whatever fails: what a visit adds to the buffer is the Redis checkpoint of its thread, and it has an id,
   channel values that are a mapping or a list, and channel versions that are a mapping.
   */
  lemma OnlyValidIsReplayed(w: World, thread: Uuid, reachable: bool, f: Faults, now: int, p: Pending)
    requires p in RecoverThread(w, thread, reachable, f, now).0.buffer && p !in w.buffer
    ensures IsValid(p.checkpoint) && p.thread == thread
    ensures p.checkpoint.id == Some(p.key) && p.checkpoint.channelValues != Other && p.checkpoint.channelVersions == Mapping
    ensures reachable && !f.redisRead && !f.replay && RedisGet(w.redis, thread) == Some(StoredOf(p))
  {
  }

  /**
   A visit in full, under any faults, times in microseconds.  A Redis checkpoint that PostgreSQL was not seen to
   have, or that is newer by more than 1000, is buffered if it is well formed and nothing fails, and flagged if it
   is not; different checkpoints not further apart, or without times, are a conflict that PostgreSQL's wins;
   otherwise nothing changes.
   */
  lemma VisitInFull(w: World, thread: Uuid, reachable: bool, f: Faults, now: int)
    ensures var (n, d) := RecoverThread(w, thread, reachable, f, now);
            var pg := if f.pgRead && LatestBuffered(w.buffer, thread).None? then None else PgRead(w, thread);
            match (if reachable && !f.redisRead then RedisGet(w.redis, thread) else None)
            case None => n == w && d == Stats(if pg.Some? then 1 else 0, 0, 0, 0, 0)
            case Some(r) =>
              var c := r.checkpoint;
              var apart := if pg.Some? && c.ts.Some? && pg.value.checkpoint.ts.Some?
                           then c.ts.value - pg.value.checkpoint.ts.value else 0;
              if pg.None? || apart > 1000 then
                if c.id.None? || c.channelValues == Other || c.channelVersions != Mapping
                then n == w && d == Stats(0, 0, 0, 1, 0)
                else if f.replay then n == w && d == Stats(0, 0, 0, 0, 1)
                else && n == w.(buffer := BufferPut(w.buffer, Pending(c.id.value, thread, c, r.metadata,
                                                                      if c.ts.Some? then c.ts.value else now)))
                     && d == Stats(0, 1, 0, if ReadsBack(n, thread, f) then 0 else 1, 0)
              else if apart < -1000 || c == pg.value.checkpoint then n == w && d == Stats(1, 0, 0, 0, 0)
              else n == w.(redis := RedisPut(w.redis, thread, pg.value, f.rewrite)) && d == Stats(0, 0, 1, 0, 0)
  {
    hide PgRead, RedisGet, RedisPut, BufferPut, LatestBuffered;
  }

  /** What the thread reads as, Redis first, is a well-formed checkpoint. */
  ghost predicate ReadsBack(w: World, thread: Uuid, f: Faults) {
    var pg := if f.checkPg && LatestBuffered(w.buffer, thread).None? then None else PgRead(w, thread);
    var r := if !f.checkRedis && RedisGet(w.redis, thread).Some? then RedisGet(w.redis, thread) else pg;
    r.Some? && r.value.checkpoint.id.Some? && r.value.checkpoint.channelValues != Other
    && r.value.checkpoint.channelVersions == Mapping
  }

  /** A thread that is flagged at the source keeps both layers, and so does one whose replay is refused. */
  lemma FlaggedThreadIsUntouched(w: World, thread: Uuid, reachable: bool, f: Faults, now: int)
    ensures var (n, d) := RecoverThread(w, thread, reachable, f, now);
            && n.table == w.table
            && (d.conflicts == 0 ==> n.redis == w.redis)
            && (d.deltaReplayed == 0 ==> n.buffer == w.buffer)
            && (d.corrupted > 0 && d.deltaReplayed == 0 ==> n == w)
            && (d.skipped > 0 ==> n == w)
  {
  }

  lemma NoStateIff(redis: Option<Stored>, pg: Option<Stored>)
    ensures Decide(redis, pg).NoState? <==> redis.None? && pg.None?
  {
  }

  /** A branch counts its thread once unless there was no state, and a second time when a replay did not read back. */
  lemma CountTotals(a: Action, replayRefused: bool, readsBack: bool)
    ensures Total(Count(a, replayRefused, readsBack)) ==
            if a.NoState? then 0 else if a.Replay? && !replayRefused && !readsBack then 2 else 1
    ensures Count(a, replayRefused, readsBack).deltaReplayed == if a.Replay? && !replayRefused then 1 else 0
    ensures Count(a, replayRefused, readsBack).skipped == if a.Replay? && replayRefused then 1 else 0
  {
  }

  // ---------------------------------------------------------------- well-formed worlds

  /** Ids have one owner, stored checkpoints carry the id they are stored under, and times are their own. */
  ghost predicate WellFormed(w: World, owner: Uuid -> Uuid) {
    && DistinctKeys(w.buffer)
    && (forall p :: p in w.buffer ==> owner(p.key) == p.thread && p.checkpoint.id == Some(p.key) && OwnTime(p))
    && (forall e :: e in w.table ==>
          && owner(e.1) == e.0 && w.table[e].checkpoint.id == Some(e.1)
          && OwnTime(PendingOf(e.0, e.1, w.table[e])))
    && (forall e :: e in w.redis.entries ==> w.redis.entries[e].checkpoint.id == e.1)
    && (forall t :: t in w.redis.latest && w.redis.latest[t].Some? ==> owner(w.redis.latest[t].value) == t)
  }

  ghost predicate OwnTime(p: Pending) {
    p.checkpoint.ts.Some? ==> p.createdAt == p.checkpoint.ts.value
  }

  /** What is buffered during recovery is the Redis delta of its thread, newer than the thread's rows. */
  ghost predicate BufferIsDelta(w: World) {
    && (forall p :: p in w.buffer ==> RedisGet(w.redis, p.thread) == Some(StoredOf(p)))
    && (forall p, k :: p in w.buffer && (p.thread, k) in w.table && k != p.key ==>
          Older(PendingOf(p.thread, k, w.table[(p.thread, k)]), p))
  }

  ghost predicate StartupInv(w: World, owner: Uuid -> Uuid) {
    WellFormed(w, owner) && BufferIsDelta(w)
  }

  lemma DeltaIsLatest(w: World, owner: Uuid -> Uuid, p: Pending)
    requires StartupInv(w, owner) && p in w.buffer
    ensures LatestBuffered(w.buffer, p.thread) == Some(p)
  {
  }

  /** Putting a fresh delta: its own thread reads it, other threads read what they did. */
  lemma PutDelta(buffer: Buffer, table: Table, p: Pending)
    requires DistinctKeys(buffer)
    requires forall q :: q in buffer ==> q.thread != p.thread && q.key != p.key
    ensures BufferPut(buffer, p) == buffer + [p]
    ensures LatestBuffered(buffer + [p], p.thread) == Some(p)
    ensures forall t :: t != p.thread ==> LatestBuffered(buffer + [p], t) == LatestBuffered(buffer, t)
    ensures DistinctKeys(buffer + [p])
  {
  }

  /** What a replay sees: the delta is not buffered yet and is newer than every row of its thread. */
  lemma ReplayIsFresh(w: World, owner: Uuid -> Uuid, thread: Uuid, now: int)
    requires StartupInv(w, owner)
    requires Decide(RedisGet(w.redis, thread), PgRead(w, thread)).Replay?
    ensures var r := RedisGet(w.redis, thread).value;
            && r.checkpoint.id.Some? && owner(r.checkpoint.id.value) == thread
            && (forall q :: q in w.buffer ==> q.thread != thread && q.key != r.checkpoint.id.value)
            && (forall k :: (thread, k) in w.table && k != r.checkpoint.id.value ==>
                  Older(PendingOf(thread, k, w.table[(thread, k)]), PendingFor(thread, r.checkpoint, r.metadata, now)))
  {
  }

  /** The durable reading that an error-free pass settles on, decided by the state it starts from. */
  ghost function Settled(w: World, thread: Uuid): Option<Stored> {
    match Decide(RedisGet(w.redis, thread), PgRead(w, thread))
    case Replay(r) => Some(r)
    case _ => PgRead(w, thread)
  }

  lemma SettledIs(w: World, thread: Uuid)
    ensures var redis, pg := RedisGet(w.redis, thread), PgRead(w, thread);
            Settled(w, thread) ==
            if && redis.Some?
               && (var c := redis.value.checkpoint;
                   && c.id.Some? && c.channelValues != Other && c.channelVersions == Mapping
                   && (pg.None? || (c.ts.Some? && pg.value.checkpoint.ts.Some? && c.ts.value - pg.value.checkpoint.ts.value > 1000)))
            then redis else pg
  {
    hide PgRead, RedisGet;
  }

  /** Buffering a fresh delta keeps the world well formed. */
  lemma DeltaKeepsInv(w: World, owner: Uuid -> Uuid, p: Pending)
    requires StartupInv(w, owner)
    requires p.checkpoint.id == Some(p.key) && owner(p.key) == p.thread && OwnTime(p)
    requires RedisGet(w.redis, p.thread) == Some(StoredOf(p))
    requires forall q :: q in w.buffer ==> q.thread != p.thread && q.key != p.key
    requires forall k :: (p.thread, k) in w.table && k != p.key ==> Older(PendingOf(p.thread, k, w.table[(p.thread, k)]), p)
    ensures StartupInv(w.(buffer := w.buffer + [p]), owner)
  {
  }

  lemma SettleReplay(w: World, owner: Uuid -> Uuid, thread: Uuid, now: int)
    requires StartupInv(w, owner)
    requires Decide(RedisGet(w.redis, thread), PgRead(w, thread)).Replay?
    ensures var n := Settle(w, thread, now);
            && StartupInv(n, owner) && n.redis == w.redis
            && PgRead(n, thread) == RedisGet(w.redis, thread)
            && forall t :: t != thread ==> PgRead(n, t) == PgRead(w, t)
  {
    var r := RedisGet(w.redis, thread).value;
    var p := PendingFor(thread, r.checkpoint, r.metadata, now);
    ReplayIsFresh(w, owner, thread, now);
    PutDelta(w.buffer, w.table, p);
    DeltaKeepsInv(w, owner, p);
    SettleIsPut(w, thread, now, p);
  }

  lemma SettleIsPut(w: World, thread: Uuid, now: int, p: Pending)
    requires Decide(RedisGet(w.redis, thread), PgRead(w, thread)) == Replay(StoredOf(p))
    requires p.checkpoint.id.Some? && p == PendingFor(thread, p.checkpoint, p.metadata, now)
    requires BufferPut(w.buffer, p) == w.buffer + [p]
    ensures Settle(w, thread, now) == w.(buffer := w.buffer + [p])
  {
  }

  lemma SettleConflict(w: World, owner: Uuid -> Uuid, thread: Uuid, now: int)
    requires StartupInv(w, owner)
    requires Decide(RedisGet(w.redis, thread), PgRead(w, thread)).PgWins?
    ensures var n := Settle(w, thread, now);
            && StartupInv(n, owner) && n.buffer == w.buffer && n.table == w.table
            && RedisGet(n.redis, thread) == PgRead(w, thread)
            && forall t :: t != thread ==> RedisGet(n.redis, t) == RedisGet(w.redis, t)
  {
    hide LatestRow, BufferPut, CompareTimestamps, IsValid;
    forall q | q in w.buffer ensures q.thread != thread {
      if q.thread == thread {
        DeltaIsLatest(w, owner, q);
      }
    }
  }

  /** No step of recovery is left for the thread: another pass would keep it. */
  ghost predicate Quiet(w: World, thread: Uuid) {
    var a := Decide(RedisGet(w.redis, thread), PgRead(w, thread));
    !a.Replay? && !a.PgWins?
  }

  /** One error-free thread: it reads as settled and is quiet; every other thread is as before. */
  lemma SettleThread(w: World, owner: Uuid -> Uuid, thread: Uuid, now: int)
    requires StartupInv(w, owner)
    ensures var n := Settle(w, thread, now);
            && StartupInv(n, owner) && Quiet(n, thread)
            && PgRead(n, thread) == Settled(w, thread) == Settled(n, thread)
            && (Quiet(w, thread) ==> n == w)
            && forall t :: t != thread ==> PgRead(n, t) == PgRead(w, t) && RedisGet(n.redis, t) == RedisGet(w.redis, t)
  {
    match Decide(RedisGet(w.redis, thread), PgRead(w, thread))
    case Replay(_) => SettleReplay(w, owner, thread, now);
    case PgWins(_) => SettleConflict(w, owner, thread, now);
    case _ =>
  }

  /** So a Redis checkpoint that PostgreSQL lacks, or has older, reads durably afterwards if and only if it is well formed. */
  lemma ReplayedIff(w: World, owner: Uuid -> Uuid, thread: Uuid, now: int, r: Stored)
    requires StartupInv(w, owner) && RedisGet(w.redis, thread) == Some(r)
    requires var pg := PgRead(w, thread);
             || pg.None?
             || (&& r.checkpoint.ts.Some? && pg.value.checkpoint.ts.Some?
                 && r.checkpoint.ts.value - pg.value.checkpoint.ts.value > 1000)
    ensures var (n, d) := RecoverThread(w, thread, true, NoFaults, now);
            var c := r.checkpoint;
            && (PgRead(n, thread) == Some(r) <==>
                  && c.id.Some? && (c.channelValues == Mapping || c.channelValues == Listing) && c.channelVersions == Mapping)
            && (PgRead(n, thread) != Some(r) ==> n == w && d == Stats(0, 0, 0, 1, 0))
  {
    hide PgRead, RedisGet, StartupInv, Quiet, ReadsBackValid, Act, Count;
    VisitInFull(w, thread, true, NoFaults, now);
    SettleThread(w, owner, thread, now);
  }
}
