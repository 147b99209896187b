/**
 The pass over a list of threads with its five counters, under any storage faults and any deadline.
 */
module RecoveryPass {
  import opened Checkpoints
  import opened PgStore
  import opened RedisLayer
  import opened CompositeStore
  import opened PostgresCheckpointers
  import opened Recovery

  /** What happens while the i-th thread is reconciled. */
  datatype Env = Env(faults: Faults, now: int)

  /** The thread has state in some layer. */
  ghost predicate HasState(w: World, thread: Uuid) {
    RedisGet(w.redis, thread).Some? || PgRead(w, thread).Some?
  }

  /** Neither read brings anything: Redis cannot answer or has nothing, and neither can PostgreSQL. */
  ghost predicate Unreadable(w: World, thread: Uuid, reachable: bool, f: Faults) {
    && (!reachable || f.redisRead || RedisGet(w.redis, thread).None?)
    && (PgRead(w, thread).None? || (f.pgRead && LatestBuffered(w.buffer, thread).None?))
  }

  /**
   The counters, and for the proofs how many threads so far had state, how many of those could not be
   read, how many were counted twice, and how many replays were refused.
   */
  datatype Tally = Tally(stats: Stats, found: nat, unread: nat, again: nat, refused: nat)

  const NewTally := Tally(Stats(0, 0, 0, 0, 0), 0, 0, 0, 0)

  function Examined(s: Stats): int {
    s.pgRecovered + s.deltaReplayed + s.conflicts + s.corrupted
  }

  function AddStats(t: Tally, d: Stats, hasState: bool, unreadable: bool): Tally {
    Tally(Add(t.stats, d),
          if hasState then t.found + 1 else t.found,
          if hasState && unreadable then t.unread + 1 else t.unread,
          if Total(d) > 1 then t.again + 1 else t.again,
          if d.skipped > 0 then t.refused + 1 else t.refused)
  }

  ghost function Tallied(w: World, thread: Uuid, reachable: bool, e: Env, t: Tally): Tally {
    AddStats(t, RecoverThread(w, thread, reachable, e.faults, e.now).1,
             HasState(w, thread), Unreadable(w, thread, reachable, e.faults))
  }

  /** The loop of `recover` from the i-th thread on; `expired(i)` is the deadline check before it. */
  ghost function Pass(
    w: World, threads: seq<Uuid>, reachable: bool, env: nat -> Env, expired: nat -> bool, i: nat, t: Tally): (World, Tally)
    decreases |threads| - i
  {
    if i >= |threads| then (w, t)
    else if expired(i) then (w, t.(stats := t.stats.(skipped := |threads| - Examined(t.stats))))
    else
      Pass(RecoverThread(w, threads[i], reachable, env(i).faults, env(i).now).0, threads, reachable, env, expired, i + 1,
           Tallied(w, threads[i], reachable, env(i), t))
  }

  ghost predicate Consistent(t: Tally) {
    && Total(t.stats) == t.found - t.unread + t.again
    && t.unread <= t.found && t.again <= t.stats.deltaReplayed
    && t.stats.skipped == t.refused
  }

  /** What every thread contributes. */
  ghost predicate Contribution(d: Stats, counted: bool) {
    && (if counted then 1 <= Total(d) <= 1 + d.deltaReplayed else Total(d) == 0)
    && d.deltaReplayed <= 1 && 0 <= d.skipped <= 1
  }

  /** Whatever fails, a thread raises no counter if and only if neither of its two reads brings anything. */
  lemma UncountedIff(w: World, thread: Uuid, reachable: bool, f: Faults, now: int)
    ensures Total(RecoverThread(w, thread, reachable, f, now).1) == 0 <==> Unreadable(w, thread, reachable, f)
  {
    ThreadContributes(w, thread, reachable, Env(f, now));
    hide RecoverThread, Unreadable;
  }

  lemma ReadsAnswer(w: World, thread: Uuid, reachable: bool, f: Faults)
    ensures var redis, pg := RedisTuple(w, thread, reachable, f.redisRead), PgTuple(w, thread, f.pgRead);
            && (Unreadable(w, thread, reachable, f) <==> redis.None? && pg.None?)
            && (redis.Some? || pg.Some? ==> HasState(w, thread))
  {
    hide LatestRow, LatestBuffered;
  }

  lemma ThreadContributes(w: World, thread: Uuid, reachable: bool, e: Env)
    ensures Contribution(RecoverThread(w, thread, reachable, e.faults, e.now).1, !Unreadable(w, thread, reachable, e.faults))
    ensures !Unreadable(w, thread, reachable, e.faults) ==> HasState(w, thread)
  {
    hide Decide, Act, ReadsBackValid, Count, RedisTuple, PgTuple, Unreadable, HasState;
    var redis, pg := RedisTuple(w, thread, reachable, e.faults.redisRead), PgTuple(w, thread, e.faults.pgRead);
    ReadsAnswer(w, thread, reachable, e.faults);
    var a := Decide(redis, pg);
    NoStateIff(redis, pg);
    CountTotals(a, e.faults.replay, ReadsBackValid(Act(w, thread, a, e.faults, e.now), thread, e.faults));
  }

  lemma AddedConsistent(t: Tally, d: Stats, hasState: bool, unreadable: bool)
    requires Consistent(t) && Contribution(d, !unreadable) && (!unreadable ==> hasState)
    ensures Consistent(AddStats(t, d, hasState, unreadable))
  {
    assert Total(Add(t.stats, d)) == Total(t.stats) + Total(d);
  }

  lemma TallyStep(w: World, thread: Uuid, reachable: bool, e: Env, t: Tally)
    requires Consistent(t)
    ensures Consistent(Tallied(w, thread, reachable, e, t))
  {
    hide Unreadable, HasState, RecoverThread, Consistent, Contribution;
    ThreadContributes(w, thread, reachable, e);
    AddedConsistent(t, RecoverThread(w, thread, reachable, e.faults, e.now).1,
                    HasState(w, thread), Unreadable(w, thread, reachable, e.faults));
  }

  /**
   In a pass that does not time out, under any faults, the five counters sum to the threads that had state
   when they were visited, less those that could not be read, plus those counted twice, of which there are
   at most as many as replays.
   */
  lemma {:induction false} CountersCoverThreads(
    w: World, threads: seq<Uuid>, reachable: bool, env: nat -> Env, expired: nat -> bool, i: nat, t: Tally)
    requires Consistent(t) && forall k :: i <= k < |threads| ==> !expired(k)
    ensures var end := Pass(w, threads, reachable, env, expired, i, t).1;
            && Consistent(end)
            && end.found - end.unread <= Total(end.stats) <= end.found - end.unread + end.stats.deltaReplayed
            && end.found <= t.found + if i < |threads| then |threads| - i else 0
    decreases |threads| - i
  {
    hide RecoverThread, HasState, Unreadable;
    if i < |threads| {
      TallyStep(w, threads[i], reachable, env(i), t);
      CountersCoverThreads(RecoverThread(w, threads[i], reachable, env(i).faults, env(i).now).0, threads, reachable,
                           env, expired, i + 1, Tallied(w, threads[i], reachable, env(i), t));
    }
  }

  /** The pass over one thread. */
  lemma OneThreadPass(w: World, thread: Uuid, reachable: bool, e: Env)
    ensures Pass(w, [thread], reachable, _ => e, _ => false, 0, NewTally).1 == Tallied(w, thread, reachable, e, NewTally)
  {
    hide RecoverThread, HasState, Unreadable;
    var n := RecoverThread(w, thread, reachable, e.faults, e.now).0;
    var t := Tallied(w, thread, reachable, e, NewTally);
    assert Pass(n, [thread], reachable, _ => e, _ => false, 1, t) == (n, t);
  }

  /** Both reads fail for a thread that is not buffered: it has state, and no counter shows it. */
  lemma BothReadsFail(w: World, thread: Uuid, reachable: bool, e: Env)
    requires HasState(w, thread) && LatestBuffered(w.buffer, thread).None? && e.faults.redisRead && e.faults.pgRead
    ensures var end := Pass(w, [thread], reachable, _ => e, _ => false, 0, NewTally).1;
            Total(end.stats) == 0 && end.found == 1 && end.unread == 1
  {
    hide RecoverThread, HasState, Pass, LatestBuffered, RedisGet, PgRead, Total, AddStats;
    OneThreadPass(w, thread, reachable, e);
    UncountedIff(w, thread, reachable, e.faults, e.now);
    AddNothing(RecoverThread(w, thread, reachable, e.faults, e.now).1);
  }

  lemma AddNothing(d: Stats)
    requires Total(d) == 0
    ensures var t := AddStats(NewTally, d, true, true);
            Total(t.stats) == 0 && t.found == 1 && t.unread == 1
  {
  }

  /** Such an input: one put, flushed and still in Redis. */
  lemma UncountedThread()
    ensures var p := Pending(1, 7, Checkpoint(Some(1), Some(10), Mapping, Mapping, 0), 0, 10);
            var w := World(RedisPut(Redis(map[], map[]), 7, StoredOf(p), Accepted), [], map[(7, 1) := RowOf(p)]);
            var e := Env(Faults(true, true, false, Accepted, false, false), 0);
            HasState(w, 7) && Total(Pass(w, [7], true, _ => e, _ => false, 0, NewTally).1.stats) == 0
  {
    var p := Pending(1, 7, Checkpoint(Some(1), Some(10), Mapping, Mapping, 0), 0, 10);
    var w := World(RedisPut(Redis(map[], map[]), 7, StoredOf(p), Accepted), [], map[(7, 1) := RowOf(p)]);
    assert HasState(w, 7);
    hide HasState, Pass, RecoverThread;
    BothReadsFail(w, 7, true, Env(Faults(true, true, false, Accepted, false, false), 0));
  }

  /**
   A pass that times out before thread k makes the five counters sum to the number of threads, but what
   it reports as skipped is the threads not reached, plus the visited ones that had no state or could not be
   read, plus the refused replays, minus the double counts.
   */
  lemma {:induction false} TimeoutCounters(
    w: World, threads: seq<Uuid>, reachable: bool, env: nat -> Env, expired: nat -> bool, i: nat, k: nat, t: Tally)
    requires Consistent(t) && i <= k < |threads| && expired(k) && forall j :: i <= j < k ==> !expired(j)
    ensures var end := Pass(w, threads, reachable, env, expired, i, t).1;
            && Total(end.stats) == |threads|
            && end.stats.skipped == (|threads| - k) + (k - end.found) + end.unread + end.refused - end.again
    decreases k - i
  {
    hide RecoverThread, HasState, Unreadable;
    if i < k {
      TallyStep(w, threads[i], reachable, env(i), t);
      TimeoutCounters(RecoverThread(w, threads[i], reachable, env(i).faults, env(i).now).0, threads, reachable,
                      env, expired, i + 1, k, Tallied(w, threads[i], reachable, env(i), t));
    }
  }

  // ---------------------------------------------------------------- the validation read cannot fail

  /** Well formed, and what is buffered is the Redis delta of its thread. */
  ghost predicate DeltaInv(w: World, owner: Uuid -> Uuid) {
    && WellFormed(w, owner)
    && forall p :: p in w.buffer ==> RedisGet(w.redis, p.thread) == Some(StoredOf(p))
  }

  lemma BufferedIsRedis(w: World, owner: Uuid -> Uuid, thread: Uuid)
    requires DeltaInv(w, owner) && LatestBuffered(w.buffer, thread).Some?
    ensures Answer(LatestBuffered(w.buffer, thread)) == RedisGet(w.redis, thread)
    ensures forall fails :: PgTuple(w, thread, fails) == RedisGet(w.redis, thread)
  {
  }

  lemma ReplayAppends(w: World, owner: Uuid -> Uuid, thread: Uuid, reachable: bool, f: Faults, now: int)
    requires DeltaInv(w, owner)
    requires Decide(RedisTuple(w, thread, reachable, f.redisRead), PgTuple(w, thread, f.pgRead)).Replay?
    ensures RedisGet(w.redis, thread).Some? && RedisGet(w.redis, thread).value.checkpoint.id.Some?
    ensures var r := RedisGet(w.redis, thread).value;
            && IsValid(r.checkpoint) && owner(r.checkpoint.id.value) == thread
            && forall q :: q in w.buffer ==> q.thread != thread && q.key != r.checkpoint.id.value
  {
  }

  /** Without interference a replayed thread always reads back well formed, whatever else fails. */
  lemma ReplayReadsBack(w: World, owner: Uuid -> Uuid, thread: Uuid, reachable: bool, f: Faults, now: int)
    requires DeltaInv(w, owner)
    ensures Total(RecoverThread(w, thread, reachable, f, now).1) <= 1
  {
    var a := Decide(RedisTuple(w, thread, reachable, f.redisRead), PgTuple(w, thread, f.pgRead));
    var n := Act(w, thread, a, f, now);
    if a.Replay? && !f.replay {
      ReplayAppends(w, owner, thread, reachable, f, now);
      var r := RedisGet(w.redis, thread).value;
      PutDelta(w.buffer, w.table, PendingFor(thread, r.checkpoint, r.metadata, now));
      AppendedReadsBack(w, thread, f, PendingFor(thread, r.checkpoint, r.metadata, now));
    }
    CountTotals(a, f.replay, ReadsBackValid(n, thread, f));
  }

  lemma AppendedReadsBack(w: World, thread: Uuid, f: Faults, p: Pending)
    requires LatestBuffered(BufferPut(w.buffer, p), thread) == Some(p) && IsValid(p.checkpoint)
    requires RedisGet(w.redis, thread) == Some(StoredOf(p))
    ensures ReadsBackValid(w.(buffer := BufferPut(w.buffer, p)), thread, f)
  {
  }

  lemma FaultsKeepDelta(w: World, owner: Uuid -> Uuid, thread: Uuid, reachable: bool, f: Faults, now: int)
    requires DeltaInv(w, owner) && f.rewrite.Possible()
    ensures DeltaInv(RecoverThread(w, thread, reachable, f, now).0, owner)
  {
    var a := Decide(RedisTuple(w, thread, reachable, f.redisRead), PgTuple(w, thread, f.pgRead));
    match a
    case Replay(r) =>
      ReplayAppends(w, owner, thread, reachable, f, now);
      if !f.replay {
        AppendKeepsDelta(w, owner, PendingFor(thread, r.checkpoint, r.metadata, now));
      }
    case PgWins(v) =>
      if LatestBuffered(w.buffer, thread).Some? {
        BufferedIsRedis(w, owner, thread);
      }
      RewriteKeepsDelta(w, owner, thread, v, f.rewrite);
    case _ =>
  }

  lemma AppendKeepsDelta(w: World, owner: Uuid -> Uuid, p: Pending)
    requires DeltaInv(w, owner)
    requires p.checkpoint.id == Some(p.key) && owner(p.key) == p.thread && OwnTime(p)
    requires RedisGet(w.redis, p.thread) == Some(StoredOf(p))
    requires forall q :: q in w.buffer ==> q.thread != p.thread && q.key != p.key
    ensures DeltaInv(w.(buffer := BufferPut(w.buffer, p)), owner)
  {
  }

  lemma RewriteKeepsDelta(w: World, owner: Uuid -> Uuid, thread: Uuid, v: Stored, o: WriteOutcome)
    requires DeltaInv(w, owner) && LatestBuffered(w.buffer, thread).None? && o.Possible()
    requires PgRead(w, thread) == Some(v)
    ensures DeltaInv(w.(redis := RedisPut(w.redis, thread, v, o)), owner)
  {
  }

  /** Nothing that concerns the thread differs. */
  ghost predicate SameThread(w: World, n: World, thread: Uuid) {
    && RedisGet(w.redis, thread) == RedisGet(n.redis, thread) && PgRead(w, thread) == PgRead(n, thread)
    && LatestBuffered(w.buffer, thread) == LatestBuffered(n.buffer, thread)
  }

  /** Reconciling one thread, whatever fails, does not concern any other. */
  lemma OthersUnchanged(w: World, owner: Uuid -> Uuid, thread: Uuid, reachable: bool, f: Faults, now: int, other: Uuid)
    requires DeltaInv(w, owner) && other != thread
    ensures SameThread(w, RecoverThread(w, thread, reachable, f, now).0, other)
  {
    assert DistinctKeys(w.buffer);
    assert SameThread(w, w, other);
    hide DeltaInv, SameThread, Decide, PgTuple, RedisGet;
    var a := Decide(RedisTuple(w, thread, reachable, f.redisRead), PgTuple(w, thread, f.pgRead));
    match a
    case Replay(r) =>
      ReplayAppends(w, owner, thread, reachable, f, now);
      DecidedDelta(RedisTuple(w, thread, reachable, f.redisRead), PgTuple(w, thread, f.pgRead));
      AppendConcernsOne(w, PendingFor(thread, r.checkpoint, r.metadata, now), other);
    case PgWins(v) => RewriteConcernsOne(w, thread, v, f.rewrite, other);
    case _ =>
  }

  lemma DecidedDelta(redis: Option<Stored>, pg: Option<Stored>)
    requires Decide(redis, pg).Replay?
    ensures redis == Some(Decide(redis, pg).delta)
  {
  }

  lemma AppendConcernsOne(w: World, p: Pending, other: Uuid)
    requires DistinctKeys(w.buffer) && other != p.thread
    requires forall q :: q in w.buffer ==> q.thread != p.thread && q.key != p.key
    ensures SameThread(w, w.(buffer := BufferPut(w.buffer, p)), other)
  {
    PutDelta(w.buffer, w.table, p);
    hide BufferPut, LatestRow;
  }

  lemma RewriteConcernsOne(w: World, thread: Uuid, v: Stored, o: WriteOutcome, other: Uuid)
    requires other != thread
    ensures SameThread(w, w.(redis := RedisPut(w.redis, thread, v, o)), other)
  {
  }

  /** How many of the threads from the i-th on have state. */
  ghost function StatefulThreads(w: World, threads: seq<Uuid>, i: nat): nat
    decreases |threads| - i
  {
    if i >= |threads| then 0 else (if HasState(w, threads[i]) then 1 else 0) + StatefulThreads(w, threads, i + 1)
  }

  /** How many of those cannot be read under the given faults. */
  ghost function UnreadableThreads(w: World, threads: seq<Uuid>, reachable: bool, env: nat -> Env, i: nat): nat
    decreases |threads| - i
  {
    if i >= |threads| then 0
    else
      (if HasState(w, threads[i]) && Unreadable(w, threads[i], reachable, env(i).faults) then 1 else 0)
      + UnreadableThreads(w, threads, reachable, env, i + 1)
  }

  lemma {:induction false} SameThreadsSameCounts(
    w: World, n: World, threads: seq<Uuid>, reachable: bool, env: nat -> Env, i: nat)
    requires forall k :: i <= k < |threads| ==> SameThread(w, n, threads[k])
    ensures StatefulThreads(w, threads, i) == StatefulThreads(n, threads, i)
    ensures UnreadableThreads(w, threads, reachable, env, i) == UnreadableThreads(n, threads, reachable, env, i)
    decreases |threads| - i
  {
    if i < |threads| {
      SameThreadsSameCounts(w, n, threads, reachable, env, i + 1);
      assert SameThread(w, n, threads[i]);
      hide LatestBuffered, RedisGet, PgRead;
    }
  }

  /**
   From the state after a crash, whatever fails on the way, a pass over distinct threads that does not time
   out counts once every thread that has state and can be read, and no other.
   */
  lemma {:induction false} CountersAreExact(
    w: World, owner: Uuid -> Uuid, threads: seq<Uuid>, reachable: bool, env: nat -> Env, expired: nat -> bool, i: nat, t: Tally)
    requires DeltaInv(w, owner) && Consistent(t) && t.again == 0
    requires forall j, k :: 0 <= j < k < |threads| ==> threads[j] != threads[k]
    requires forall k :: i <= k < |threads| ==> !expired(k)
    requires forall k :: env(k).faults.rewrite.Possible()
    ensures var end := Pass(w, threads, reachable, env, expired, i, t).1;
            && Consistent(end) && end.again == 0
            && end.found == t.found + StatefulThreads(w, threads, i)
            && end.unread == t.unread + UnreadableThreads(w, threads, reachable, env, i)
            && Total(end.stats) == end.found - end.unread
    decreases |threads| - i
  {
    if i < |threads| {
      var f, now := env(i).faults, env(i).now;
      var n := RecoverThread(w, threads[i], reachable, f, now).0;
      TallyStep(w, threads[i], reachable, env(i), t);
      ReplayReadsBack(w, owner, threads[i], reachable, f, now);
      FaultsKeepDelta(w, owner, threads[i], reachable, f, now);
      forall k | i + 1 <= k < |threads| ensures SameThread(w, n, threads[k]) {
        OthersUnchanged(w, owner, threads[i], reachable, f, now, threads[k]);
      }
      SameThreadsSameCounts(w, n, threads, reachable, env, i + 1);
      hide RecoverThread, HasState, Unreadable, DeltaInv, SameThread;
      CountersAreExact(n, owner, threads, reachable, env, expired, i + 1, Tallied(w, threads[i], reachable, env(i), t));
    }
  }

  // ---------------------------------------------------------------- an error-free pass

  /**
   What each counter means, for an error-free thread; `apart` is by how many microseconds the Redis checkpoint
   is newer.  Exactly one of them is raised if there is any state.
   */
  lemma CountersMean(w: World, owner: Uuid -> Uuid, thread: Uuid, now: int)
    requires DeltaInv(w, owner)
    ensures var d := RecoverThread(w, thread, true, NoFaults, now).1;
            var pg := PgRead(w, thread);
            match RedisGet(w.redis, thread)
            case None => d == Stats(if pg.Some? then 1 else 0, 0, 0, 0, 0)
            case Some(r) =>
              var c := r.checkpoint;
              var apart := if pg.Some? && c.ts.Some? && pg.value.checkpoint.ts.Some?
                           then c.ts.value - pg.value.checkpoint.ts.value else 0;
              d == if pg.None? || apart > 1000 then
                     if c.id.Some? && c.channelValues != Other && c.channelVersions == Mapping then Stats(0, 1, 0, 0, 0)
                     else Stats(0, 0, 0, 1, 0)
                   else if apart < -1000 || c == pg.value.checkpoint then Stats(1, 0, 0, 0, 0)
                   else Stats(0, 0, 1, 0, 0)
  {
    hide RecoverThread, DeltaInv, RedisGet, PgRead;
    VisitInFull(w, thread, true, NoFaults, now);
    ReplayReadsBack(w, owner, thread, true, NoFaults, now);
  }

  lemma {:induction false} NoneUnreadable(w: World, threads: seq<Uuid>, env: nat -> Env, i: nat)
    requires forall k :: env(k).faults == NoFaults
    ensures UnreadableThreads(w, threads, true, env, i) == 0
    decreases |threads| - i
  {
    if i < |threads| {
      NoneUnreadable(w, threads, env, i + 1);
      assert env(i).faults == NoFaults;
      hide LatestBuffered, RedisGet, PgRead;
    }
  }

  lemma NewIsConsistent()
    ensures Consistent(NewTally)
  {
  }

  /** An error-free, in-time pass over a duplicate-free list: the counters sum to the threads that have state. */
  lemma CleanPassCounts(
    w: World, owner: Uuid -> Uuid, threads: seq<Uuid>, env: nat -> Env, expired: nat -> bool)
    requires DeltaInv(w, owner)
    requires forall j, k :: 0 <= j < k < |threads| ==> threads[j] != threads[k]
    requires forall k :: 0 <= k < |threads| ==> !expired(k)
    requires forall k :: env(k).faults == NoFaults
    ensures Total(Pass(w, threads, true, env, expired, 0, NewTally).1.stats) == StatefulThreads(w, threads, 0)
  {
    hide RecoverThread, HasState, DeltaInv, Consistent, Pass, StatefulThreads, UnreadableThreads, Total;
    NewIsConsistent();
    assert forall k :: env(k).faults.rewrite.Possible();
    CountersAreExact(w, owner, threads, true, env, expired, 0, NewTally);
    NoneUnreadable(w, threads, env, 0);
  }

  /**
   What the pass leaves behind: without errors and in time, every thread of the list reads durably as Redis had it
   when PostgreSQL had nothing, or something older by more than 1000 microseconds, and Redis' copy was well formed;
   every thread that is not so reads as PostgreSQL had it.
   */
  lemma PassSettles(
    w: World, owner: Uuid -> Uuid, threads: seq<Uuid>, env: nat -> Env, expired: nat -> bool, t: Tally, thread: Uuid)
    requires StartupInv(w, owner)
    requires forall k :: 0 <= k < |threads| ==> !expired(k)
    requires forall k :: env(k).faults == NoFaults
    ensures var redis, pg := RedisGet(w.redis, thread), PgRead(w, thread);
            PgRead(Pass(w, threads, true, env, expired, 0, t).0, thread) ==
            if && thread in threads && redis.Some?
               && (var c := redis.value.checkpoint;
                   && c.id.Some? && c.channelValues != Other && c.channelVersions == Mapping
                   && (pg.None? || (c.ts.Some? && pg.value.checkpoint.ts.Some? && c.ts.value - pg.value.checkpoint.ts.value > 1000)))
            then redis else pg
  {
    hide PgRead, RedisGet, Settled, StartupInv, Pass;
    PassReads(w, owner, threads, env, expired, 0, t, thread);
    SettledIs(w, thread);
  }

  /** From the i-th thread on: what is still to come settles, and the rest stays. */
  lemma {:induction false} PassReads(
    w: World, owner: Uuid -> Uuid, threads: seq<Uuid>, env: nat -> Env, expired: nat -> bool, i: nat, t: Tally, thread: Uuid)
    requires StartupInv(w, owner) && i <= |threads|
    requires forall k :: i <= k < |threads| ==> !expired(k)
    requires forall k :: env(k).faults == NoFaults
    ensures PgRead(Pass(w, threads, true, env, expired, i, t).0, thread) ==
            if thread in threads[i..] then Settled(w, thread) else PgRead(w, thread)
    decreases |threads| - i
  {
    hide PgRead, RedisGet, Settled, StartupInv, HasState, Unreadable, Quiet;
    if i < |threads| {
      assert env(i).faults == NoFaults;
      var n := Settle(w, threads[i], env(i).now);
      SettleThread(w, owner, threads[i], env(i).now);
      SameReadsSettle(w, n, thread, threads[i]);
      assert threads[i..] == [threads[i]] + threads[i + 1..];
      PassReads(n, owner, threads, env, expired, i + 1, Tallied(w, threads[i], true, env(i), t), thread);
      hide RecoverThread;
    }
  }

  lemma SameReadsSettle(w: World, n: World, thread: Uuid, visited: Uuid)
    requires thread != visited ==> PgRead(n, thread) == PgRead(w, thread) && RedisGet(n.redis, thread) == RedisGet(w.redis, thread)
    ensures thread != visited ==> Settled(n, thread) == Settled(w, thread)
  {
  }

  /** `_collect_recovery_threads`: PostgreSQL's list, then Redis', without repetitions, in order of first occurrence. */
  method CollectRecoveryThreads(pgThreads: Option<seq<Uuid>>, redisThreads: Option<seq<Uuid>>)
    returns (threads: seq<Uuid>, redisReachable: bool)
    ensures redisReachable == redisThreads.Some?
    ensures threads == Dedupe((if pgThreads.Some? then pgThreads.value else []) +
                              (if redisThreads.Some? then redisThreads.value else []))
    ensures forall t :: t in threads <==>
              (pgThreads.Some? && t in pgThreads.value) || (redisThreads.Some? && t in redisThreads.value)
    ensures forall j, k :: 0 <= j < k < |threads| ==> threads[j] != threads[k]
  {
    var all: seq<Uuid> := [];
    if pgThreads.Some? {
      all := all + pgThreads.value;
    }
    redisReachable := true;
    if redisThreads.Some? {
      all := all + redisThreads.value;
    } else {
      redisReachable := false;
    }
    assert all == (if pgThreads.Some? then pgThreads.value else []) + (if redisThreads.Some? then redisThreads.value else []);
    threads := Dedupe(all);
    forall t ensures t in threads <==> t in all {
    }
  }
}
