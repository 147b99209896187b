/**
 `RedisPostgresCheckpointer` itself: both layers as objects it updates in place, each method proved
 against the functions of CompositeStore, Recovery and RecoveryPass.  How a storage access ends is a
 parameter; `row` stands for what a SELECT answers when it answers.
 */
module CompositeCheckpointers {
  import opened Checkpoints
  import opened PgStore
  import opened RedisLayer
  import opened CompositeStore
  import opened PostgresCheckpointers
  import opened Recovery
  import opened RecoveryPass

  class RedisPostgresCheckpointer {
    const redis: RedisCheckpointer
    const postgres: PostgresCheckpointer

    constructor (redis: RedisCheckpointer, postgres: PostgresCheckpointer)
      ensures this.redis == redis && this.postgres == postgres
    {
      this.redis, this.postgres := redis, postgres;
    }

    ghost function World(): World
      reads redis, postgres, postgres.pool
    {
      Recovery.World(redis.server, postgres.buffer, postgres.pool.table)
    }

    /** `aput` after backpressure: it fails only if both layers fail. */
    method Aput(thread: Uuid, checkpoint: Checkpoint, metadata: Metadata, outcome: WriteOutcome, now: int)
      returns (ok: bool)
      requires postgres.Valid() && outcome.Possible()
      modifies redis, postgres`buffer, postgres`panicMode
      ensures postgres.Valid()
      ensures ok <==> outcome.ok || checkpoint.id.Some?
      ensures redis.server == RedisPut(old(redis.server), thread, Stored(checkpoint, metadata), outcome)
      ensures postgres.buffer == if checkpoint.id.None? then old(postgres.buffer)
                                 else BufferPut(old(postgres.buffer), PendingFor(thread, checkpoint, metadata, now))
      ensures outcome.ok ==>
                CompositeRead(redis.server, postgres.buffer, postgres.pool.table, thread, false) == Some(Stored(checkpoint, metadata))
    {
      var redisSuccess := redis.Aput(thread, checkpoint, metadata, outcome);
      var buffered := postgres.Aput(Id(thread), checkpoint, metadata, now);
      var pgSuccess := buffered.Buffered?;
      ok := redisSuccess || pgSuccess;
    }

    /** `aget`: a failing Redis read and a failing SELECT are swallowed. */
    method Aget(thread: Uuid, redisFails: bool, select: Fetch) returns (r: Option<Stored>)
      requires select.Fetched? ==> select.row == LatestRow(postgres.pool.table, thread)
      ensures select.Fetched? ==>
                r == CompositeRead(redis.server, postgres.buffer, postgres.pool.table, thread, redisFails)
      ensures select.FetchFailed? ==>
                r == if !redisFails && RedisGet(redis.server, thread).Some? then RedisGet(redis.server, thread)
                     else Answer(LatestBuffered(postgres.buffer, thread))
    {
      if !redisFails {
        r := redis.AgetTuple(thread);
        if r.Some? {
          return;
        }
      }
      var found := postgres.Aget(thread, select);
      match found
      case ReadFailed => r := None;
      case Found(p) => r := Answer(p);
    }

    /**
     `adelete_thread`: both failures are swallowed.  The thread reads as nothing afterwards if and only if
     Redis has lost what it could answer (or does not answer) and PostgreSQL's DELETE was applied or had no
     row to delete; whether they reported success does not matter.
     */
    method AdeleteThread(thread: Uuid, scanned: seq<ThreadKey>, outcome: nat -> DeleteOutcome, pgOutcome: DeleteOutcome)
      requires postgres.Valid() && pgOutcome.Possible() && forall i :: outcome(i).Possible()
      modifies redis, postgres`buffer, postgres.pool
      ensures postgres.Valid()
      ensures postgres.buffer == DropThread(old(postgres.buffer), thread)
      ensures postgres.pool.table ==
              if pgOutcome.applied then DropRows(old(postgres.pool.table), thread) else old(postgres.pool.table)
      ensures var keys := scanned + [PointerKey];
              var gone := keys[..DeletesApplied(outcome, 0, |keys|)];
              && redis.server == DropKeys(old(redis.server), thread, gone)
              && forall redisFails ::
                   CompositeRead(redis.server, postgres.buffer, postgres.pool.table, thread, redisFails) == None <==>
                   && (redisFails || Silenced(old(redis.server), thread, gone))
                   && (pgOutcome.applied || LatestRow(old(postgres.pool.table), thread) == None)
    {
      var redisOk := redis.AdeleteThread(thread, scanned, outcome);
      var pgOk := postgres.AdeleteThread(thread, pgOutcome);
      hide LatestBuffered, LatestRow, DropThread, RedisGet, Silenced, DropKeys;
    }

    /** `_validate_recovered_thread` */
    method ValidateRecoveredThread(thread: Uuid, f: Faults, row: Option<Pending>) returns (valid: bool)
      requires row == LatestRow(postgres.pool.table, thread)
      ensures valid <==> ReadsBackValid(World(), thread, f)
    {
      var r := Aget(thread, f.checkRedis, if f.checkPg then FetchFailed else Fetched(row));
      valid := r.Some? && IsValid(r.value.checkpoint);
    }

    /** `_recover_thread` */
    method RecoverThread(thread: Uuid, redisReachable: bool, f: Faults, now: int, row: Option<Pending>, stats: Stats)
      returns (stats': Stats)
      requires postgres.Valid() && f.rewrite.Possible() && row == LatestRow(postgres.pool.table, thread)
      modifies redis, postgres`buffer, postgres`panicMode
      ensures postgres.Valid()
      ensures World() == Recovery.RecoverThread(old(World()), thread, redisReachable, f, now).0
      ensures stats' == Add(stats, Recovery.RecoverThread(old(World()), thread, redisReachable, f, now).1)
    {
      hide LatestRow, LatestBuffered, BufferPut, RedisGet, ReadsBackValid, CompareTimestamps;
      var pgTuple: Option<Stored> := None;
      var found := postgres.Aget(thread, if f.pgRead then FetchFailed else Fetched(row));
      if found.Found? {
        pgTuple := Answer(found.value);
      }
      var redisTuple: Option<Stored> := None;
      if redisReachable && !f.redisRead {
        redisTuple := redis.AgetTuple(thread);
      }
      assert pgTuple == PgTuple(World(), thread, f.pgRead);
      assert redisTuple == RedisTuple(World(), thread, redisReachable, f.redisRead);
      stats' := stats;
      if redisTuple.None? {
        if pgTuple.Some? {
          stats' := stats'.(pgRecovered := stats'.pgRecovered + 1);
        }
        return;
      }
      var delta := redisTuple.value;
      var comparison := if pgTuple.None? then 1 else CompareTimestamps(delta.checkpoint, pgTuple.value.checkpoint);
      if comparison > 0 {
        stats' := ReplayThread(thread, delta, f, now, row, stats);
        return;
      }
      if comparison < 0 {
        stats' := stats'.(pgRecovered := stats'.pgRecovered + 1);
        return;
      }
      if delta.checkpoint != pgTuple.value.checkpoint {
        stats' := stats'.(conflicts := stats'.conflicts + 1);
        var rewritten := redis.Aput(thread, pgTuple.value.checkpoint, pgTuple.value.metadata, f.rewrite);
      } else {
        stats' := stats'.(pgRecovered := stats'.pgRecovered + 1);
      }
    }

    /** What `_recover_thread` does for a thread whose Redis checkpoint is the newer one. */
    method ReplayThread(thread: Uuid, delta: Stored, f: Faults, now: int, row: Option<Pending>, stats: Stats)
      returns (stats': Stats)
      requires postgres.Valid() && row == LatestRow(postgres.pool.table, thread)
      modifies postgres`buffer, postgres`panicMode
      ensures postgres.Valid()
      ensures var a := if IsValid(delta.checkpoint) then Replay(delta) else NeedsReview;
              && World() == Act(old(World()), thread, a, f, now)
              && stats' == Add(stats, Count(a, f.replay, ReadsBackValid(World(), thread, f)))
    {
      hide LatestRow, LatestBuffered, BufferPut, RedisGet, ReadsBackValid;
      if !IsValid(delta.checkpoint) {
        return stats.(corrupted := stats.corrupted + 1);
      }
      var landed := ReplayToPostgres(thread, delta, f.replay, now);
      if !landed {
        return stats.(skipped := stats.skipped + 1);
      }
      stats' := stats.(deltaReplayed := stats.deltaReplayed + 1);
      var valid := ValidateRecoveredThread(thread, f, row);
      if !valid {
        stats' := stats'.(corrupted := stats'.corrupted + 1);
      }
    }

    /** `_replay_to_postgres`: a put into the buffer; `fails` is any error on the way. */
    method ReplayToPostgres(thread: Uuid, delta: Stored, fails: bool, now: int) returns (landed: bool)
      requires postgres.Valid() && delta.checkpoint.id.Some?
      modifies postgres`buffer, postgres`panicMode
      ensures postgres.Valid() && (landed <==> !fails)
      ensures postgres.buffer == if fails then old(postgres.buffer)
                                 else BufferPut(old(postgres.buffer), PendingFor(thread, delta.checkpoint, delta.metadata, now))
    {
      if fails {
        return false;
      }
      var r := postgres.Aput(Id(thread), delta.checkpoint, delta.metadata, now);
      landed := r.Buffered?;
    }

    /** `recover` over the collected threads, nothing interleaving; `expired(i)` is the i-th look at the clock. */
    method Recover(
      threads: seq<Uuid>, redisReachable: bool, env: nat -> Env, expired: nat -> bool, rows: Uuid -> Option<Pending>)
      returns (stats: Stats)
      requires postgres.Valid() && forall i :: env(i).faults.rewrite.Possible()
      requires forall t :: rows(t) == LatestRow(postgres.pool.table, t)
      modifies redis, postgres`buffer, postgres`panicMode
      ensures postgres.Valid()
      ensures World() == Pass(old(World()), threads, redisReachable, env, expired, 0, NewTally).0
      ensures stats == Pass(old(World()), threads, redisReachable, env, expired, 0, NewTally).1.stats
    {
      hide Recovery.RecoverThread, LatestRow, LatestBuffered, BufferPut, RedisGet, RedisPut;
      stats := Stats(0, 0, 0, 0, 0);
      ghost var tally := NewTally;
      for i := 0 to |threads|
        invariant postgres.Valid() && stats == tally.stats
        invariant Pass(World(), threads, redisReachable, env, expired, i, tally) ==
                  Pass(old(World()), threads, redisReachable, env, expired, 0, NewTally)
      {
        if expired(i) {
          stats := stats.(skipped := |threads| -
            (stats.pgRecovered + stats.deltaReplayed + stats.conflicts + stats.corrupted));
          return;
        }
        ghost var before := World();
        stats := RecoverThread(threads[i], redisReachable, env(i).faults, env(i).now, rows(threads[i]), stats);
        tally := Tallied(before, threads[i], redisReachable, env(i), tally);
      }
    }
  }
}
