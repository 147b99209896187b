/**
 The hot layer: one key per checkpoint, and one `latest` pointer per thread that names the id to
 read.  The server may evict or expire any key at any time.
 */
module RedisLayer {
  import opened Checkpoints

  /** The JSON value of a checkpoint key. */
  datatype Stored = Stored(checkpoint: Checkpoint, metadata: Metadata)

  /** The last segment of a checkpoint key; None is the literal `unknown` of a checkpoint without id. */
  type EntryId = Option<Uuid>

  /** The keys `checkpoint:{thread}:{id}` and `checkpoint:{thread}:latest`. */
  datatype Redis = Redis(entries: map<(Uuid, EntryId), Stored>, latest: map<Uuid, EntryId>)

  function StoredOf(p: Pending): Stored {
    Stored(p.checkpoint, p.metadata)
  }

  /** `aget`: follow the pointer; a missing pointer or a missing entry reads as nothing. */
  function RedisGet(r: Redis, thread: Uuid): Option<Stored> {
    if thread in r.latest && (thread, r.latest[thread]) in r.entries
    then Some(r.entries[(thread, r.latest[thread])])
    else None
  }

  function WriteEntry(r: Redis, thread: Uuid, v: Stored): Redis {
    r.(entries := r.entries[(thread, v.checkpoint.id) := v])
  }

  function WritePointer(r: Redis, thread: Uuid, id: EntryId): Redis {
    r.(latest := r.latest[thread := id])
  }

  function EvictKeys(r: Redis, entries: set<(Uuid, EntryId)>, pointers: set<Uuid>): Redis {
    Redis(r.entries - entries, r.latest - pointers)
  }

  /** A key that deleting a thread comes across: a checkpoint, the pointer, or intermediate writes. */
  datatype ThreadKey = EntryKey(id: EntryId) | PointerKey | WritesKey

  function DropKeys(r: Redis, thread: Uuid, keys: seq<ThreadKey>): Redis {
    EvictKeys(r, set k | k in keys && k.EntryKey? :: (thread, k.id), if PointerKey in keys then {thread} else {})
  }

  /** What is left without these keys cannot answer for the thread. */
  predicate Silenced(r: Redis, thread: Uuid, keys: seq<ThreadKey>) {
    RedisGet(r, thread) == None || PointerKey in keys || EntryKey(r.latest[thread]) in keys
  }

  lemma DropStep(r: Redis, thread: Uuid, keys: seq<ThreadKey>, k: ThreadKey)
    ensures DropKeys(r, thread, keys + [k]) == DropKeys(DropKeys(r, thread, keys), thread, [k])
    ensures DropKeys(r, thread, []) == r
  {
    assert forall x :: x in keys + [k] <==> x in keys || x == k;
    assert DropKeys(r, thread, keys + [k]).entries == DropKeys(DropKeys(r, thread, keys), thread, [k]).entries;
    assert DropKeys(r, thread, []).entries == r.entries;
  }

  /** Dropping keys of a thread either silences it or changes nothing for readers, and concerns no other thread. */
  lemma DropReads(r: Redis, thread: Uuid, keys: seq<ThreadKey>)
    ensures RedisGet(DropKeys(r, thread, keys), thread) == None <==> Silenced(r, thread, keys)
    ensures !Silenced(r, thread, keys) ==> RedisGet(DropKeys(r, thread, keys), thread) == RedisGet(r, thread)
    ensures forall t :: t != thread ==> RedisGet(DropKeys(r, thread, keys), t) == RedisGet(r, t)
  {
  }

  /** How far a put got: the pointer is written only after the entry write reported success. */
  datatype WriteOutcome = WriteOutcome(entryApplied: bool, pointerApplied: bool, ok: bool) {
    predicate Possible() {
      (pointerApplied ==> entryApplied) && (ok ==> entryApplied && pointerApplied)
    }
  }

  const Accepted := WriteOutcome(true, true, true)

  function RedisPut(r: Redis, thread: Uuid, v: Stored, o: WriteOutcome): Redis {
    var r1 := if o.entryApplied then WriteEntry(r, thread, v) else r;
    if o.pointerApplied then WritePointer(r1, thread, v.checkpoint.id) else r1
  }

  // ---------------------------------------------------------------- first-occurrence deduplication

  /** `list(dict.fromkeys(s))` */
  function Dedupe<T(==)>(s: seq<T>): (r: seq<T>)
    ensures forall i :: 0 <= i < |r| ==> r[i] in s
    ensures forall i :: 0 <= i < |s| ==> s[i] in r
    ensures forall i, j :: 0 <= i < j < |r| ==> r[i] != r[j]
  {
    if |s| == 0 then []
    else
      var n := |s| - 1;
      var r := Dedupe(s[..n]);
      assert s == s[..n] + [s[n]];
      if s[n] in r then r else r + [s[n]]
  }

  /** The position of the first occurrence. */
  function FirstIndex<T(==)>(s: seq<T>, x: T): (i: nat)
    requires x in s
    ensures i < |s| && s[i] == x && x !in s[..i]
  {
    if s[0] == x then 0 else
      assert s == [s[0]] + s[1..];
      var k := FirstIndex(s[1..], x);
      assert s[..k + 1] == [s[0]] + s[1..][..k];
      k + 1
  }

  /** Deduplication keeps the order of first occurrences. */
  lemma {:induction false} DedupeKeepsOrder<T>(s: seq<T>, i: nat, j: nat)
    requires i < j < |Dedupe(s)|
    ensures FirstIndex(s, Dedupe(s)[i]) < FirstIndex(s, Dedupe(s)[j])
  {
    var n := |s| - 1;
    var r := Dedupe(s[..n]);
    assert s == s[..n] + [s[n]];
    var x, y := Dedupe(s)[i], Dedupe(s)[j];
    FirstIndexUnique(s, s[..n], x);
    if j < |r| {
      DedupeKeepsOrder(s[..n], i, j);
      FirstIndexUnique(s, s[..n], y);
    } else {
      assert y == s[n] && y !in s[..n];
      var k := FirstIndex(s, y);
      forall m | 0 <= m < n ensures s[m] != y {
        assert s[..n][m] == s[m];
      }
      assert k >= n;
    }
  }

  lemma FirstIndexUnique<T>(s: seq<T>, prefix: seq<T>, x: T)
    requires prefix <= s && x in prefix
    ensures FirstIndex(s, x) == FirstIndex(prefix, x)
  {
  }

  lemma {:induction false} DedupeAppend<T>(a: seq<T>, x: T)
    ensures Dedupe(a + [x]) == if x in a then Dedupe(a) else Dedupe(a) + [x]
  {
  }

  function Flatten<T>(pages: seq<seq<T>>): seq<T> {
    if |pages| == 0 then [] else Flatten(pages[..|pages| - 1]) + pages[|pages| - 1]
  }

  // ---------------------------------------------------------------- the class

  /** `RedisCheckpointer` together with the keys its server holds. */
  class RedisCheckpointer {
    var server: Redis

    constructor (server: Redis)
      ensures this.server == server
    {
      this.server := server;
    }

    /** `aput`: `entry` and `pointer` say how the two retried writes end. */
    method Aput(thread: Uuid, checkpoint: Checkpoint, metadata: Metadata, outcome: WriteOutcome) returns (ok: bool)
      requires outcome.Possible()
      modifies this
      ensures ok == outcome.ok && server == RedisPut(old(server), thread, Stored(checkpoint, metadata), outcome)
      ensures ok ==> RedisGet(server, thread) == Some(Stored(checkpoint, metadata))
      ensures !outcome.entryApplied ==> server == old(server)
    {
      if outcome.entryApplied {
        server := WriteEntry(server, thread, Stored(checkpoint, metadata));
      }
      if outcome.pointerApplied {
        server := WritePointer(server, thread, checkpoint.id);
      }
      ok := outcome.ok;
    }

    /** `aget_tuple`: two reads, the pointer and then the entry. */
    method AgetTuple(thread: Uuid) returns (r: Option<Stored>)
      ensures r == RedisGet(server, thread)
    {
      if thread !in server.latest {
        return None;
      }
      var id := server.latest[thread];
      if (thread, id) !in server.entries {
        return None;
      }
      r := Some(server.entries[(thread, id)]);
    }

    /**
     `adelete_thread`: the scanned keys one by one, those of checkpoints (which include the pointer) before
     those of writes, and the pointer last; the first failing deletion, which may have been applied, ends it.
     */
    method AdeleteThread(thread: Uuid, scanned: seq<ThreadKey>, outcome: nat -> DeleteOutcome) returns (ok: bool)
      requires forall i :: outcome(i).Possible()
      modifies this
      ensures ok <==> forall i :: 0 <= i <= |scanned| ==> outcome(i).ok
      ensures var keys := scanned + [PointerKey];
              var gone := keys[..DeletesApplied(outcome, 0, |keys|)];
              && server == DropKeys(old(server), thread, gone)
              && (RedisGet(server, thread) == None <==> Silenced(old(server), thread, gone))
              && (ok ==> gone == keys)
      ensures RedisGet(server, thread) == None || RedisGet(server, thread) == RedisGet(old(server), thread)
      ensures forall t :: t != thread ==> RedisGet(server, t) == RedisGet(old(server), t)
    {
      hide DropKeys, RedisGet, Silenced;
      var keys := scanned + [PointerKey];
      ghost var gone := keys[..DeletesApplied(outcome, 0, |keys|)];
      DropReads(server, thread, gone);
      DropStep(server, thread, [], PointerKey);
      for i := 0 to |keys|
        invariant forall j :: 0 <= j < i ==> outcome(j).ok
        invariant DeletesApplied(outcome, i, |keys|) == DeletesApplied(outcome, 0, |keys|)
        invariant server == DropKeys(old(server), thread, keys[..i])
      {
        assert keys[..i + 1] == keys[..i] + [keys[i]];
        DropStep(old(server), thread, keys[..i], keys[i]);
        if outcome(i).applied {
          server := DropKeys(server, thread, [keys[i]]);
        }
        if !outcome(i).ok {
          return false;
        }
      }
      assert keys[..|keys|] == keys;
      ok := true;
    }

    /** `list_all_thread_ids`: `pages` are the threads of the pointer keys that each SCAN call returns. */
    method ListAllThreadIds(pages: seq<seq<Uuid>>) returns (threads: seq<Uuid>)
      ensures threads == Dedupe(Flatten(pages))
      ensures (forall t :: t in Flatten(pages) <==> t in server.latest) ==> forall t :: t in threads <==> t in server.latest
    {
      threads := [];
      var seen: set<Uuid> := {};
      for i := 0 to |pages|
        invariant threads == Dedupe(Flatten(pages[..i]))
        invariant forall t :: t in seen <==> t in threads
      {
        assert pages[..i + 1][..i] == pages[..i];
        threads, seen := AddPage(Flatten(pages[..i]), threads, seen, pages[i]);
      }
      assert pages[..|pages|] == pages;
    }

    /** The inner loop of the scan: the new threads of one page. */
    method AddPage(ghost done: seq<Uuid>, threads: seq<Uuid>, seen: set<Uuid>, page: seq<Uuid>)
      returns (threads': seq<Uuid>, seen': set<Uuid>)
      requires threads == Dedupe(done) && forall t :: t in seen <==> t in threads
      ensures threads' == Dedupe(done + page) && forall t :: t in seen' <==> t in threads'
    {
      hide Dedupe;
      threads', seen' := threads, seen;
      assert done + page[..0] == done;
      for j := 0 to |page|
        invariant threads' == Dedupe(done + page[..j])
        invariant forall t :: t in seen' <==> t in threads'
      {
        DedupeStep(done, page, j);
        if page[j] !in seen' {
          seen' := seen' + {page[j]};
          threads' := threads' + [page[j]];
        }
      }
      assert page[..|page|] == page;
    }
  }

  lemma DedupeStep<T>(done: seq<T>, page: seq<T>, j: nat)
    requires j < |page|
    ensures var r := Dedupe(done + page[..j]);
            Dedupe(done + page[..j + 1]) == if page[j] in r then r else r + [page[j]]
  {
    DedupeAppend(done + page[..j], page[j]);
    assert done + page[..j + 1] == done + page[..j] + [page[j]];
  }
}
