/**
 The records that both checkpoint layers exchange, and the newest-first order of the
 `agent_checkpoints` table.  Identifiers are UUIDs (128-bit numbers, ordered as numbers)
 and times are microseconds.
 */
module Checkpoints {

  datatype Option<+T> = None | Some(value: T)

  type Uuid = nat

  /** How a field of a checkpoint dict is typed: what the shape check looks at. */
  datatype Shape = Mapping | Listing | Other

  /** A checkpoint dict. `id` is None when absent or empty, `ts` when absent or unparseable. */
  datatype Checkpoint = Checkpoint(
    id: Option<Uuid>, ts: Option<int>, channelValues: Shape, channelVersions: Shape, content: int)

  type Metadata = int

  /** A buffered checkpoint with everything a flush needs to persist it. */
  datatype Pending = Pending(
    key: Uuid, thread: Uuid, checkpoint: Checkpoint, metadata: Metadata, createdAt: int)

  /** A row of `agent_checkpoints`, keyed by (thread, checkpoint id). */
  datatype Row = Row(checkpoint: Checkpoint, metadata: Metadata, createdAt: int)

  type Table = map<(Uuid, Uuid), Row>

  function RowOf(p: Pending): Row {
    Row(p.checkpoint, p.metadata, p.createdAt)
  }

  function PendingOf(thread: Uuid, key: Uuid, row: Row): Pending {
    Pending(key, thread, row.checkpoint, row.metadata, row.createdAt)
  }

  /** The strict order (created_at, checkpoint_id). */
  predicate Older(p: Pending, q: Pending) {
    p.createdAt < q.createdAt || (p.createdAt == q.createdAt && p.key < q.key)
  }

  predicate RowIn(table: Table, p: Pending) {
    (p.thread, p.key) in table && table[(p.thread, p.key)] == RowOf(p)
  }

  /** `p` is the row that ORDER BY created_at DESC, checkpoint_id DESC LIMIT 1 selects. */
  ghost predicate IsLatestRow(table: Table, thread: Uuid, p: Pending) {
    && p.thread == thread && RowIn(table, p)
    && forall k :: (thread, k) in table && k != p.key ==> Older(PendingOf(thread, k, table[(thread, k)]), p)
  }

  ghost function LatestRow(table: Table, thread: Uuid): (r: Option<Pending>)
    ensures r.Some? ==> IsLatestRow(table, thread, r.value)
    ensures r.None? <==> forall k :: (thread, k) !in table
  {
    if k :| (thread, k) in table then
      LatestRowExists(table, thread, k);
      var p :| IsLatestRow(table, thread, p);
      Some(p)
    else None
  }

  lemma LatestRowIs(table: Table, thread: Uuid, p: Pending)
    requires IsLatestRow(table, thread, p)
    ensures LatestRow(table, thread) == Some(p)
  {
  }

  /** It is a row of the thread, and every other one was created earlier, or at the same time with a smaller id. */
  lemma LatestRowMeaning(table: Table, thread: Uuid, p: Pending)
    requires LatestRow(table, thread) == Some(p)
    ensures p.thread == thread && (thread, p.key) in table
    ensures table[(thread, p.key)] == Row(p.checkpoint, p.metadata, p.createdAt)
    ensures forall k :: (thread, k) in table && k != p.key ==>
              var row := table[(thread, k)];
              row.createdAt < p.createdAt || (row.createdAt == p.createdAt && k < p.key)
  {
    forall k | (thread, k) in table && k != p.key
      ensures var row := table[(thread, k)];
              row.createdAt < p.createdAt || (row.createdAt == p.createdAt && k < p.key)
    {
      assert Older(PendingOf(thread, k, table[(thread, k)]), p);
    }
  }

  lemma LatestRowExists(table: Table, thread: Uuid, witnessKey: Uuid)
    requires (thread, witnessKey) in table
    ensures exists p :: IsLatestRow(table, thread, p)
  {
    var ks := set e | e in table.Keys && e.0 == thread :: e.1;
    assert (thread, witnessKey) in table.Keys && (thread, witnessKey).1 in ks;
    var k := NewestKey(table, thread, ks);
    var p := PendingOf(thread, k, table[(thread, k)]);
    forall j | (thread, j) in table && j != k
      ensures Older(PendingOf(thread, j, table[(thread, j)]), p)
    {
      assert (thread, j) in table.Keys && (thread, j).1 in ks;
    }
    assert IsLatestRow(table, thread, p);
  }

  lemma NewestKey(table: Table, thread: Uuid, ks: set<Uuid>) returns (k: Uuid)
    requires ks != {}
    requires forall j :: j in ks ==> (thread, j) in table
    ensures k in ks
    ensures forall j :: j in ks && j != k ==>
              Older(PendingOf(thread, j, table[(thread, j)]), PendingOf(thread, k, table[(thread, k)]))
  {
    k :| k in ks;
    var rest := ks - {k};
    if rest != {} {
      var m := NewestKey(table, thread, rest);
      var first := k;
      if Older(PendingOf(thread, k, table[(thread, k)]), PendingOf(thread, m, table[(thread, m)])) {
        k := m;
      }
      forall j | j in ks && j != k
        ensures Older(PendingOf(thread, j, table[(thread, j)]), PendingOf(thread, k, table[(thread, k)]))
      {
        assert j == first || j in rest;
      }
    } else {
      assert ks == {k};
    }
  }

  /** One multi-row upsert: every row of the batch, in order. */
  function Upsert(table: Table, batch: seq<Pending>): (r: Table)
    ensures table.Keys <= r.Keys
    ensures forall e :: e in r <==> e in table || exists i :: 0 <= i < |batch| && (batch[i].thread, batch[i].key) == e
    decreases |batch|
  {
    if |batch| == 0 then table
    else
      var p := batch[0];
      var r := Upsert(table[(p.thread, p.key) := RowOf(p)], batch[1..]);
      assert forall e :: e in r <==> e in table || exists i :: 0 <= i < |batch| && (batch[i].thread, batch[i].key) == e by {
        forall e ensures e in r <==> e in table || exists i :: 0 <= i < |batch| && (batch[i].thread, batch[i].key) == e {
          if i :| 0 <= i < |batch| && (batch[i].thread, batch[i].key) == e {
            if i > 0 { assert (batch[1..][i - 1].thread, batch[1..][i - 1].key) == e; }
          }
          if i :| 0 <= i < |batch[1..]| && (batch[1..][i].thread, batch[1..][i].key) == e {
            assert (batch[i + 1].thread, batch[i + 1].key) == e;
          }
        }
      }
      r
  }

  ghost predicate DistinctRows(batch: seq<Pending>) {
    forall i, j :: 0 <= i < j < |batch| ==> (batch[i].thread, batch[i].key) != (batch[j].thread, batch[j].key)
  }

  /** What an upsert of distinct rows does to every row of the table. */
  lemma {:induction false} UpsertRow(table: Table, batch: seq<Pending>, e: (Uuid, Uuid))
    requires DistinctRows(batch)
    ensures forall i :: 0 <= i < |batch| && (batch[i].thread, batch[i].key) == e ==>
              e in Upsert(table, batch) && Upsert(table, batch)[e] == RowOf(batch[i])
    ensures (forall i :: 0 <= i < |batch| ==> (batch[i].thread, batch[i].key) != e) ==>
              (e in Upsert(table, batch) <==> e in table) && (e in table ==> Upsert(table, batch)[e] == table[e])
    decreases |batch|
  {
    if |batch| > 0 {
      var p := batch[0];
      var t := table[(p.thread, p.key) := RowOf(p)];
      UpsertRow(t, batch[1..], e);
      forall i | 0 <= i < |batch| && (batch[i].thread, batch[i].key) == e
        ensures e in Upsert(table, batch) && Upsert(table, batch)[e] == RowOf(batch[i])
      {
        if i > 0 {
          assert batch[1..][i - 1] == batch[i];
        } else {
          assert forall j :: 0 <= j < |batch[1..]| ==> batch[1..][j] == batch[j + 1];
        }
      }
      if forall i :: 0 <= i < |batch| ==> (batch[i].thread, batch[i].key) != e {
        assert forall j :: 0 <= j < |batch[1..]| ==> batch[1..][j] == batch[j + 1];
      }
    }
  }

  // ---------------------------------------------------------------- deletes

  /** How a delete ends: a failing one may have been applied all the same. */
  datatype DeleteOutcome = DeleteOutcome(applied: bool, ok: bool) {
    predicate Possible() {
      ok ==> applied
    }
  }

  /** How far deletes `i` to `n` get: those before the first failure are applied, and that one may be. */
  function DeletesApplied(outcome: nat -> DeleteOutcome, i: nat, n: nat): (r: nat)
    requires i <= n
    ensures i <= r <= n
    ensures forall j :: i <= j < r - 1 ==> outcome(j).ok
    ensures (forall j :: i <= j < n ==> outcome(j).ok) ==> r == n
    decreases n - i
  {
    if i == n then n
    else if outcome(i).ok then DeletesApplied(outcome, i + 1, n)
    else if outcome(i).applied then i + 1
    else i
  }
}
