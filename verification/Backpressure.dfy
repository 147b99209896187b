/**
 Any number of concurrent `aput` tasks against the bounded buffer, the flusher running beside them.
 A task checks the buffer, stores, and sets panic mode without awaiting in between; a task that
 waits is woken by a notification or by its poll timing out.
 */
module Backpressure {
  import opened Checkpoints
  import opened PgStore
  import opened Sets

  /** A suspended `aput`: its checkpoint and how many polls in a row have timed out. */
  datatype Waiter = Waiter(p: Pending, polls: nat)

  datatype Gate = Gate(store: Store, panic: bool, waiting: map<nat, Waiter>, gaveUp: set<Uuid>)

  datatype Limits = Limits(batchSize: nat, maxBuffer: nat, timeout: real)

  /** `_BACKPRESSURE_POLL_SECONDS` */
  const POLL_SECONDS := 0.1

  datatype GateStep =
    | Arrive(task: nat, p: Pending)
    | Notified(task: nat)
    | PollTimedOut(task: nat)
    | Flusher(step: Step)        // a step of the flush lock holder, or a thread deletion
    | LeavePanic                 // the end of a flush

  predicate GateEnabled(g: Gate, step: GateStep) {
    match step
    case Arrive(task, _) => task !in g.waiting
    case Notified(task) => task in g.waiting
    case PollTimedOut(task) => task in g.waiting
    case Flusher(s) => !s.Put? && StoreEnabled(g.store, s)
    case LeavePanic => true
  }

  /** The end of `aput`: store, and enter panic mode when the buffer is full. */
  function Insert(limits: Limits, g: Gate, p: Pending, gaveUp: bool): Gate {
    var buffer := BufferPut(g.store.buffer, p);
    g.(store := g.store.(buffer := buffer),
       panic := g.panic || |buffer| >= limits.maxBuffer,
       gaveUp := if gaveUp then g.gaveUp + {p.key} else g.gaveUp)
  }

  function GateNext(limits: Limits, g: Gate, step: GateStep): Gate
    requires GateEnabled(g, step)
  {
    match step
    case Arrive(task, p) =>
      if |g.store.buffer| < limits.maxBuffer then Insert(limits, g, p, false)
      else g.(waiting := g.waiting[task := Waiter(p, 0)])
    case Notified(task) =>
      var w := g.waiting[task];
      if |g.store.buffer| < limits.maxBuffer then Insert(limits, g.(waiting := g.waiting - {task}), w.p, false)
      else g.(waiting := g.waiting[task := Waiter(w.p, 0)])
    case PollTimedOut(task) =>
      var w := g.waiting[task];
      if (w.polls + 1) as real * POLL_SECONDS >= limits.timeout then
        Insert(limits, g.(waiting := g.waiting - {task}), w.p, true)
      else if |g.store.buffer| < limits.maxBuffer then
        Insert(limits, g.(waiting := g.waiting - {task}), w.p, false)
      else g.(waiting := g.waiting[task := Waiter(w.p, w.polls + 1)])
    case Flusher(s) => g.(store := StoreNext(limits.batchSize, g.store, s))
    case LeavePanic => g.(panic := g.panic && |g.store.buffer| >= limits.maxBuffer / 2)
  }

  function BufferKeys(buffer: Buffer): set<Uuid> {
    set i | 0 <= i < |buffer| :: buffer[i].key
  }

  /** Only puts that gave up waiting stand above the capacity and a full buffer means panic mode. */
  ghost predicate Bounded(limits: Limits, g: Gate) {
    && DistinctKeys(g.store.buffer)
    && |BufferKeys(g.store.buffer) - g.gaveUp| <= limits.maxBuffer
    && (|g.store.buffer| >= limits.maxBuffer ==> g.panic)
  }

  lemma {:induction false} KeysCount(buffer: Buffer)
    requires DistinctKeys(buffer)
    ensures |BufferKeys(buffer)| == |buffer|
  {
    if |buffer| > 0 {
      var n := |buffer| - 1;
      KeysCount(buffer[..n]);
      assert BufferKeys(buffer) == BufferKeys(buffer[..n]) + {buffer[n].key};
    }
  }

  lemma PutAddsKey(buffer: Buffer, p: Pending)
    requires DistinctKeys(buffer)
    ensures BufferKeys(BufferPut(buffer, p)) == BufferKeys(buffer) + {p.key}
  {
  }

  lemma InsertKeepsBound(limits: Limits, g: Gate, p: Pending, gaveUp: bool)
    requires Bounded(limits, g) && (gaveUp || |g.store.buffer| < limits.maxBuffer)
    ensures Bounded(limits, Insert(limits, g, p, gaveUp))
  {
    var n := Insert(limits, g, p, gaveUp);
    PutKeepsDistinct(g.store.buffer, p);
    PutAddsKey(g.store.buffer, p);
    KeysCount(g.store.buffer);
    KeysCount(n.store.buffer);
    if gaveUp {
      SubsetCount(BufferKeys(n.store.buffer) - n.gaveUp, BufferKeys(g.store.buffer) - g.gaveUp);
    } else {
      SubsetCount(BufferKeys(n.store.buffer) - n.gaveUp, BufferKeys(n.store.buffer));
    }
  }

  lemma ShrinkKeepsBound(limits: Limits, g: Gate, store: Store)
    requires Bounded(limits, g) && DistinctKeys(store.buffer)
    requires |store.buffer| <= |g.store.buffer| && forall p :: p in store.buffer ==> p in g.store.buffer
    ensures Bounded(limits, g.(store := store))
  {
    forall k | k in BufferKeys(store.buffer) ensures k in BufferKeys(g.store.buffer) {
      var i :| 0 <= i < |store.buffer| && store.buffer[i].key == k;
      assert store.buffer[i] in store.buffer;
      var j :| 0 <= j < |g.store.buffer| && g.store.buffer[j] == store.buffer[i];
      assert g.store.buffer[j].key == k;
    }
    SubsetCount(BufferKeys(store.buffer) - g.gaveUp, BufferKeys(g.store.buffer) - g.gaveUp);
  }

  /** Every step of every task and of the flusher keeps the bound. */
  lemma GateStepKeepsBound(limits: Limits, g: Gate, step: GateStep)
    requires Bounded(limits, g) && GateEnabled(g, step)
    ensures Bounded(limits, GateNext(limits, g, step))
  {
    match step
    case Arrive(task, p) =>
      if |g.store.buffer| < limits.maxBuffer { InsertKeepsBound(limits, g, p, false); }
    case Notified(task) =>
      if |g.store.buffer| < limits.maxBuffer {
        InsertKeepsBound(limits, g.(waiting := g.waiting - {task}), g.waiting[task].p, false);
      }
    case PollTimedOut(task) =>
      var w := g.waiting[task];
      if (w.polls + 1) as real * POLL_SECONDS >= limits.timeout {
        InsertKeepsBound(limits, g.(waiting := g.waiting - {task}), w.p, true);
      } else if |g.store.buffer| < limits.maxBuffer {
        InsertKeepsBound(limits, g.(waiting := g.waiting - {task}), w.p, false);
      }
    case Flusher(s) =>
      match s {
        case Acknowledge => ForgetKeepsDistinct(g.store.buffer, g.store.flight.batch);
        case DropBuffered(t) => DropKeepsDistinct(g.store.buffer, t);
        case _ =>
      }
      ShrinkKeepsBound(limits, g, StoreNext(limits.batchSize, g.store, s));
    case LeavePanic =>
  }

  /** Task `task` has its checkpoint stored in `n`, under its id, and is not waiting any more. */
  ghost predicate LetIn(g: Gate, n: Gate, task: nat, p: Pending) {
    && p in n.store.buffer && task !in n.waiting
    && (forall q :: q in g.store.buffer && q.key != p.key ==> q in n.store.buffer)
    && (forall t :: t != task ==> (t in n.waiting <==> t in g.waiting) && (t in g.waiting ==> n.waiting[t] == g.waiting[t]))
  }

  /**
   A put is stored at once if the buffer is below its capacity, and otherwise at the first wake-up that finds it
   below, or when its polls in a row, a tenth of a second each, add up to the timeout; a notification starts the
   count again.  Every other step of a task changes nothing but its count.
   */
  lemma AdmissionIff(limits: Limits, g: Gate, step: GateStep)
    requires DistinctKeys(g.store.buffer) && GateEnabled(g, step) && (step.Arrive? || step.Notified? || step.PollTimedOut?)
    ensures var n := GateNext(limits, g, step);
            var p := if step.Arrive? then step.p else g.waiting[step.task].p;
            var polls := if step.PollTimedOut? then g.waiting[step.task].polls + 1 else 0;
            var timeIsUp := step.PollTimedOut? && polls as real * 0.1 >= limits.timeout;
            && n.store.table == g.store.table && n.store.flight == g.store.flight
            && (if timeIsUp || |g.store.buffer| < limits.maxBuffer
                then && LetIn(g, n, step.task, p) && n.gaveUp == g.gaveUp + (if timeIsUp then {p.key} else {})
                     && (n.panic <==> g.panic || |n.store.buffer| >= limits.maxBuffer)
                else n == g.(waiting := g.waiting[step.task := Waiter(p, polls)]))
  {
    var p := if step.Arrive? then step.p else g.waiting[step.task].p;
    PutKeepsDistinct(g.store.buffer, p);
    hide BufferPut;
  }

  /** A flush that ends leaves panic mode exactly when the buffer is below half of its capacity. */
  lemma PanicEndsIff(limits: Limits, g: Gate)
    ensures GateNext(limits, g, LeavePanic) == g.(panic := g.panic && |g.store.buffer| >= limits.maxBuffer / 2)
  {
  }

  ghost predicate IsGateRun(limits: Limits, run: seq<Gate>, steps: seq<GateStep>) {
    && |run| == |steps| + 1
    && run[0] == Gate(Store([], map[], Idle), false, map[], {})
    && forall i :: 0 <= i < |steps| ==> GateEnabled(run[i], steps[i]) && run[i + 1] == GateNext(limits, run[i], steps[i])
  }

  lemma {:induction false} GateRunBounded(limits: Limits, run: seq<Gate>, steps: seq<GateStep>, i: nat)
    requires limits.maxBuffer > 0 && IsGateRun(limits, run, steps) && i < |run|
    ensures Bounded(limits, run[i])
    decreases i
  {
    if i > 0 {
      GateRunBounded(limits, run, steps, i - 1);
      GateStepKeepsBound(limits, run[i - 1], steps[i - 1]);
    } else {
      assert BufferKeys(run[0].store.buffer) == {};
    }
  }

  /**
   At every suspension point of every run: the buffer exceeds its capacity by at most the number of
   puts that gave up waiting, and a buffer at or over capacity means panic mode.
   */
  lemma BufferBound(limits: Limits, run: seq<Gate>, steps: seq<GateStep>, i: nat)
    requires limits.maxBuffer > 0 && IsGateRun(limits, run, steps) && i < |run|
    ensures |run[i].store.buffer| <= limits.maxBuffer + |run[i].gaveUp|
    ensures |run[i].store.buffer| >= limits.maxBuffer ==> run[i].panic
  {
    GateRunBounded(limits, run, steps, i);
    var keys, gaveUp := BufferKeys(run[i].store.buffer), run[i].gaveUp;
    KeysCount(run[i].store.buffer);
    assert keys == (keys - gaveUp) + (keys * gaveUp);
    SubsetCount(keys * gaveUp, gaveUp);
  }
}
