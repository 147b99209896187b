/**
 The operational log: events are masked, buffered and written to a sink in batches; a batch that the
 sink refuses goes back to the front of the buffer.  Flushes may overlap, since the sink is awaited.
 */
module LogBatcher {

  type Line = string

  // ---------------------------------------------------------------- the state machine

  /** `inFlight`: the batches being written, in the order in which they were taken. */
  datatype Log = Log(buffer: seq<Line>, inFlight: seq<seq<Line>>, delivered: seq<Line>, written: seq<Line>)

  datatype Step =
    | Write(line: Line)
    | Take               // a flush swaps the buffer for an empty one
    | Deliver(k: nat)    // the sink accepts the k-th batch in flight
    | Refuse(k: nat)     // the sink fails, and the batch is put back in front

  predicate Enabled(s: Log, step: Step) {
    match step
    case Write(_) => true
    case Take => s.buffer != []
    case Deliver(k) => k < |s.inFlight|
    case Refuse(k) => k < |s.inFlight|
  }

  function Without<T>(s: seq<T>, k: nat): seq<T>
    requires k < |s|
  {
    s[..k] + s[k + 1..]
  }

  function Next(s: Log, step: Step): Log
    requires Enabled(s, step)
  {
    match step
    case Write(line) => s.(buffer := s.buffer + [line], written := s.written + [line])
    case Take => s.(buffer := [], inFlight := s.inFlight + [s.buffer])
    case Deliver(k) => s.(delivered := s.delivered + s.inFlight[k], inFlight := Without(s.inFlight, k))
    case Refuse(k) => s.(buffer := s.inFlight[k] + s.buffer, inFlight := Without(s.inFlight, k))
  }

  const Empty := Log([], [], [], [])

  function Concat(batches: seq<seq<Line>>): seq<Line> {
    if |batches| == 0 then [] else batches[0] + Concat(batches[1..])
  }

  lemma {:induction false} ConcatAppend(a: seq<seq<Line>>, b: seq<seq<Line>>)
    ensures Concat(a + b) == Concat(a) + Concat(b)
  {
    if |a| == 0 {
      assert a + b == b;
    } else {
      ConcatAppend(a[1..], b);
      assert (a + b)[1..] == a[1..] + b;
      assert a[0] + (Concat(a[1..]) + Concat(b)) == a[0] + Concat(a[1..]) + Concat(b);
    }
  }

  lemma ConcatSplit(batches: seq<seq<Line>>, k: nat)
    requires k < |batches|
    ensures Concat(batches) == Concat(batches[..k]) + batches[k] + Concat(batches[k + 1..])
    ensures Concat(Without(batches, k)) == Concat(batches[..k]) + Concat(batches[k + 1..])
  {
    assert batches == batches[..k] + batches[k..];
    assert batches[k..][1..] == batches[k + 1..];
    ConcatAppend(batches[..k], batches[k..]);
    ConcatAppend(batches[..k], batches[k + 1..]);
  }

  lemma ConcatLast(batches: seq<seq<Line>>, last: seq<Line>)
    ensures Concat(batches + [last]) == Concat(batches) + last
  {
    ConcatAppend(batches, [last]);
    assert [last][1..] == [];
    assert last + [] == last;
  }

  /** Delivered, in flight or buffered: the lines that were written, neither lost nor doubled. */
  ghost predicate Conserved(s: Log) {
    multiset(s.written) == multiset(s.delivered) + multiset(Concat(s.inFlight)) + multiset(s.buffer)
  }

  lemma StepConserves(s: Log, step: Step)
    requires Enabled(s, step) && Conserved(s)
    ensures Conserved(Next(s, step))
  {
    match step
    case Write(_) =>
    case Take => ConcatLast(s.inFlight, s.buffer);
    case Deliver(k) => ConcatSplit(s.inFlight, k);
    case Refuse(k) => ConcatSplit(s.inFlight, k);
  }

  ghost predicate IsRun(run: seq<Log>, steps: seq<Step>) {
    && |run| == |steps| + 1 && run[0] == Empty
    && forall i :: 0 <= i < |steps| ==> Enabled(run[i], steps[i]) && run[i + 1] == Next(run[i], steps[i])
  }

  /** Conservation along every run, whatever fails and however flushes overlap. */
  lemma {:induction false} NothingIsLost(run: seq<Log>, steps: seq<Step>, n: nat)
    requires IsRun(run, steps) && n < |run|
    ensures Conserved(run[n])
    decreases n
  {
    if n > 0 {
      NothingIsLost(run, steps, n - 1);
      StepConserves(run[n - 1], steps[n - 1]);
      assert run[n - 1 + 1] == Next(run[n - 1], steps[n - 1]);
    }
  }

  /** Delivered, in flight and buffered lines, read in this order, are the lines in the order of writing. */
  ghost predicate InOrder(s: Log) {
    s.written == s.delivered + Concat(s.inFlight) + s.buffer
  }

  /** Delivery in the order of taking, and only the batch taken last put back. */
  predicate KeepsOrder(s: Log, step: Step) {
    (step.Deliver? ==> step.k == 0) && (step.Refuse? ==> step.k == |s.inFlight| - 1)
  }

  lemma StepKeepsOrder(s: Log, step: Step)
    requires Enabled(s, step) && InOrder(s) && KeepsOrder(s, step)
    ensures InOrder(Next(s, step))
  {
    match step
    case Write(line) =>
      assert s.delivered + Concat(s.inFlight) + (s.buffer + [line]) == s.written + [line];
    case Take =>
      ConcatLast(s.inFlight, s.buffer);
      assert s.delivered + (Concat(s.inFlight) + s.buffer) + [] == s.written;
    case Deliver(k) =>
      ConcatSplit(s.inFlight, 0);
      assert Concat(s.inFlight[..0]) == [];
      assert s.delivered + s.inFlight[0] + Concat(s.inFlight[1..]) + s.buffer
          == s.delivered + ([] + s.inFlight[0] + Concat(s.inFlight[1..])) + s.buffer;
    case Refuse(k) =>
      ConcatSplit(s.inFlight, k);
      assert Concat(s.inFlight[k + 1..]) == [];
      assert s.delivered + (Concat(s.inFlight[..k]) + []) + (s.inFlight[k] + s.buffer)
          == s.delivered + (Concat(s.inFlight[..k]) + s.inFlight[k] + []) + s.buffer;
  }

  /** When flushes never overlap, the order of writing is kept. */
  lemma {:induction false} SingleFlushKeepsOrder(run: seq<Log>, steps: seq<Step>, n: nat)
    requires IsRun(run, steps) && n < |run|
    requires forall i :: 0 <= i < n ==> |run[i].inFlight| <= 1
    ensures InOrder(run[n])
    decreases n
  {
    if n > 0 {
      SingleFlushKeepsOrder(run, steps, n - 1);
      StepKeepsOrder(run[n - 1], steps[n - 1]);
      assert run[n - 1 + 1] == Next(run[n - 1], steps[n - 1]);
    }
  }

  ghost predicate DistinctLines(s: seq<Line>) {
    forall i, j :: 0 <= i < j < |s| ==> s[i] != s[j]
  }

  /** Moving a non-empty part over a non-empty part changes a sequence of distinct lines. */
  lemma SwapChanges(a: seq<Line>, x: seq<Line>, y: seq<Line>, b: seq<Line>)
    requires DistinctLines(a + x + y + b) && x != [] && y != []
    ensures a + x + y + b != a + y + x + b
  {
    var s, t := a + x + y + b, a + y + x + b;
    assert s[|a|] == x[0] && t[|a|] == y[0];
    assert s[|a| + |x|] == y[0];
  }

  ghost predicate NonEmptyBatches(s: Log) {
    forall i :: 0 <= i < |s.inFlight| ==> s.inFlight[i] != []
  }

  lemma ConcatNonEmpty(batches: seq<seq<Line>>)
    requires batches != [] && forall i :: 0 <= i < |batches| ==> batches[i] != []
    ensures Concat(batches) != []
  {
  }

  /** For distinct lines a step keeps the order exactly when it delivers the oldest batch, or puts back the newest. */
  lemma OrderKeptIff(s: Log, step: Step)
    requires Enabled(s, step) && InOrder(s) && NonEmptyBatches(s) && DistinctLines(s.written)
    requires step.Deliver? || step.Refuse?
    ensures InOrder(Next(s, step)) <==> KeepsOrder(s, step)
  {
    if KeepsOrder(s, step) {
      StepKeepsOrder(s, step);
    } else if step.Deliver? {
      LateDeliveryReorders(s, step.k);
    } else {
      EarlyRefusalReorders(s, step.k);
    }
  }

  lemma LateDeliveryReorders(s: Log, k: nat)
    requires InOrder(s) && NonEmptyBatches(s) && DistinctLines(s.written) && 0 < k < |s.inFlight|
    ensures !InOrder(Next(s, Deliver(k)))
  {
    ConcatSplit(s.inFlight, k);
    ConcatNonEmpty(s.inFlight[..k]);
    hide Concat, DistinctLines;
    var before, batch, after := Concat(s.inFlight[..k]), s.inFlight[k], Concat(s.inFlight[k + 1..]);
    assert s.written == s.delivered + before + batch + (after + s.buffer);
    SwapChanges(s.delivered, before, batch, after + s.buffer);
    assert s.delivered + batch + (before + after) + s.buffer == s.delivered + batch + before + (after + s.buffer);
  }

  lemma EarlyRefusalReorders(s: Log, k: nat)
    requires InOrder(s) && NonEmptyBatches(s) && DistinctLines(s.written) && k < |s.inFlight| - 1
    ensures !InOrder(Next(s, Refuse(k)))
  {
    ConcatSplit(s.inFlight, k);
    ConcatNonEmpty(s.inFlight[k + 1..]);
    hide Concat, DistinctLines;
    var before, batch, after := Concat(s.inFlight[..k]), s.inFlight[k], Concat(s.inFlight[k + 1..]);
    assert s.written == s.delivered + before + batch + after + s.buffer;
    SwapChanges(s.delivered + before, batch, after, s.buffer);
    assert s.delivered + (before + after) + (batch + s.buffer) == s.delivered + before + after + batch + s.buffer;
  }

  // ---------------------------------------------------------------- the writer

  class LogSink {
    var delivered: seq<Line>

    constructor ()
      ensures delivered == []
    {
      delivered := [];
    }
  }

  class OperationalStreamWriter {
    const sink: LogSink
    const maxBatch: nat
    var buffer: seq<Line>
    var closed: bool

    constructor (sink: LogSink, maxBatch: nat)
      ensures buffer == [] && !closed && this.sink == sink && this.maxBatch == maxBatch
    {
      this.sink, this.maxBatch, buffer, closed := sink, maxBatch, [], false;
    }

    /** `_flush` when nothing interleaves: the buffer is taken, and then delivered or put back. */
    method FlushBuffer(refused: bool)
      modifies this`buffer, sink
      ensures sink.delivered == old(sink.delivered) + (if refused then [] else old(buffer))
      ensures buffer == if refused then old(buffer) else []
      ensures sink.delivered + buffer == old(sink.delivered) + old(buffer)
    {
      var batch := buffer;
      buffer := [];
      if batch == [] {
        return;
      }
      if refused {
        buffer := batch + buffer;
      } else {
        sink.delivered := sink.delivered + batch;
      }
    }

    /** `write` of a line that is already masked and serialised. */
    method WriteLine(line: Line, refused: bool)
      modifies this`buffer, sink
      ensures sink.delivered + buffer == old(sink.delivered) + old(buffer) + [line]
      ensures closed || refused || |old(buffer)| + 1 < maxBatch ==> sink.delivered == old(sink.delivered)
      ensures !closed && |old(buffer)| + 1 >= maxBatch && !refused ==> buffer == []
    {
      buffer := buffer + [line];
      var flushNow := |buffer| >= maxBatch;
      if !closed && flushNow {
        FlushBuffer(refused);
      }
    }
  }

  // ---------------------------------------------------------------- masking an event

  datatype Json = Text(text: string) | Atom(value: int) | Object(fields: Fields) | Array(items: Items)
  datatype Fields = NoField | Field(key: string, value: Json, rest: Fields)
  datatype Items = NoItem | Item(head: Json, rest: Items)

  /** `_mask_value`: strings are masked at every depth, everything else is kept. */
  function MaskValue(v: Json, mask: string -> string): Json {
    match v
    case Text(t) => Text(mask(t))
    case Atom(_) => v
    case Object(fs) => Object(MaskFields(fs, mask))
    case Array(xs) => Array(MaskItems(xs, mask))
  }

  function MaskFields(fs: Fields, mask: string -> string): Fields {
    match fs case NoField => NoField case Field(k, v, rest) => Field(k, MaskValue(v, mask), MaskFields(rest, mask))
  }

  function MaskItems(xs: Items, mask: string -> string): Items {
    match xs case NoItem => NoItem case Item(v, rest) => Item(MaskValue(v, mask), MaskItems(rest, mask))
  }

  /** The string values in document order, and the same value with every string blanked. */
  function Strings(v: Json): seq<string> {
    match v
    case Text(t) => [t]
    case Atom(_) => []
    case Object(fs) => FieldStrings(fs)
    case Array(xs) => ItemStrings(xs)
  }

  function FieldStrings(fs: Fields): seq<string> {
    match fs case NoField => [] case Field(_, v, rest) => Strings(v) + FieldStrings(rest)
  }

  function ItemStrings(xs: Items): seq<string> {
    match xs case NoItem => [] case Item(v, rest) => Strings(v) + ItemStrings(rest)
  }

  function Each(mask: string -> string, ss: seq<string>): (r: seq<string>)
    ensures |r| == |ss| && forall i :: 0 <= i < |ss| ==> r[i] == mask(ss[i])
  {
    seq(|ss|, i requires 0 <= i < |ss| => mask(ss[i]))
  }

  lemma EachConcat(mask: string -> string, a: seq<string>, b: seq<string>)
    ensures Each(mask, a + b) == Each(mask, a) + Each(mask, b)
  {
  }

  /** Masking masks every string value once, and changes nothing else: neither structure nor keys nor numbers. */
  lemma {:induction false} MaskMasksEveryString(v: Json, mask: string -> string)
    ensures Strings(MaskValue(v, mask)) == Each(mask, Strings(v))
    ensures MaskValue(MaskValue(v, mask), _ => "") == MaskValue(v, _ => "")
  {
    match v
    case Text(t) => assert Each(mask, [t]) == [mask(t)];
    case Atom(_) =>
    case Object(fs) => MaskMasksEveryField(fs, mask);
    case Array(xs) => MaskMasksEveryItem(xs, mask);
  }

  lemma {:induction false} MaskMasksEveryField(fs: Fields, mask: string -> string)
    ensures FieldStrings(MaskFields(fs, mask)) == Each(mask, FieldStrings(fs))
    ensures MaskFields(MaskFields(fs, mask), _ => "") == MaskFields(fs, _ => "")
  {
    if fs.Field? {
      MaskMasksEveryString(fs.value, mask);
      MaskMasksEveryField(fs.rest, mask);
      EachConcat(mask, Strings(fs.value), FieldStrings(fs.rest));
    }
  }

  lemma {:induction false} MaskMasksEveryItem(xs: Items, mask: string -> string)
    ensures ItemStrings(MaskItems(xs, mask)) == Each(mask, ItemStrings(xs))
    ensures MaskItems(MaskItems(xs, mask), _ => "") == MaskItems(xs, _ => "")
  {
    if xs.Item? {
      MaskMasksEveryString(xs.head, mask);
      MaskMasksEveryItem(xs.rest, mask);
      EachConcat(mask, Strings(xs.head), ItemStrings(xs.rest));
    }
  }
}
