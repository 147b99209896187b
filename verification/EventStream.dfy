/**
 The server-sent event stream of one session: what the generator yields for the chunks that the
 graph task puts into its queue.  `Stream` gives the yielded events for every queue; `Generate` is
 the generator's loop.  The main results are the stream's grammar and when documents are announced.
 */
module EventStream {
  import opened Checkpoints
  import opened QueryText

  type Doc = nat

  datatype CallMade = CallMade(id: Option<string>, name: string, query: string)

  /** A message of a chunk, decoded as far as the generator looks into it. */
  datatype StreamMsg =
    | ToolMsg(callId: string, name: string, artifact: Option<string>, chunks: Option<seq<Doc>>)
    | ModelMsg(content: string, calls: seq<CallMade>)

  /** What `queue.get` brings: nothing in time, the end marker, or a chunk with any of the special keys. */
  datatype Item =
    | Idle
    | End(tokenCancelled: bool)
    | Chunk(metadata: bool, error: Option<string>, cancelled: Option<string>, msgs: seq<StreamMsg>, docs: seq<seq<Doc>>)

  datatype Event =
    | KeepAlive
    | Metadata
    | Token(text: string)
    | ToolCall(id: string, name: string, query: string)
    | ToolResult(id: string, name: string)
    | ArtifactReady(artifact: string)
    | RetrievedDocs(id: string, docs: seq<Doc>)
    | CancelledEvent
    | ErrorEvent(message: string)
    | Done
  {
    predicate Terminal() {
      CancelledEvent? || ErrorEvent? || Done?
    }
  }

  /**
   Who caused an event: the result of a tool that was asked the question `key`, the retriever node, or (the call
   that stands for it) the generator itself.
   */
  datatype Origin = FromTool(key: string) | FromNode | Placeholder | NoOrigin

  datatype Emission = Emission(event: Event, origin: Origin)

  function Plain(e: Event): Emission {
    Emission(e, NoOrigin)
  }

  // ---------------------------------------------------------------- insertion-ordered dicts

  type Dict = seq<(string, string)>

  /** `d[k] = v`: a present key keeps its position. */
  function DictPut(d: Dict, k: string, v: string): (r: Dict)
    ensures DictGet(r, k) == Some(v)
    ensures forall k' :: k' != k ==> DictGet(r, k') == DictGet(d, k')
    ensures forall i :: 0 <= i < |r| ==> r[i].0 == k || r[i] in d
    ensures (forall i :: 0 <= i < |d| ==> d[i].0 != k) ==> r == d + [(k, v)]
    ensures (exists i :: 0 <= i < |d| && d[i].0 == k) ==> |r| == |d| && forall i :: 0 <= i < |d| ==> r[i].0 == d[i].0
  {
    if |d| == 0 then [(k, v)]
    else if d[0].0 == k then [(k, v)] + d[1..]
    else [d[0]] + DictPut(d[1..], k, v)
  }

  function DictGet(d: Dict, k: string): Option<string> {
    if |d| == 0 then None
    else if d[0].0 == k then Some(d[0].1)
    else DictGet(d[1..], k)
  }

  // ---------------------------------------------------------------- one message, one list of documents

  const RAG_QUERY_TOOL := "rag_query"
  const RAG_RETRIEVER_TOOL_CALL_ID := "rag-retriever"

  /** The generator's local variables. */
  datatype Local = Local(
    metadataSent: bool, toolNames: map<string, string>, ragQueries: Dict, emitted: set<string>, syntheticSent: bool)

  const Start := Local(false, map[], [], {}, false)

  /** A session: the user's message, and how case is folded. */
  datatype Session = Session(message: string, fold: char -> string)

  function Key(ss: Session, query: Option<string>): string {
    if query.Some? then Normalise(query.value, ss.fold) else ""
  }

  function OrUnknown(name: string): string {
    if name == "" then "unknown" else name
  }

  function OnToolMsg(ss: Session, s: Local, m: StreamMsg): (Local, seq<Emission>)
    requires m.ToolMsg?
  {
    var artifact := if m.artifact.Some? then [Plain(ArtifactReady(m.artifact.value))] else [];
    var name := if m.name != "" then m.name else if m.callId in s.toolNames then OrUnknown(s.toolNames[m.callId]) else "unknown";
    var result := artifact + [Plain(ToolResult(m.callId, name))];
    if m.chunks.Some? && m.callId != "" then
      var key := Key(ss, DictGet(s.ragQueries, m.callId));
      (if key != "" then s.(emitted := s.emitted + {key}) else s,
       result + [Emission(RetrievedDocs(m.callId, m.chunks.value), FromTool(key))])
    else (s, result)
  }

  function OnCall(s: Local, c: CallMade): (Local, seq<Emission>) {
    if c.id.None? then (s, [])
    else
      var id, name := c.id.value, OrUnknown(c.name);
      var n := s.(toolNames := s.toolNames[id := name]);
      (if name == RAG_QUERY_TOOL then n.(ragQueries := DictPut(n.ragQueries, id, c.query)) else n,
       [Plain(ToolCall(id, name, c.query))])
  }

  function OnCalls(s: Local, calls: seq<CallMade>): (Local, seq<Emission>)
    decreases |calls|
  {
    if |calls| == 0 then (s, [])
    else
      var (a, x) := OnCall(s, calls[0]);
      var (b, y) := OnCalls(a, calls[1..]);
      (b, x + y)
  }

  function OnMsg(ss: Session, s: Local, m: StreamMsg): (Local, seq<Emission>) {
    if m.ToolMsg? then OnToolMsg(ss, s, m)
    else
      var token := if m.content != "" then [Plain(Token(m.content))] else [];
      var (n, calls) := OnCalls(s, m.calls);
      (n, token + calls)
  }

  function OnMsgs(ss: Session, s: Local, msgs: seq<StreamMsg>): (Local, seq<Emission>)
    decreases |msgs|
  {
    if |msgs| == 0 then (s, [])
    else
      var (a, x) := OnMsg(ss, s, msgs[0]);
      var (b, y) := OnMsgs(ss, a, msgs[1..]);
      (b, x + y)
  }

  predicate Asks(ss: Session, entry: (string, string), wanted: string) {
    Normalise(entry.1, ss.fold) == wanted
  }

  /** The id of the last entry that asks what is wanted. */
  function MatchingCall(ss: Session, d: Dict, wanted: string): Option<string> {
    if |d| == 0 then None
    else if Asks(ss, d[|d| - 1], wanted) then Some(d[|d| - 1].0)
    else MatchingCall(ss, d[..|d| - 1], wanted)
  }

  predicate LastToAsk(ss: Session, d: Dict, wanted: string, i: int) {
    0 <= i < |d| && Asks(ss, d[i], wanted) && forall j :: i < j < |d| ==> !Asks(ss, d[j], wanted)
  }

  lemma {:induction false} MatchingCallIsLast(ss: Session, d: Dict, wanted: string)
    ensures var r := MatchingCall(ss, d, wanted);
            && (r.None? <==> forall i :: 0 <= i < |d| ==> !Asks(ss, d[i], wanted))
            && (r.Some? ==> exists i :: LastToAsk(ss, d, wanted, i) && d[i].0 == r.value)
  {
    hide Asks;
    if |d| > 0 {
      var rest := d[..|d| - 1];
      assert d == rest + [d[|d| - 1]];
      MatchingCallIsLast(ss, rest, wanted);
      var r := MatchingCall(ss, rest, wanted);
      if Asks(ss, d[|d| - 1], wanted) {
        assert LastToAsk(ss, d, wanted, |d| - 1);
      } else if r.Some? {
        var i :| LastToAsk(ss, rest, wanted, i) && rest[i].0 == r.value;
        assert LastToAsk(ss, d, wanted, i);
      }
    }
  }

  function MatchingRagCallId(ss: Session, d: Dict, query: string): Option<string> {
    if Normalise(query, ss.fold) == "" then None else MatchingCall(ss, d, Normalise(query, ss.fold))
  }

  function OnDocs(ss: Session, s: Local, docs: seq<Doc>): (Local, seq<Emission>) {
    var key := Normalise(ss.message, ss.fold);
    if docs == [] || (key != "" && key in s.emitted) then (s, [])
    else
      var found := MatchingRagCallId(ss, s.ragQueries, ss.message);
      var id := if found.Some? then found.value else RAG_RETRIEVER_TOOL_CALL_ID;
      var announce := found.None? && !s.syntheticSent;
      (s.(syntheticSent := s.syntheticSent || announce, emitted := if key != "" then s.emitted + {key} else s.emitted),
       (if announce then [Emission(ToolCall(id, RAG_QUERY_TOOL, ss.message), Placeholder)] else []) +
       [Emission(RetrievedDocs(id, docs), FromNode)])
  }

  function OnAllDocs(ss: Session, s: Local, all: seq<seq<Doc>>): (Local, seq<Emission>)
    decreases |all|
  {
    if |all| == 0 then (s, [])
    else
      var (a, x) := OnDocs(ss, s, all[0]);
      var (b, y) := OnAllDocs(ss, a, all[1..]);
      (b, x + y)
  }

  /** Does the item end the stream?  A metadata chunk never does, whatever else it carries. */
  predicate Ends(item: Item) {
    item.End? || (item.Chunk? && !item.metadata && (item.error.Some? || item.cancelled.Some?))
  }

  function OnItem(ss: Session, s: Local, item: Item): (Local, seq<Emission>) {
    match item
    case Idle => (s, [Plain(KeepAlive)])
    case End(cancelled) => (s, [Plain(if cancelled then CancelledEvent else Done)])
    case Chunk(metadata, error, cancelled, msgs, docs) =>
      if metadata then (s.(metadataSent := true), if s.metadataSent then [] else [Plain(Metadata)])
      else if error.Some? then (s, [Plain(ErrorEvent(error.value))])
      else if cancelled.Some? then (s, [Plain(CancelledEvent)])
      else
        var (a, x) := OnMsgs(ss, s, msgs);
        var (b, y) := OnAllDocs(ss, a, docs);
        (b, x + y)
  }

  /** Everything that is yielded for the items of the queue. */
  function Stream(ss: Session, s: Local, items: seq<Item>): seq<Emission>
    decreases |items|
  {
    if |items| == 0 then []
    else
      var (n, x) := OnItem(ss, s, items[0]);
      if Ends(items[0]) then x else x + Stream(ss, n, items[1..])
  }

  // ---------------------------------------------------------------- the grammar of the stream

  /** What never ends a stream has no terminal event. */
  lemma {:induction false} CallsAreQuiet(s: Local, calls: seq<CallMade>)
    ensures forall e :: e in OnCalls(s, calls).1 ==> !e.event.Terminal() && !e.event.Metadata?
    ensures OnCalls(s, calls).0.metadataSent == s.metadataSent
    decreases |calls|
  {
    if |calls| > 0 {
      CallsAreQuiet(OnCall(s, calls[0]).0, calls[1..]);
    }
  }

  lemma {:induction false} MsgsAreQuiet(ss: Session, s: Local, msgs: seq<StreamMsg>)
    ensures forall e :: e in OnMsgs(ss, s, msgs).1 ==> !e.event.Terminal() && !e.event.Metadata?
    ensures OnMsgs(ss, s, msgs).0.metadataSent == s.metadataSent
    decreases |msgs|
  {
    if |msgs| > 0 {
      if msgs[0].ModelMsg? {
        CallsAreQuiet(s, msgs[0].calls);
      }
      MsgsAreQuiet(ss, OnMsg(ss, s, msgs[0]).0, msgs[1..]);
    }
  }

  lemma {:induction false} DocsAreQuiet(ss: Session, s: Local, all: seq<seq<Doc>>)
    ensures forall e :: e in OnAllDocs(ss, s, all).1 ==> !e.event.Terminal() && !e.event.Metadata?
    ensures OnAllDocs(ss, s, all).0.metadataSent == s.metadataSent
    decreases |all|
  {
    if |all| > 0 {
      DocsAreQuiet(ss, OnDocs(ss, s, all[0]).0, all[1..]);
    }
  }

  lemma ItemGrammar(ss: Session, s: Local, item: Item)
    ensures var (n, x) := OnItem(ss, s, item);
            && (Ends(item) ==> |x| == 1 && x[0].event.Terminal())
            && (!Ends(item) ==> forall e :: e in x ==> !e.event.Terminal())
            && (s.metadataSent ==> n.metadataSent && forall k :: 0 <= k < |x| ==> !x[k].event.Metadata?)
            && (!s.metadataSent && n.metadataSent ==> |x| == 1 && x[0].event.Metadata?)
            && (!n.metadataSent ==> forall k :: 0 <= k < |x| ==> !x[k].event.Metadata?)
  {
    if item.Chunk? && !item.metadata && item.error.None? && item.cancelled.None? {
      var (a, x) := OnMsgs(ss, s, item.msgs);
      MsgsAreQuiet(ss, s, item.msgs);
      DocsAreQuiet(ss, a, item.docs);
      var (b, y) := OnAllDocs(ss, a, item.docs);
      assert forall k :: 0 <= k < |x + y| ==> (x + y)[k] in x || (x + y)[k] in y;
    }
  }

  /** Exactly one terminal event, and it is the last, if the queue holds an item that ends the stream; otherwise none. */
  lemma {:induction false} OneTerminalEvent(ss: Session, s: Local, items: seq<Item>)
    ensures var out := Stream(ss, s, items);
            if exists i :: 0 <= i < |items| && Ends(items[i])
            then |out| > 0 && out[|out| - 1].event.Terminal() && forall k :: 0 <= k < |out| - 1 ==> !out[k].event.Terminal()
            else forall k :: 0 <= k < |out| ==> !out[k].event.Terminal()
    decreases |items|
  {
    hide OnItem, Ends;
    if |items| > 0 {
      ItemGrammar(ss, s, items[0]);
      var (n, x) := OnItem(ss, s, items[0]);
      if !Ends(items[0]) {
        OneTerminalEvent(ss, n, items[1..]);
        EndsLater(items);
      }
    }
  }

  lemma EndsLater(items: seq<Item>)
    requires |items| > 0 && !Ends(items[0])
    ensures (exists i :: 0 <= i < |items| && Ends(items[i])) <==> exists i :: 0 <= i < |items[1..]| && Ends(items[1..][i])
  {
    hide Ends;
    assert forall i :: 0 <= i < |items[1..]| ==> items[1..][i] == items[i + 1];
    if i :| 0 <= i < |items| && Ends(items[i]) {
      assert Ends(items[1..][i - 1]);
    }
  }

  /** How an item ends the stream: a chunk's error counts before its cancellation. */
  function TerminalOf(item: Item): Event
    requires Ends(item)
  {
    if item.End? then (if item.tokenCancelled then CancelledEvent else Done)
    else if item.error.Some? then ErrorEvent(item.error.value)
    else CancelledEvent
  }

  /** The first item that ends the stream decides its terminal event, and nothing behind it is looked at. */
  lemma {:induction false} FirstEndDecides(ss: Session, s: Local, items: seq<Item>, k: nat)
    requires k < |items| && Ends(items[k]) && forall i :: 0 <= i < k ==> !Ends(items[i])
    ensures Stream(ss, s, items) == Stream(ss, s, items[..k]) + [Plain(TerminalOf(items[k]))]
    decreases |items|
  {
    hide OnMsgs, OnAllDocs;
    var (n, x) := OnItem(ss, s, items[0]);
    if k > 0 {
      FirstEndDecides(ss, n, items[1..], k - 1);
      assert items[1..][..k - 1] == items[..k][1..];
      assert x + (Stream(ss, n, items[..k][1..]) + [Plain(TerminalOf(items[k]))])
          == x + Stream(ss, n, items[..k][1..]) + [Plain(TerminalOf(items[k]))];
    }
  }

  // ---------------------------------------------------------------- nothing said is lost

  /** What the stream passes on: heartbeats, the model's texts and calls, and what comes back for a call. */
  datatype Said =
    | Waited
    | Words(text: string)
    | Called(id: string, name: string, query: string)
    | File(artifact: string)
    | Outcome(id: string, name: string)
    | Documents(id: string, docs: seq<Doc>)

  /** What an event says, except for what the retriever node brings in. */
  function SaidWith(e: Emission): seq<Said> {
    match e.event
    case KeepAlive => [Waited]
    case Token(t) => [Words(t)]
    case ToolCall(id, name, query) => if e.origin == Placeholder then [] else [Called(id, name, query)]
    case ArtifactReady(a) => [File(a)]
    case ToolResult(id, name) => [Outcome(id, name)]
    case RetrievedDocs(id, docs) => if e.origin == FromNode then [] else [Documents(id, docs)]
    case _ => []
  }

  function SaidBy(out: seq<Emission>): seq<Said> {
    if |out| == 0 then [] else SaidWith(out[0]) + SaidBy(out[1..])
  }

  /** Every call that has an id, under its own name if it has one. */
  function SaidCalls(calls: seq<CallMade>): seq<Said> {
    if |calls| == 0 then []
    else
      (if calls[0].id.None? then []
       else [Called(calls[0].id.value, if calls[0].name == "" then "unknown" else calls[0].name, calls[0].query)])
      + SaidCalls(calls[1..])
  }

  /** The name of the last of the calls made under the id, "unknown" if there is none. */
  function NameOf(made: seq<CallMade>, id: string): (name: string)
    ensures name != ""
  {
    if |made| == 0 then "unknown"
    else if made[|made| - 1].id != Some(id) then NameOf(made[..|made| - 1], id)
    else if made[|made| - 1].name == "" then "unknown"
    else made[|made| - 1].name
  }

  /** What a message says after the calls `made`; a result without a name is named after its call. */
  function SaidInMsg(made: seq<CallMade>, m: StreamMsg): seq<Said> {
    match m
    case ToolMsg(id, name, artifact, chunks) =>
      (if artifact.Some? then [File(artifact.value)] else [])
      + [Outcome(id, if name == "" then NameOf(made, id) else name)]
      + (if chunks.Some? && id != "" then [Documents(id, chunks.value)] else [])
    case ModelMsg(content, calls) =>
      (if content == "" then [] else [Words(content)]) + SaidCalls(calls)
  }

  function CallsIn(m: StreamMsg): seq<CallMade> {
    if m.ModelMsg? then m.calls else []
  }

  function SaidIn(made: seq<CallMade>, msgs: seq<StreamMsg>): (seq<CallMade>, seq<Said>)
    decreases |msgs|
  {
    if |msgs| == 0 then (made, [])
    else
      var (all, rest) := SaidIn(made + CallsIn(msgs[0]), msgs[1..]);
      (all, SaidInMsg(made, msgs[0]) + rest)
  }

  predicate IsPayload(item: Item) {
    item.Chunk? && !item.metadata && item.error.None? && item.cancelled.None?
  }

  /** What the items of the queue say before it ends. */
  function SaidBeforeEnd(made: seq<CallMade>, items: seq<Item>): seq<Said>
    decreases |items|
  {
    if |items| == 0 || Ends(items[0]) then []
    else if items[0].Idle? then [Waited] + SaidBeforeEnd(made, items[1..])
    else if IsPayload(items[0]) then
      var (all, said) := SaidIn(made, items[0].msgs);
      said + SaidBeforeEnd(all, items[1..])
    else SaidBeforeEnd(made, items[1..])
  }

  /** The names on record are those of the calls made. */
  ghost predicate Named(s: Local, made: seq<CallMade>) {
    forall id: string :: (if id in s.toolNames then s.toolNames[id] else "unknown") == NameOf(made, id)
  }

  lemma {:induction false} SaidConcat(a: seq<Emission>, b: seq<Emission>)
    ensures SaidBy(a + b) == SaidBy(a) + SaidBy(b)
  {
    hide SaidWith;
    if |a| == 0 {
      assert a + b == b;
    } else {
      SaidConcat(a[1..], b);
      assert (a + b)[1..] == a[1..] + b;
      assert SaidWith(a[0]) + (SaidBy(a[1..]) + SaidBy(b)) == SaidWith(a[0]) + SaidBy(a[1..]) + SaidBy(b);
    }
  }

  lemma SaidOne(e: Emission)
    ensures SaidBy([e]) == SaidWith(e) && SaidBy([]) == []
  {
  }

  lemma NameOfMore(made: seq<CallMade>, c: CallMade, id: string)
    ensures NameOf(made + [c], id) == if c.id != Some(id) then NameOf(made, id) else if c.name == "" then "unknown" else c.name
  {
  }

  lemma CallNames(s: Local, made: seq<CallMade>, c: CallMade)
    requires Named(s, made)
    ensures Named(OnCall(s, c).0, made + [c])
  {
    hide NameOf, DictPut;
    var n := OnCall(s, c).0;
    forall id: string ensures (if id in n.toolNames then n.toolNames[id] else "unknown") == NameOf(made + [c], id) {
      NameOfMore(made, c, id);
      assert (if id in s.toolNames then s.toolNames[id] else "unknown") == NameOf(made, id);
    }
  }

  lemma CallSays(s: Local, c: CallMade)
    ensures SaidBy(OnCall(s, c).1) == SaidCalls([c])
  {
    hide SaidBy, DictPut;
    assert [c][1..] == [] && SaidCalls([c][1..]) == [];
    var x := OnCall(s, c).1;
    if c.id.Some? {
      SaidOne(x[0]);
      assert x == [x[0]];
    } else {
      SaidOne(Plain(Done));
    }
  }

  lemma {:induction false} CallsSay(s: Local, made: seq<CallMade>, calls: seq<CallMade>)
    requires Named(s, made)
    ensures Named(OnCalls(s, calls).0, made + calls) && SaidBy(OnCalls(s, calls).1) == SaidCalls(calls)
    decreases |calls|
  {
    hide Named, SaidBy, OnCall;
    if |calls| == 0 {
      assert made + calls == made;
      SaidOne(Plain(Done));
    } else {
      var (a, x) := OnCall(s, calls[0]);
      CallNames(s, made, calls[0]);
      CallSays(s, calls[0]);
      CallsSay(a, made + [calls[0]], calls[1..]);
      SaidConcat(x, OnCalls(a, calls[1..]).1);
      assert made + [calls[0]] + calls[1..] == made + calls;
      assert [calls[0]][1..] == [] && SaidCalls([calls[0]][1..]) == [];
    }
  }

  lemma MsgSays(ss: Session, s: Local, made: seq<CallMade>, m: StreamMsg)
    requires Named(s, made)
    ensures Named(OnMsg(ss, s, m).0, made + CallsIn(m)) && SaidBy(OnMsg(ss, s, m).1) == SaidInMsg(made, m)
  {
    hide Key, OnCalls, SaidBy;
    match m
    case ToolMsg(_, _, _, _) =>
      assert made + [] == made;
      ToolMsgSays(ss, s, made, m);
    case ModelMsg(content, calls) =>
      CallsSay(s, made, calls);
      hide Named, SaidCalls;
      var x := OnMsg(ss, s, m).1;
      if content != "" {
        SaidOne(Plain(Token(content)));
        SaidConcat([Plain(Token(content))], OnCalls(s, calls).1);
      } else {
        assert x == OnCalls(s, calls).1;
        assert [] + SaidCalls(calls) == SaidCalls(calls);
      }
  }

  lemma ToolMsgSays(ss: Session, s: Local, made: seq<CallMade>, m: StreamMsg)
    requires Named(s, made) && m.ToolMsg?
    ensures Named(OnToolMsg(ss, s, m).0, made) && SaidBy(OnToolMsg(ss, s, m).1) == SaidInMsg(made, m)
  {
    hide Key, SaidBy, NameOf, DictGet;
    var x := OnToolMsg(ss, s, m).1;
    var k := if m.artifact.Some? then 1 else 0;
    var name := if m.name == "" then NameOf(made, m.callId) else m.name;
    assert x[k].event == ToolResult(m.callId, name);
    hide Named, OrUnknown;
    SaidAtMostOne(x[..k], if m.artifact.Some? then [File(m.artifact.value)] else []);
    SaidAtMostOne([x[k]], [Outcome(m.callId, name)]);
    SaidAtMostOne(x[k + 1..], if m.chunks.Some? && m.callId != "" then [Documents(m.callId, m.chunks.value)] else []);
    hide OnToolMsg, SaidWith;
    assert x == x[..k] + [x[k]] + x[k + 1..];
    SaidConcat(x[..k], [x[k]]);
    SaidConcat(x[..k] + [x[k]], x[k + 1..]);
  }

  lemma SaidAtMostOne(out: seq<Emission>, said: seq<Said>)
    requires if out == [] then said == [] else out == [out[0]] && SaidWith(out[0]) == said
    ensures SaidBy(out) == said
  {
  }

  lemma {:induction false} MsgsSay(ss: Session, s: Local, made: seq<CallMade>, msgs: seq<StreamMsg>)
    requires Named(s, made)
    ensures var (all, said) := SaidIn(made, msgs);
            Named(OnMsgs(ss, s, msgs).0, all) && SaidBy(OnMsgs(ss, s, msgs).1) == said
    decreases |msgs|
  {
    hide Named, OnMsg, SaidInMsg, SaidBy;
    if |msgs| == 0 {
      SaidOne(Plain(Done));
    } else {
      var (a, x) := OnMsg(ss, s, msgs[0]);
      MsgSays(ss, s, made, msgs[0]);
      MsgsSay(ss, a, made + CallsIn(msgs[0]), msgs[1..]);
      SaidConcat(x, OnMsgs(ss, a, msgs[1..]).1);
    }
  }

  /** The retriever's documents, and the call that stands for it, are not among what is said. */
  lemma {:induction false} DocsSayNothing(ss: Session, s: Local, all: seq<seq<Doc>>)
    ensures SaidBy(OnAllDocs(ss, s, all).1) == [] && OnAllDocs(ss, s, all).0.toolNames == s.toolNames
    decreases |all|
  {
    hide Normalise, MatchingRagCallId;
    if |all| > 0 {
      var (a, x) := OnDocs(ss, s, all[0]);
      DocsSayNothing(ss, a, all[1..]);
      SaidConcat(x, OnAllDocs(ss, a, all[1..]).1);
      if |x| == 2 {
        SaidConcat([x[0]], [x[1]]);
        assert x == [x[0]] + [x[1]];
        SaidOne(x[0]);
        SaidOne(x[1]);
      } else if |x| == 1 {
        assert x == [x[0]];
        SaidOne(x[0]);
      }
    }
  }

  lemma ItemSays(ss: Session, s: Local, made: seq<CallMade>, item: Item)
    requires Named(s, made)
    ensures var (n, x) := OnItem(ss, s, item);
            if item.Idle? then Named(n, made) && SaidBy(x) == [Waited]
            else if IsPayload(item) then Named(n, SaidIn(made, item.msgs).0) && SaidBy(x) == SaidIn(made, item.msgs).1
            else Named(n, made) && SaidBy(x) == []
  {
    hide OnMsgs, OnAllDocs, NameOf, SaidBy, SaidIn;
    var x := OnItem(ss, s, item).1;
    if IsPayload(item) {
      var (a, y) := OnMsgs(ss, s, item.msgs);
      MsgsSay(ss, s, made, item.msgs);
      DocsSayNothing(ss, a, item.docs);
      SaidConcat(y, OnAllDocs(ss, a, item.docs).1);
    } else if |x| == 1 {
      SaidOne(x[0]);
      assert x == [x[0]];
    } else {
      SaidOne(Plain(Done));
    }
  }

  lemma {:induction false} StreamSays(ss: Session, s: Local, made: seq<CallMade>, items: seq<Item>)
    requires Named(s, made)
    ensures SaidBy(Stream(ss, s, items)) == SaidBeforeEnd(made, items)
    decreases |items|
  {
    hide OnItem, Named, SaidIn, SaidBy;
    if |items| == 0 {
      SaidOne(Plain(Done));
    } else {
      ItemSays(ss, s, made, items[0]);
      var (n, x) := OnItem(ss, s, items[0]);
      if !Ends(items[0]) {
        var all := if IsPayload(items[0]) then SaidIn(made, items[0].msgs).0 else made;
        StreamSays(ss, n, all, items[1..]);
        SaidConcat(x, Stream(ss, n, items[1..]));
      }
    }
  }

  /**
   Over every queue: heartbeats, model texts, tool calls that have an id, artifacts, tool results and the documents
   they found are streamed once each and in order, with their ids, names and queries, up to the end; apart from
   them there are only what the retriever node brings, the metadata and the terminal event.
   */
  lemma NothingSaidIsLost(ss: Session, items: seq<Item>)
    ensures SaidBy(Stream(ss, Start, items)) == SaidBeforeEnd([], items)
  {
    StreamSays(ss, Start, [], items);
  }

  /** At most one metadata event, and none once it has been sent. */
  lemma {:induction false} OneMetadataEvent(ss: Session, s: Local, items: seq<Item>, i: nat, j: nat)
    requires i < j < |Stream(ss, s, items)| && Stream(ss, s, items)[j].event.Metadata?
    ensures !s.metadataSent && !Stream(ss, s, items)[i].event.Metadata?
    decreases |items|
  {
    hide OnItem, Ends;
    ItemGrammar(ss, s, items[0]);
    var (n, x) := OnItem(ss, s, items[0]);
    if !Ends(items[0]) {
      if |x| <= i {
        OneMetadataEvent(ss, n, items[1..], i - |x|, j - |x|);
      } else if |x| <= j {
        if n.metadataSent {
          NoSecondMetadata(ss, n, items[1..], j - |x|);
        }
      }
    }
  }

  predicate IsMetadata(item: Item) {
    item.Chunk? && item.metadata
  }

  /** A metadata chunk comes before the end of the queue. */
  predicate MetadataBeforeEnd(items: seq<Item>) {
    |items| > 0 && !Ends(items[0]) && (IsMetadata(items[0]) || MetadataBeforeEnd(items[1..]))
  }

  ghost predicate HasMetadata(out: seq<Emission>) {
    exists e :: e in out && e.event.Metadata?
  }

  /** There is one exactly if a metadata chunk comes before the end. */
  lemma {:induction false} MetadataIff(ss: Session, s: Local, items: seq<Item>)
    ensures HasMetadata(Stream(ss, s, items)) <==> !s.metadataSent && MetadataBeforeEnd(items)
    decreases |items|
  {
    hide Ends, OnItem, IsMetadata;
    if |items| > 0 {
      var (n, x) := OnItem(ss, s, items[0]);
      ItemMetadata(ss, s, items[0]);
      if !Ends(items[0]) {
        MetadataIff(ss, n, items[1..]);
        assert forall e :: e in x + Stream(ss, n, items[1..]) <==> e in x || e in Stream(ss, n, items[1..]);
      }
    }
  }

  lemma ItemMetadata(ss: Session, s: Local, item: Item)
    ensures var (n, x) := OnItem(ss, s, item);
            && (n.metadataSent <==> s.metadataSent || IsMetadata(item))
            && (HasMetadata(x) <==> IsMetadata(item) && !s.metadataSent)
            && (IsMetadata(item) ==> !Ends(item))
  {
    if IsPayload(item) {
      var (a, x) := OnMsgs(ss, s, item.msgs);
      MsgsAreQuiet(ss, s, item.msgs);
      DocsAreQuiet(ss, a, item.docs);
      hide OnMsgs, OnAllDocs;
    } else if IsMetadata(item) && !s.metadataSent {
      assert Plain(Metadata) in OnItem(ss, s, item).1;
    }
  }

  lemma {:induction false} NoSecondMetadata(ss: Session, s: Local, items: seq<Item>, j: nat)
    requires s.metadataSent && j < |Stream(ss, s, items)|
    ensures !Stream(ss, s, items)[j].event.Metadata?
    decreases |items|
  {
    hide OnItem, Ends;
    ItemGrammar(ss, s, items[0]);
    var (n, x) := OnItem(ss, s, items[0]);
    if j >= |x| {
      NoSecondMetadata(ss, n, items[1..], j - |x|);
    }
  }

  // ---------------------------------------------------------------- when documents are announced

  ghost predicate CalledBefore(out: seq<Emission>, j: nat, id: string)
    requires j <= |out|
  {
    exists i :: 0 <= i < j && out[i].event.ToolCall? && out[i].event.id == id
  }

  /** The emission announces documents for the user's question. */
  predicate Announces(e: Emission, key: string) {
    e.origin == FromNode || e.origin == FromTool(key)
  }

  /** What has been yielded so far, against the local variables; `key` is the user's normalised question. */
  ghost predicate DocsInv(key: string, s: Local, out: seq<Emission>) {
    && (key != "" ==> forall i :: 0 <= i < |out| && Announces(out[i], key) ==> key in s.emitted)
    && (forall q :: q in s.ragQueries ==> CalledBefore(out, |out|, q.0))
    && (s.syntheticSent ==> CalledBefore(out, |out|, RAG_RETRIEVER_TOOL_CALL_ID))
    && (forall j :: 0 <= j < |out| && out[j].origin == FromNode ==> NodeDocsFit(key, out, j))
  }

  /** Node-driven documents follow a tool call with their id, and are the first announcement for the question. */
  ghost predicate NodeDocsFit(key: string, out: seq<Emission>, j: nat)
    requires j < |out|
  {
    && out[j].event.RetrievedDocs? && CalledBefore(out, j, out[j].event.id)
    && (key != "" ==> forall i :: 0 <= i < j ==> !Announces(out[i], key))
  }

  lemma CalledLater(out: seq<Emission>, more: seq<Emission>, j: nat, id: string)
    requires j <= |out| && CalledBefore(out, j, id)
    ensures CalledBefore(out + more, j, id) && CalledBefore(out + more, |out + more|, id)
  {
    var i :| 0 <= i < j && out[i].event.ToolCall? && out[i].event.id == id;
    assert (out + more)[i] == out[i];
  }

  /** An emission that is not node-driven leaves the earlier ones as they are. */
  lemma AppendOther(key: string, s: Local, out: seq<Emission>, n: Local, e: Emission)
    requires DocsInv(key, s, out) && e.origin != FromNode
    requires s.emitted <= n.emitted && n.syntheticSent == s.syntheticSent
    requires forall q :: q in n.ragQueries ==> q in s.ragQueries || (e.event.ToolCall? && e.event.id == q.0)
    requires key != "" && Announces(e, key) ==> key in n.emitted
    ensures DocsInv(key, n, out + [e])
  {
    var out' := out + [e];
    forall q | q in n.ragQueries ensures CalledBefore(out', |out'|, q.0) {
      if q in s.ragQueries {
        CalledLater(out, [e], |out|, q.0);
      } else {
        assert out'[|out|] == e;
      }
    }
    if s.syntheticSent {
      CalledLater(out, [e], |out|, RAG_RETRIEVER_TOOL_CALL_ID);
    }
    forall j | 0 <= j < |out'| && out'[j].origin == FromNode ensures NodeDocsFit(key, out', j) {
      CalledLater(out, [e], j, out[j].event.id);
    }
  }

  lemma PlainKeepsDocsInv(key: string, s: Local, out: seq<Emission>, e: Event)
    requires DocsInv(key, s, out)
    ensures DocsInv(key, s, out + [Plain(e)])
  {
    AppendOther(key, s, out, s, Plain(e));
  }

  lemma CallKeepsDocsInv(key: string, s: Local, out: seq<Emission>, c: CallMade)
    requires DocsInv(key, s, out)
    ensures DocsInv(key, OnCall(s, c).0, out + OnCall(s, c).1)
  {
    var (n, x) := OnCall(s, c);
    if c.id.Some? {
      AppendOther(key, s, out, n, x[0]);
      assert x == [x[0]];
    } else {
      assert out + x == out;
    }
  }

  lemma {:induction false} CallsKeepDocsInv(key: string, s: Local, out: seq<Emission>, calls: seq<CallMade>)
    requires DocsInv(key, s, out)
    ensures DocsInv(key, OnCalls(s, calls).0, out + OnCalls(s, calls).1)
    decreases |calls|
  {
    hide DocsInv, OnCall;
    if |calls| == 0 {
      assert out + [] == out;
    } else {
      var (a, x) := OnCall(s, calls[0]);
      CallKeepsDocsInv(key, s, out, calls[0]);
      CallsKeepDocsInv(key, a, out + x, calls[1..]);
      assert (out + x) + OnCalls(a, calls[1..]).1 == out + (x + OnCalls(a, calls[1..]).1);
    }
  }

  lemma ToolMsgKeepsDocsInv(key: string, ss: Session, s: Local, out: seq<Emission>, m: StreamMsg)
    requires DocsInv(key, s, out) && m.ToolMsg?
    ensures DocsInv(key, OnToolMsg(ss, s, m).0, out + OnToolMsg(ss, s, m).1)
  {
    hide DocsInv, Key;
    var (n, x) := OnToolMsg(ss, s, m);
    var out1 := out;
    if m.artifact.Some? {
      PlainKeepsDocsInv(key, s, out, ArtifactReady(m.artifact.value));
      out1 := out + [Plain(ArtifactReady(m.artifact.value))];
    }
    var k := if m.artifact.Some? then 1 else 0;
    PlainKeepsDocsInv(key, s, out1, x[k].event);
    var out2 := out1 + [x[k]];
    if m.chunks.Some? && m.callId != "" {
      AppendOther(key, s, out2, n, x[k + 1]);
      assert out + x == out2 + [x[k + 1]];
    } else {
      assert out + x == out2;
    }
  }

  lemma {:induction false} MsgsKeepDocsInv(key: string, ss: Session, s: Local, out: seq<Emission>, msgs: seq<StreamMsg>)
    requires DocsInv(key, s, out)
    ensures DocsInv(key, OnMsgs(ss, s, msgs).0, out + OnMsgs(ss, s, msgs).1)
    decreases |msgs|
  {
    hide DocsInv, OnToolMsg, OnCalls;
    if |msgs| == 0 {
      assert out + [] == out;
    } else {
      var m := msgs[0];
      var (a, x) := OnMsg(ss, s, m);
      if m.ToolMsg? {
        ToolMsgKeepsDocsInv(key, ss, s, out, m);
      } else if m.content != "" {
        PlainKeepsDocsInv(key, s, out, Token(m.content));
        CallsKeepDocsInv(key, s, out + [Plain(Token(m.content))], m.calls);
        assert out + x == out + [Plain(Token(m.content))] + OnCalls(s, m.calls).1;
      } else {
        CallsKeepDocsInv(key, s, out, m.calls);
        assert x == OnCalls(s, m.calls).1;
      }
      MsgsKeepDocsInv(key, ss, a, out + x, msgs[1..]);
      assert (out + x) + OnMsgs(ss, a, msgs[1..]).1 == out + (x + OnMsgs(ss, a, msgs[1..]).1);
    }
  }

  /** Node-driven documents: first announcement for the question, after the call they belong to. */
  lemma AppendNodeDocs(key: string, s: Local, out: seq<Emission>, n: Local, e: Emission)
    requires DocsInv(key, s, out) && e.origin == FromNode && e.event.RetrievedDocs?
    requires CalledBefore(out, |out|, e.event.id) && (key != "" ==> key !in s.emitted && key in n.emitted)
    requires n.ragQueries == s.ragQueries && (n.syntheticSent ==> s.syntheticSent)
    ensures DocsInv(key, n, out + [e])
  {
    var out' := out + [e];
    forall q | q in n.ragQueries ensures CalledBefore(out', |out'|, q.0) {
      CalledLater(out, [e], |out|, q.0);
    }
    if n.syntheticSent {
      CalledLater(out, [e], |out|, RAG_RETRIEVER_TOOL_CALL_ID);
    }
    forall j | 0 <= j < |out'| && out'[j].origin == FromNode ensures NodeDocsFit(key, out', j) {
      CalledLater(out, [e], j, out'[j].event.id);
    }
  }

  lemma AppendSynthetic(key: string, s: Local, out: seq<Emission>, query: string)
    requires DocsInv(key, s, out)
    ensures DocsInv(key, s.(syntheticSent := true),
                    out + [Emission(ToolCall(RAG_RETRIEVER_TOOL_CALL_ID, RAG_QUERY_TOOL, query), Placeholder)])
  {
    var e := Emission(ToolCall(RAG_RETRIEVER_TOOL_CALL_ID, RAG_QUERY_TOOL, query), Placeholder);
    AppendOther(key, s, out, s, e);
    assert (out + [e])[|out|] == e;
  }

  lemma DocsKeepDocsInv(key: string, ss: Session, s: Local, out: seq<Emission>, docs: seq<Doc>)
    requires DocsInv(key, s, out) && key == Normalise(ss.message, ss.fold)
    ensures DocsInv(key, OnDocs(ss, s, docs).0, out + OnDocs(ss, s, docs).1)
  {
    var (n, x) := OnDocs(ss, s, docs);
    if docs == [] || (key != "" && key in s.emitted) {
      assert out + x == out;
    } else {
      var found := MatchingRagCallId(ss, s.ragQueries, ss.message);
      if found.None? && !s.syntheticSent {
        AppendSynthetic(key, s, out, ss.message);
        AppendNodeDocs(key, s.(syntheticSent := true), out + [x[0]], n, x[1]);
        assert out + x == out + [x[0]] + [x[1]];
      } else {
        if found.Some? {
          MatchingCallIsLast(ss, s.ragQueries, key);
        }
        AppendNodeDocs(key, s, out, n, x[0]);
        assert x == [x[0]];
      }
    }
  }

  lemma {:induction false} AllDocsKeepDocsInv(key: string, ss: Session, s: Local, out: seq<Emission>, all: seq<seq<Doc>>)
    requires DocsInv(key, s, out) && key == Normalise(ss.message, ss.fold)
    ensures DocsInv(key, OnAllDocs(ss, s, all).0, out + OnAllDocs(ss, s, all).1)
    decreases |all|
  {
    hide DocsInv, OnDocs, Normalise;
    if |all| == 0 {
      assert out + [] == out;
    } else {
      var (a, x) := OnDocs(ss, s, all[0]);
      DocsKeepDocsInv(key, ss, s, out, all[0]);
      AllDocsKeepDocsInv(key, ss, a, out + x, all[1..]);
      assert (out + x) + OnAllDocs(ss, a, all[1..]).1 == out + (x + OnAllDocs(ss, a, all[1..]).1);
    }
  }

  lemma ItemKeepsDocsInv(key: string, ss: Session, s: Local, out: seq<Emission>, item: Item)
    requires DocsInv(key, s, out) && key == Normalise(ss.message, ss.fold)
    ensures DocsInv(key, OnItem(ss, s, item).0, out + OnItem(ss, s, item).1)
  {
    hide Normalise, OnMsgs, OnAllDocs;
    var (n, x) := OnItem(ss, s, item);
    if item.Chunk? && !item.metadata && item.error.None? && item.cancelled.None? {
      var (a, y) := OnMsgs(ss, s, item.msgs);
      MsgsKeepDocsInv(key, ss, s, out, item.msgs);
      AllDocsKeepDocsInv(key, ss, a, out + y, item.docs);
      assert out + x == out + y + OnAllDocs(ss, a, item.docs).1;
    } else if |x| == 1 {
      AppendOther(key, s, out, n, x[0]);
      assert x == [x[0]];
    } else {
      assert out + x == out;
    }
  }

  lemma {:induction false} StreamKeepsDocsInv(key: string, ss: Session, s: Local, out: seq<Emission>, items: seq<Item>)
    returns (n: Local)
    requires DocsInv(key, s, out) && key == Normalise(ss.message, ss.fold)
    ensures DocsInv(key, n, out + Stream(ss, s, items))
    decreases |items|
  {
    hide DocsInv, OnItem, Normalise;
    if |items| == 0 {
      n := s;
      assert out + [] == out;
    } else {
      var (a, x) := OnItem(ss, s, items[0]);
      ItemKeepsDocsInv(key, ss, s, out, items[0]);
      if Ends(items[0]) {
        n := a;
      } else {
        n := StreamKeepsDocsInv(key, ss, a, out + x, items[1..]);
        assert (out + x) + Stream(ss, a, items[1..]) == out + (x + Stream(ss, a, items[1..]));
      }
    }
  }

  /**
   Documents that the retriever node found are announced after a tool_call with their id; unless the
   user's question is blank, no documents for that question have been announced before, by the node
   or for a tool call.
   */
  lemma NodeDocsComeFirst(ss: Session, items: seq<Item>, j: nat)
    requires IsFolding(ss.fold) && j < |Stream(ss, Start, items)| && Stream(ss, Start, items)[j].origin == FromNode
    ensures var out := Stream(ss, Start, items);
            && out[j].event.RetrievedDocs? && CalledBefore(out, j, out[j].event.id)
            && (!Blank(ss.message) ==> forall i :: 0 <= i < j ==>
                  out[i].origin != FromNode && out[i].origin != FromTool(Normalise(ss.message, ss.fold)))
  {
    var key := Normalise(ss.message, ss.fold);
    BlankIff(ss.message, ss.fold);
    var n := StreamKeepsDocsInv(key, ss, Start, [], items);
    assert [] + Stream(ss, Start, items) == Stream(ss, Start, items);
    hide Normalise, Blank, Stream;
    assert NodeDocsFit(key, Stream(ss, Start, items), j);
    assert forall i :: 0 <= i < j ==> (Announces(Stream(ss, Start, items)[i], key) <==>
      Stream(ss, Start, items)[i].origin == FromNode || Stream(ss, Start, items)[i].origin == FromTool(key));
  }

  // ---------------------------------------------------------------- the call that stands for the retriever

  /** The call stands for the retriever with the user's message, and the retriever's documents come next, under its id. */
  ghost predicate StandsIn(ss: Session, out: seq<Emission>, j: int) {
    && 0 <= j && j + 1 < |out| && out[j].event == ToolCall("rag-retriever", "rag_query", ss.message)
    && out[j + 1].origin == FromNode && out[j + 1].event.RetrievedDocs? && out[j + 1].event.id == "rag-retriever"
  }

  /** At most one such call, and none if one was `sent` before; `now` says whether one has been sent afterwards. */
  ghost predicate OneStandIn(ss: Session, out: seq<Emission>, sent: bool, now: bool) {
    && (sent ==> now)
    && forall j :: 0 <= j < |out| && out[j].origin.Placeholder? ==>
         && !sent && now && StandsIn(ss, out, j)
         && forall i :: 0 <= i < |out| && i != j ==> !out[i].origin.Placeholder?
  }

  lemma StandInConcat(ss: Session, x: seq<Emission>, y: seq<Emission>, sent: bool, between: bool, now: bool)
    requires OneStandIn(ss, x, sent, between) && OneStandIn(ss, y, between, now)
    ensures OneStandIn(ss, x + y, sent, now)
  {
    var out := x + y;
    forall j | 0 <= j < |out| && out[j].origin.Placeholder?
      ensures !sent && now && StandsIn(ss, out, j) && forall i :: 0 <= i < |out| && i != j ==> !out[i].origin.Placeholder?
    {
      if j < |x| {
        assert StandsIn(ss, x, j);
      } else {
        assert StandsIn(ss, y, j - |x|);
      }
    }
  }

  lemma {:induction false} CallsStandIn(s: Local, calls: seq<CallMade>)
    ensures OnCalls(s, calls).0.syntheticSent == s.syntheticSent
    ensures forall e :: e in OnCalls(s, calls).1 ==> !e.origin.Placeholder?
    decreases |calls|
  {
    hide DictPut, OrUnknown;
    if |calls| > 0 {
      CallsStandIn(OnCall(s, calls[0]).0, calls[1..]);
    }
  }

  lemma {:induction false} MsgsStandIn(ss: Session, s: Local, msgs: seq<StreamMsg>)
    ensures OnMsgs(ss, s, msgs).0.syntheticSent == s.syntheticSent
    ensures forall e :: e in OnMsgs(ss, s, msgs).1 ==> !e.origin.Placeholder?
    decreases |msgs|
  {
    hide Key, OrUnknown, OnCalls;
    if |msgs| > 0 {
      if msgs[0].ModelMsg? {
        CallsStandIn(s, msgs[0].calls);
      }
      MsgsStandIn(ss, OnMsg(ss, s, msgs[0]).0, msgs[1..]);
    }
  }

  lemma {:induction false} DocsStandIn(ss: Session, s: Local, all: seq<seq<Doc>>)
    ensures var (n, x) := OnAllDocs(ss, s, all); OneStandIn(ss, x, s.syntheticSent, n.syntheticSent)
    decreases |all|
  {
    hide Normalise, MatchingRagCallId;
    if |all| > 0 {
      var (a, x) := OnDocs(ss, s, all[0]);
      assert OneStandIn(ss, x, s.syntheticSent, a.syntheticSent);
      hide OnDocs, OneStandIn;
      DocsStandIn(ss, a, all[1..]);
      var (b, y) := OnAllDocs(ss, a, all[1..]);
      StandInConcat(ss, x, y, s.syntheticSent, a.syntheticSent, b.syntheticSent);
    }
  }

  lemma ItemStandsIn(ss: Session, s: Local, item: Item)
    ensures var (n, x) := OnItem(ss, s, item); OneStandIn(ss, x, s.syntheticSent, n.syntheticSent)
  {
    hide OnMsgs, OnAllDocs;
    if IsPayload(item) {
      var (a, x) := OnMsgs(ss, s, item.msgs);
      MsgsStandIn(ss, s, item.msgs);
      assert forall i :: 0 <= i < |x| ==> x[i] in x;
      assert OneStandIn(ss, x, s.syntheticSent, a.syntheticSent);
      DocsStandIn(ss, a, item.docs);
      var (b, y) := OnAllDocs(ss, a, item.docs);
      StandInConcat(ss, x, y, s.syntheticSent, a.syntheticSent, b.syntheticSent);
    }
  }

  /** In every stream at most one call stands for the retriever, right before the first documents announced under its id. */
  lemma {:induction false} RetrieverStandsInOnce(ss: Session, s: Local, items: seq<Item>) returns (now: bool)
    ensures OneStandIn(ss, Stream(ss, s, items), s.syntheticSent, now)
    decreases |items|
  {
    hide OnItem, OneStandIn;
    if |items| == 0 {
      now := s.syntheticSent;
      NoStandIn(ss, now);
    } else {
      var (n, x) := OnItem(ss, s, items[0]);
      ItemStandsIn(ss, s, items[0]);
      now := n.syntheticSent;
      if !Ends(items[0]) {
        now := RetrieverStandsInOnce(ss, n, items[1..]);
        StandInConcat(ss, x, Stream(ss, n, items[1..]), s.syntheticSent, n.syntheticSent, now);
      }
    }
  }

  lemma NoStandIn(ss: Session, sent: bool)
    ensures OneStandIn(ss, [], sent, sent)
  {
  }

  // ---------------------------------------------------------------- the retriever's documents

  /** The retriever's documents are announced at most once. */
  ghost predicate NodeDocsOnce(ss: Session, items: seq<Item>) {
    forall i, j :: 0 <= i < j < |Stream(ss, Start, items)| ==>
                     Stream(ss, Start, items)[i].origin != FromNode || Stream(ss, Start, items)[j].origin != FromNode
  }

  /** Exactly for a blank question some queue makes the stream announce the retriever's documents twice. */
  lemma NodeDocsOnceIff(ss: Session)
    requires IsFolding(ss.fold)
    ensures (forall items :: NodeDocsOnce(ss, items)) <==> !Blank(ss.message)
  {
    if Blank(ss.message) {
      BlankIff(ss.message, ss.fold);
      BlankRepeats(ss);
    } else {
      forall items ensures NodeDocsOnce(ss, items) {
        forall j | 0 <= j < |Stream(ss, Start, items)| && Stream(ss, Start, items)[j].origin == FromNode
          ensures forall i :: 0 <= i < j ==> Stream(ss, Start, items)[i].origin != FromNode
        {
          NodeDocsComeFirst(ss, items, j);
        }
      }
    }
  }

  lemma BlankRepeats(ss: Session)
    requires Normalise(ss.message, ss.fold) == ""
    ensures var items := [Chunk(false, None, None, [], [[1], [1]])]; !NodeDocsOnce(ss, items)
  {
    hide Normalise;
    var items := [Chunk(false, None, None, [], [[1], [1]])];
    var (a, x) := OnDocs(ss, Start, [1]);
    var (b, y) := OnDocs(ss, a, [1]);
    assert [[1], [1]][1..] == [[1]];
    assert OnAllDocs(ss, a, [[1]]).1 == y + [];
    assert OnAllDocs(ss, Start, [[1], [1]]).1 == x + (y + []);
    assert Stream(ss, Start, items) == [] + (x + (y + [])) + [];
    assert Stream(ss, Start, items)[1].origin == FromNode && Stream(ss, Start, items)[2].origin == FromNode;
  }

  // ---------------------------------------------------------------- how often a question is announced

  /** Documents announced under the id of a call. */
  datatype Shown = Shown(id: string, docs: seq<Doc>)

  /** An occasion to announce documents: a tool result with chunks for the question `key`, or documents of the node. */
  datatype Chance = ToolChance(key: string, shown: Shown) | NodeChance(shown: Shown)

  function RecordCalls(d: Dict, calls: seq<CallMade>): Dict
    decreases |calls|
  {
    if |calls| == 0 then d
    else
      var c := calls[0];
      RecordCalls(if c.id.Some? && c.name == "rag_query" then DictPut(d, c.id.value, c.query) else d, calls[1..])
  }

  /** The rag_query calls on record after a message. */
  function RecordMsg(d: Dict, m: StreamMsg): Dict {
    if m.ModelMsg? then RecordCalls(d, m.calls) else d
  }

  function MsgChances(ss: Session, d: Dict, msgs: seq<StreamMsg>): (Dict, seq<Chance>)
    decreases |msgs|
  {
    if |msgs| == 0 then (d, [])
    else
      var m := msgs[0];
      var (e, rest) := MsgChances(ss, RecordMsg(d, m), msgs[1..]);
      (e, OwnChance(ss, d, m) + rest)
  }

  /** A tool result with chunks is for the question that its call asked, if that is on record. */
  function OwnChance(ss: Session, d: Dict, m: StreamMsg): seq<Chance> {
    if m.ToolMsg? && m.chunks.Some? && m.callId != "" then
      var query := DictGet(d, m.callId);
      [ToolChance(if query.Some? then Normalise(query.value, ss.fold) else "", Shown(m.callId, m.chunks.value))]
    else []
  }

  /** The id for the node's documents: that of the last call on record that asked the user's question, if one did. */
  function NodeId(ss: Session, d: Dict): string {
    var wanted := Normalise(ss.message, ss.fold);
    var found := MatchingCall(ss, d, wanted);
    if wanted != "" && found.Some? then found.value else "rag-retriever"
  }

  function DocChances(id: string, all: seq<seq<Doc>>): seq<Chance> {
    if |all| == 0 then [] else (if all[0] != [] then [NodeChance(Shown(id, all[0]))] else []) + DocChances(id, all[1..])
  }

  /** What an item adds to the occasions. */
  function ItemChances(ss: Session, d: Dict, item: Item): (Dict, seq<Chance>) {
    if IsPayload(item) then
      var (e, c) := MsgChances(ss, d, item.msgs);
      (e, c + DocChances(NodeId(ss, e), item.docs))
    else (d, [])
  }

  /** The occasions that the queue brings before it ends, whatever has been announced already. */
  function Chances(ss: Session, d: Dict, items: seq<Item>): seq<Chance>
    decreases |items|
  {
    if |items| == 0 || Ends(items[0]) then []
    else
      var (e, c) := ItemChances(ss, d, items[0]);
      c + Chances(ss, e, items[1..])
  }

  /** `key` is the user's own question. */
  predicate Asked(ss: Session, key: string) {
    Normalise(ss.message, ss.fold) == key
  }

  /** What is announced for the question `key`; `asked` says that it is the user's own. */
  function Announcements(out: seq<Emission>, key: string, asked: bool): seq<Shown> {
    if |out| == 0 then [] else AnnouncedBy(out[0], key, asked) + Announcements(out[1..], key, asked)
  }

  function AnnouncedBy(e: Emission, key: string, asked: bool): seq<Shown> {
    if e.event.RetrievedDocs? && (e.origin == FromTool(key) || (asked && e.origin == FromNode))
    then [Shown(e.event.id, e.event.docs)] else []
  }

  /**
   Which of the occasions are used: every tool result, and the node's only if nothing was announced before, or the
   question is blank.
   */
  function Used(chances: seq<Chance>, key: string, asked: bool, seen: bool): seq<Shown> {
    if |chances| == 0 then []
    else if chances[0].ToolChance? && chances[0].key == key then [chances[0].shown] + Used(chances[1..], key, asked, key != "")
    else if chances[0].NodeChance? && asked && !seen then [chances[0].shown] + Used(chances[1..], key, asked, key != "")
    else Used(chances[1..], key, asked, seen)
  }

  /** The question has been announced. */
  predicate Seen(s: Local, key: string) {
    key != "" && key in s.emitted
  }

  lemma {:induction false} AnnouncementsConcat(a: seq<Emission>, b: seq<Emission>, key: string, asked: bool)
    ensures Announcements(a + b, key, asked) == Announcements(a, key, asked) + Announcements(b, key, asked)
  {
    hide AnnouncedBy;
    if |a| == 0 {
      assert a + b == b;
    } else {
      AnnouncementsConcat(a[1..], b, key, asked);
      assert (a + b)[1..] == a[1..] + b;
      assert AnnouncedBy(a[0], key, asked) + (Announcements(a[1..], key, asked) + Announcements(b, key, asked))
          == AnnouncedBy(a[0], key, asked) + Announcements(a[1..], key, asked) + Announcements(b, key, asked);
    }
  }

  lemma {:induction false} NoAnnouncement(out: seq<Emission>, key: string, asked: bool)
    requires forall i :: 0 <= i < |out| ==> out[i].origin == NoOrigin || out[i].origin == Placeholder
    ensures Announcements(out, key, asked) == []
  {
    if |out| > 0 {
      NoAnnouncement(out[1..], key, asked);
    }
  }

  lemma {:induction false} CallsRecord(s: Local, calls: seq<CallMade>)
    ensures var (n, x) := OnCalls(s, calls);
            && n.ragQueries == RecordCalls(s.ragQueries, calls) && n.emitted == s.emitted
            && forall i :: 0 <= i < |x| ==> x[i].origin == NoOrigin
    decreases |calls|
  {
    hide DictPut;
    if |calls| > 0 {
      CallsRecord(OnCall(s, calls[0]).0, calls[1..]);
    }
  }

  /** One message, with the occasions `more` still to come. */
  lemma MsgUses(ss: Session, s: Local, m: StreamMsg, key: string, asked: bool, more: seq<Chance>)
    ensures var (n, x) := OnMsg(ss, s, m);
            && n.ragQueries == RecordMsg(s.ragQueries, m)
            && Used(OwnChance(ss, s.ragQueries, m) + more, key, asked, Seen(s, key))
               == Announcements(x, key, asked) + Used(more, key, asked, Seen(n, key))
  {
    hide Normalise, Announcements;
    var (n, x) := OnMsg(ss, s, m);
    var own := OwnChance(ss, s.ragQueries, m);
    if m.ModelMsg? {
      CallsRecord(s, m.calls);
      hide OnCalls, RecordCalls;
      NoAnnouncement(x, key, asked);
      assert [] + more == more;
    } else if own != [] {
      LastAnnounces(x, key, asked);
      assert (own + more)[1..] == more;
    } else {
      NoAnnouncement(x, key, asked);
      assert [] + more == more;
    }
  }

  /** Only the last emission may announce anything. */
  lemma LastAnnounces(x: seq<Emission>, key: string, asked: bool)
    requires |x| > 0 && forall i :: 0 <= i < |x| - 1 ==> x[i].origin == NoOrigin || x[i].origin == Placeholder
    ensures Announcements(x, key, asked) == AnnouncedBy(x[|x| - 1], key, asked)
  {
    var last := x[|x| - 1];
    NoAnnouncement(x[..|x| - 1], key, asked);
    AnnouncementsConcat(x[..|x| - 1], [last], key, asked);
    assert x == x[..|x| - 1] + [last];
    assert [last][1..] == [];
  }

  lemma {:induction false} MsgsUse(ss: Session, s: Local, msgs: seq<StreamMsg>, key: string, asked: bool, more: seq<Chance>)
    ensures var (n, x) := OnMsgs(ss, s, msgs);
            var (e, own) := MsgChances(ss, s.ragQueries, msgs);
            && n.ragQueries == e
            && Used(own + more, key, asked, Seen(s, key))
               == Announcements(x, key, asked) + Used(more, key, asked, Seen(n, key))
    decreases |msgs|
  {
    hide OnMsg, RecordMsg, OwnChance, Used, Seen;
    if |msgs| == 0 {
      assert [] + more == more;
    } else {
      var m := msgs[0];
      var (a, x) := OnMsg(ss, s, m);
      var (e, rest) := MsgChances(ss, RecordMsg(s.ragQueries, m), msgs[1..]);
      var own := OwnChance(ss, s.ragQueries, m);
      MsgUses(ss, s, m, key, asked, rest + more);
      MsgsUse(ss, a, msgs[1..], key, asked, more);
      AnnouncementsConcat(x, OnMsgs(ss, a, msgs[1..]).1, key, asked);
      assert own + (rest + more) == (own + rest) + more;
    }
  }

  lemma DocsUse(ss: Session, s: Local, docs: seq<Doc>, key: string, more: seq<Chance>)
    ensures var (n, x) := OnDocs(ss, s, docs);
            var own := if docs != [] then [NodeChance(Shown(NodeId(ss, s.ragQueries), docs))] else [];
            && n.ragQueries == s.ragQueries
            && Used(own + more, key, Asked(ss, key), Seen(s, key))
               == Announcements(x, key, Asked(ss, key)) + Used(more, key, Asked(ss, key), Seen(n, key))
  {
    hide Normalise, MatchingCall, Announcements;
    var (n, x) := OnDocs(ss, s, docs);
    var asked := Asked(ss, key);
    var own := if docs != [] then [NodeChance(Shown(NodeId(ss, s.ragQueries), docs))] else [];
    if x == [] {
      NoAnnouncement(x, key, asked);
    } else {
      LastAnnounces(x, key, asked);
    }
    if docs == [] {
      assert own + more == more;
    } else {
      assert (own + more)[1..] == more;
    }
  }

  lemma {:induction false} AllDocsUse(ss: Session, s: Local, all: seq<seq<Doc>>, key: string, more: seq<Chance>)
    ensures var (n, x) := OnAllDocs(ss, s, all);
            && n.ragQueries == s.ragQueries
            && Used(DocChances(NodeId(ss, s.ragQueries), all) + more, key, Asked(ss, key), Seen(s, key))
               == Announcements(x, key, Asked(ss, key)) + Used(more, key, Asked(ss, key), Seen(n, key))
    decreases |all|
  {
    hide OnDocs, Used, Asked, Seen, NodeId;
    var id := NodeId(ss, s.ragQueries);
    if |all| == 0 {
      assert [] + more == more;
    } else {
      var (a, x) := OnDocs(ss, s, all[0]);
      var own := if all[0] != [] then [NodeChance(Shown(id, all[0]))] else [];
      DocsUse(ss, s, all[0], key, DocChances(id, all[1..]) + more);
      AllDocsUse(ss, a, all[1..], key, more);
      AnnouncementsConcat(x, OnAllDocs(ss, a, all[1..]).1, key, Asked(ss, key));
      assert own + (DocChances(id, all[1..]) + more) == (own + DocChances(id, all[1..])) + more;
    }
  }

  lemma ItemUses(ss: Session, s: Local, item: Item, key: string, more: seq<Chance>)
    ensures var (n, x) := OnItem(ss, s, item);
            var (e, c) := ItemChances(ss, s.ragQueries, item);
            && n.ragQueries == e
            && Used(c + more, key, Asked(ss, key), Seen(s, key))
               == Announcements(x, key, Asked(ss, key)) + Used(more, key, Asked(ss, key), Seen(n, key))
  {
    hide OnMsgs, OnAllDocs, Used, Asked, MsgChances, DocChances, NodeId;
    var (n, x) := OnItem(ss, s, item);
    if IsPayload(item) {
      var (a, y) := OnMsgs(ss, s, item.msgs);
      var (e, c) := MsgChances(ss, s.ragQueries, item.msgs);
      MsgsUse(ss, s, item.msgs, key, Asked(ss, key), DocChances(NodeId(ss, e), item.docs) + more);
      AllDocsUse(ss, a, item.docs, key, more);
      AnnouncementsConcat(y, OnAllDocs(ss, a, item.docs).1, key, Asked(ss, key));
      assert c + (DocChances(NodeId(ss, e), item.docs) + more) == (c + DocChances(NodeId(ss, e), item.docs)) + more;
    } else {
      NoAnnouncement(x, key, Asked(ss, key));
      assert [] + more == more;
    }
  }

  /** For every question and queue, the stream announces exactly the documents of the occasions used, in order. */
  lemma {:induction false} StreamUses(ss: Session, s: Local, items: seq<Item>, key: string)
    ensures Announcements(Stream(ss, s, items), key, Asked(ss, key))
         == Used(Chances(ss, s.ragQueries, items), key, Asked(ss, key), Seen(s, key))
    decreases |items|
  {
    hide OnItem, Used, Asked, ItemChances, Seen;
    if |items| == 0 {
      NothingUsed(key, Asked(ss, key), Seen(s, key));
    } else {
      var (n, x) := OnItem(ss, s, items[0]);
      if Ends(items[0]) {
        EndAnnouncesNothing(ss, s, items[0], key);
      } else {
        var rest := Chances(ss, n.ragQueries, items[1..]);
        ItemUses(ss, s, items[0], key, rest);
        StreamUses(ss, n, items[1..], key);
        AnnouncementsConcat(x, Stream(ss, n, items[1..]), key, Asked(ss, key));
      }
    }
  }

  lemma NothingUsed(key: string, asked: bool, seen: bool)
    ensures Used([], key, asked, seen) == []
  {
  }

  lemma EndAnnouncesNothing(ss: Session, s: Local, item: Item, key: string)
    requires Ends(item)
    ensures Announcements(OnItem(ss, s, item).1, key, Asked(ss, key)) == Used([], key, Asked(ss, key), Seen(s, key))
  {
    hide Asked;
    NoAnnouncement(OnItem(ss, s, item).1, key, Asked(ss, key));
  }

  /** Some tool result for the question comes after another occasion that announces it. */
  ghost predicate LaterToolChance(chances: seq<Chance>, key: string, asked: bool) {
    exists i, j :: 0 <= i < j < |chances| && ForTool(chances[j], key) && Announcing(chances[i], key, asked)
  }

  predicate ForTool(c: Chance, key: string) {
    c.ToolChance? && c.key == key
  }

  predicate Announcing(c: Chance, key: string, asked: bool) {
    ForTool(c, key) || (asked && c.NodeChance?)
  }

  ghost predicate HasToolChance(chances: seq<Chance>, key: string) {
    exists j :: 0 <= j < |chances| && ForTool(chances[j], key)
  }

  lemma HasToolCons(chances: seq<Chance>, key: string)
    requires |chances| > 0
    ensures HasToolChance(chances, key) <==> ForTool(chances[0], key) || HasToolChance(chances[1..], key)
  {
    var rest := chances[1..];
    assert forall k :: 0 <= k < |rest| ==> rest[k] == chances[k + 1];
    if j :| 0 < j < |chances| && ForTool(chances[j], key) {
      assert ForTool(rest[j - 1], key);
    }
  }

  lemma {:induction false} SeenUse(chances: seq<Chance>, key: string, asked: bool)
    requires key != ""
    ensures Used(chances, key, asked, true) == [] <==> !HasToolChance(chances, key)
  {
    if |chances| > 0 {
      SeenUse(chances[1..], key, asked);
      HasToolCons(chances, key);
      hide HasToolChance;
    }
  }

  lemma {:induction false} UsedOnceIff(chances: seq<Chance>, key: string, asked: bool)
    requires key != ""
    ensures |Used(chances, key, asked, false)| <= 1 <==> !LaterToolChance(chances, key, asked)
  {
    if |chances| > 0 {
      var rest := chances[1..];
      UsedOnceIff(rest, key, asked);
      SeenUse(rest, key, asked);
      LaterCons(chances, key, asked);
      hide LaterToolChance, HasToolChance;
    }
  }

  lemma LaterCons(chances: seq<Chance>, key: string, asked: bool)
    requires |chances| > 0
    ensures LaterToolChance(chances, key, asked) <==>
            || LaterToolChance(chances[1..], key, asked)
            || (Announcing(chances[0], key, asked) && HasToolChance(chances[1..], key))
  {
    hide Announcing, ForTool;
    var rest := chances[1..];
    assert forall k :: 0 <= k < |rest| ==> rest[k] == chances[k + 1];
    if LaterToolChance(chances, key, asked) {
      var i, j :| 0 <= i < j < |chances| && ForTool(chances[j], key) && Announcing(chances[i], key, asked);
      assert ForTool(rest[j - 1], key);
      assert i > 0 ==> Announcing(rest[i - 1], key, asked);
    }
    if LaterToolChance(rest, key, asked) {
      var i, j :| 0 <= i < j < |rest| && ForTool(rest[j], key) && Announcing(rest[i], key, asked);
      assert Announcing(chances[i + 1], key, asked) && ForTool(chances[j + 1], key);
    }
    if Announcing(chances[0], key, asked) && HasToolChance(rest, key) {
      var j :| 0 <= j < |rest| && ForTool(rest[j], key);
      assert ForTool(chances[j + 1], key);
    }
  }

  /**
   Every queue announces a question that is not blank at most once if and only if no tool result with chunks
   for it comes, before the queue ends, after another tool result for it or after documents of the node for it.
   */
  lemma AnnouncedOnceIff(ss: Session, items: seq<Item>, key: string)
    requires key != ""
    ensures |Announcements(Stream(ss, Start, items), key, Asked(ss, key))| <= 1 <==>
            !LaterToolChance(Chances(ss, [], items), key, Asked(ss, key))
  {
    hide Asked, Chances, Announcements, Used;
    StreamUses(ss, Start, items, key);
    UsedOnceIff(Chances(ss, [], items), key, Asked(ss, key));
  }

  /** Documents that tools found are not deduplicated: two calls with one question announce it twice. */
  lemma ToolDocsRepeat(ss: Session, question: string)
    ensures var call := (id: string) => ModelMsg("", [CallMade(Some(id), RAG_QUERY_TOOL, question)]);
            var result := (id: string) => ToolMsg(id, RAG_QUERY_TOOL, None, Some([1]));
            var items := [Chunk(false, None, None, [call("a"), result("a"), call("b"), result("b")], [])];
            var out := Stream(ss, Start, items);
            && |out| == 6 && out[2].event.RetrievedDocs? && out[5].event.RetrievedDocs?
            && out[2].origin == out[5].origin == FromTool(Normalise(question, ss.fold))
  {
    hide Normalise;
    var call := (id: string) => ModelMsg("", [CallMade(Some(id), RAG_QUERY_TOOL, question)]);
    var result := (id: string) => ToolMsg(id, RAG_QUERY_TOOL, None, Some([1]));
    CallAndResult(ss, Start, "a", question);
    var (s1, x) := OnMsgs(ss, Start, [call("a"), result("a")]);
    CallAndResult(ss, s1, "b", question);
    MsgsConcat(ss, Start, [call("a"), result("a")], [call("b"), result("b")]);
    assert [call("a"), result("a")] + [call("b"), result("b")] == [call("a"), result("a"), call("b"), result("b")];
  }

  lemma CallAndResult(ss: Session, s: Local, id: string, question: string)
    requires id != ""
    ensures var msgs := [ModelMsg("", [CallMade(Some(id), RAG_QUERY_TOOL, question)]), ToolMsg(id, RAG_QUERY_TOOL, None, Some([1]))];
            var out := OnMsgs(ss, s, msgs).1;
            |out| == 3 && out[2] == Emission(RetrievedDocs(id, [1]), FromTool(Normalise(question, ss.fold)))
  {
    hide Normalise;
    var c := CallMade(Some(id), RAG_QUERY_TOOL, question);
    var m := ToolMsg(id, RAG_QUERY_TOOL, None, Some([1]));
    assert [ModelMsg("", [c]), m][1..] == [m] && [m][1..] == [];
    var (a, x) := OnCall(s, c);
    assert [c][1..] == [];
    assert OnCalls(s, [c]) == (a, x + []);
    var (b, y) := OnToolMsg(ss, a, m);
    assert OnMsgs(ss, a, [m]) == (b, y + []);
    assert OnMsgs(ss, s, [ModelMsg("", [c]), m]).1 == ([] + (x + [])) + (y + []);
  }

  lemma {:induction false} MsgsConcat(ss: Session, s: Local, a: seq<StreamMsg>, b: seq<StreamMsg>)
    ensures var (m, x) := OnMsgs(ss, s, a); var (n, y) := OnMsgs(ss, m, b); OnMsgs(ss, s, a + b) == (n, x + y)
    decreases |a|
  {
    hide OnMsg;
    if |a| == 0 {
      assert a + b == b;
      var (n, y) := OnMsgs(ss, s, b);
      assert [] + y == y;
    } else {
      assert (a + b)[1..] == a[1..] + b;
      var (m, x) := OnMsg(ss, s, a[0]);
      MsgsConcat(ss, m, a[1..], b);
      var (m', x') := OnMsgs(ss, m, a[1..]);
      var (n, y) := OnMsgs(ss, m', b);
      assert x + (x' + y) == (x + x') + y;
    }
  }

  // ---------------------------------------------------------------- the generator

  /** `_matching_rag_call_id`: from the newest entry back. */
  method FindRagCallId(ss: Session, ragQueries: Dict, query: string) returns (r: Option<string>)
    ensures r == MatchingRagCallId(ss, ragQueries, query)
    ensures r.Some? ==> exists i :: LastToAsk(ss, ragQueries, Normalise(query, ss.fold), i) && ragQueries[i].0 == r.value
  {
    var wanted := Normalise(query, ss.fold);
    MatchingCallIsLast(ss, ragQueries, wanted);
    hide Normalise;
    if wanted == "" {
      return None;
    }
    var i := |ragQueries|;
    assert ragQueries[..i] == ragQueries;
    while i > 0
      invariant 0 <= i <= |ragQueries|
      invariant MatchingCall(ss, ragQueries[..i], wanted) == MatchingCall(ss, ragQueries, wanted)
    {
      assert ragQueries[..i][..i - 1] == ragQueries[..i - 1];
      i := i - 1;
      if Normalise(ragQueries[i].1, ss.fold) == wanted {
        return Some(ragQueries[i].0);
      }
    }
    r := None;
  }

  /** What has been yielded, and then the rest. */
  function Then(x: seq<Emission>, r: (Local, seq<Emission>)): (Local, seq<Emission>) {
    (r.0, x + r.1)
  }

  lemma CallsStep(s: Local, out: seq<Emission>, calls: seq<CallMade>, j: nat)
    requires j < |calls|
    ensures var (a, x) := OnCall(s, calls[j]);
            Then(out, OnCalls(s, calls[j..])) == Then(out + x, OnCalls(a, calls[j + 1..]))
  {
    var (a, x) := OnCall(s, calls[j]);
    assert calls[j..][1..] == calls[j + 1..];
    assert out + (x + OnCalls(a, calls[j + 1..]).1) == out + x + OnCalls(a, calls[j + 1..]).1;
  }

  /** The loop over the tool calls of a message. */
  method HandleCalls(local: Local, calls: seq<CallMade>) returns (s: Local, out: seq<Emission>)
    ensures (s, out) == OnCalls(local, calls)
  {
    s, out := local, [];
    assert calls[0..] == calls;
    assert [] + OnCalls(s, calls).1 == OnCalls(s, calls).1;
    for j := 0 to |calls|
      invariant Then(out, OnCalls(s, calls[j..])) == OnCalls(local, calls)
    {
      CallsStep(s, out, calls, j);
      var c := calls[j];
      if c.id.None? {
        assert out + [] == out;
        continue;
      }
      var name := OrUnknown(c.name);
      s := s.(toolNames := s.toolNames[c.id.value := name]);
      if name == RAG_QUERY_TOOL {
        s := s.(ragQueries := DictPut(s.ragQueries, c.id.value, c.query));
      }
      out := out + [Plain(ToolCall(c.id.value, name, c.query))];
    }
    assert out + [] == out;
  }

  lemma MsgsStep(ss: Session, s: Local, out: seq<Emission>, msgs: seq<StreamMsg>, i: nat)
    requires i < |msgs|
    ensures var (a, x) := OnMsg(ss, s, msgs[i]);
            Then(out, OnMsgs(ss, s, msgs[i..])) == Then(out + x, OnMsgs(ss, a, msgs[i + 1..]))
  {
    hide OnMsg;
    var (a, x) := OnMsg(ss, s, msgs[i]);
    assert msgs[i..][1..] == msgs[i + 1..];
    assert out + (x + OnMsgs(ss, a, msgs[i + 1..]).1) == out + x + OnMsgs(ss, a, msgs[i + 1..]).1;
  }

  /** What is yielded for one tool message. */
  method HandleToolMessage(ss: Session, local: Local, m: StreamMsg) returns (s: Local, out: seq<Emission>)
    requires m.ToolMsg?
    ensures (s, out) == OnToolMsg(ss, local, m)
  {
    hide Normalise;
    s, out := local, [];
    if m.artifact.Some? {
      out := out + [Plain(ArtifactReady(m.artifact.value))];
    }
    var name := m.name;
    if name == "" && m.callId in s.toolNames {
      name := s.toolNames[m.callId];
    }
    out := out + [Plain(ToolResult(m.callId, OrUnknown(name)))];
    if m.chunks.Some? && m.callId != "" {
      var answered := Key(ss, DictGet(s.ragQueries, m.callId));
      out := out + [Emission(RetrievedDocs(m.callId, m.chunks.value), FromTool(answered))];
      if answered != "" {
        s := s.(emitted := s.emitted + {answered});
      }
    }
    assert out == OnToolMsg(ss, local, m).1;
  }

  /** The loop over the messages of a chunk. */
  method HandleMessages(ss: Session, local: Local, msgs: seq<StreamMsg>) returns (s: Local, out: seq<Emission>)
    ensures (s, out) == OnMsgs(ss, local, msgs)
  {
    hide OnToolMsg, OnCalls;
    s, out := local, [];
    assert msgs[0..] == msgs;
    assert [] + OnMsgs(ss, s, msgs).1 == OnMsgs(ss, s, msgs).1;
    for i := 0 to |msgs|
      invariant Then(out, OnMsgs(ss, s, msgs[i..])) == OnMsgs(ss, local, msgs)
    {
      MsgsStep(ss, s, out, msgs, i);
      var m := msgs[i];
      var x: seq<Emission> := [];
      if m.ToolMsg? {
        s, x := HandleToolMessage(ss, s, m);
        out := out + x;
      } else {
        if m.content != "" {
          x := [Plain(Token(m.content))];
        }
        var y;
        s, y := HandleCalls(s, m.calls);
        out := out + (x + y);
      }
    }
    assert out + [] == out;
  }

  lemma DocsStep(ss: Session, s: Local, out: seq<Emission>, all: seq<seq<Doc>>, i: nat)
    requires i < |all|
    ensures var (a, x) := OnDocs(ss, s, all[i]);
            Then(out, OnAllDocs(ss, s, all[i..])) == Then(out + x, OnAllDocs(ss, a, all[i + 1..]))
  {
    hide OnDocs;
    var (a, x) := OnDocs(ss, s, all[i]);
    assert all[i..][1..] == all[i + 1..];
    assert out + (x + OnAllDocs(ss, a, all[i + 1..]).1) == out + x + OnAllDocs(ss, a, all[i + 1..]).1;
  }

  /** What is yielded for one list of documents that the retriever node found. */
  method HandleRetrieved(ss: Session, local: Local, docs: seq<Doc>) returns (s: Local, out: seq<Emission>)
    ensures (s, out) == OnDocs(ss, local, docs)
  {
    hide Normalise, LastToAsk;
    s, out := local, [];
    var key := Normalise(ss.message, ss.fold);
    if docs == [] || (key != "" && key in s.emitted) {
      return;
    }
    var id := FindRagCallId(ss, s.ragQueries, ss.message);
    var callId := RAG_RETRIEVER_TOOL_CALL_ID;
    if id.Some? {
      callId := id.value;
    } else if !s.syntheticSent {
      s := s.(syntheticSent := true);
      out := out + [Emission(ToolCall(callId, RAG_QUERY_TOOL, ss.message), Placeholder)];
    }
    if key != "" {
      s := s.(emitted := s.emitted + {key});
    }
    out := out + [Emission(RetrievedDocs(callId, docs), FromNode)];
    assert out == OnDocs(ss, local, docs).1;
  }

  /** The loop over the document lists of a chunk. */
  method HandleDocs(ss: Session, local: Local, all: seq<seq<Doc>>) returns (s: Local, out: seq<Emission>)
    ensures (s, out) == OnAllDocs(ss, local, all)
  {
    hide OnDocs;
    s, out := local, [];
    assert all[0..] == all;
    assert [] + OnAllDocs(ss, s, all).1 == OnAllDocs(ss, s, all).1;
    for i := 0 to |all|
      invariant Then(out, OnAllDocs(ss, s, all[i..])) == OnAllDocs(ss, local, all)
    {
      DocsStep(ss, s, out, all, i);
      var x;
      s, x := HandleRetrieved(ss, s, all[i]);
      out := out + x;
    }
    assert out + [] == out;
  }

  lemma StreamStep(ss: Session, s: Local, out: seq<Emission>, items: seq<Item>, i: nat)
    requires i < |items|
    ensures var (n, x) := OnItem(ss, s, items[i]);
            out + Stream(ss, s, items[i..]) ==
            if Ends(items[i]) then out + x else out + x + Stream(ss, n, items[i + 1..])
  {
  }

  /** What is yielded for one item of the queue; `last` says that it ends the stream. */
  method HandleItem(ss: Session, local: Local, item: Item) returns (s: Local, out: seq<Emission>, last: bool)
    ensures (s, out) == OnItem(ss, local, item) && last == Ends(item)
  {
    hide OnMsgs, OnAllDocs;
    s := local;
    match item
    case Idle =>
      return s, [Plain(KeepAlive)], false;
    case End(cancelled) =>
      return s, [Plain(if cancelled then CancelledEvent else Done)], true;
    case Chunk(metadata, error, cancelled, msgs, docs) =>
      if metadata {
        var first := !s.metadataSent;
        s := s.(metadataSent := true);
        return s, if first then [Plain(Metadata)] else [], false;
      }
      if error.Some? {
        return s, [Plain(ErrorEvent(error.value))], true;
      }
      if cancelled.Some? {
        return s, [Plain(CancelledEvent)], true;
      }
      var x, y;
      s, x := HandleMessages(ss, s, msgs);
      s, y := HandleDocs(ss, s, docs);
      return s, x + y, false;
  }

  /** `_stream_generator`; `items` is what the queue brings, one wait after the other. */
  method Generate(known: bool, ss: Session, items: seq<Item>) returns (out: seq<Emission>)
    ensures out == if known then Stream(ss, Start, items) else [Plain(ErrorEvent("Session not found"))]
  {
    hide OnItem, Ends;
    if !known {
      return [Plain(ErrorEvent("Session not found"))];
    }
    out := [];
    var s := Start;
    assert items[0..] == items;
    for i := 0 to |items|
      invariant out + Stream(ss, s, items[i..]) == Stream(ss, Start, items)
    {
      StreamStep(ss, s, out, items, i);
      var x, last;
      s, x, last := HandleItem(ss, s, items[i]);
      out := out + x;
      if last {
        return;
      }
    }
  }
}
