/**
 The agent's graph: planner, tool executor, RAG retriever and final answer.  Everything the graph
 cannot decide itself (the model's answers, tool outcomes, cancellation, the cycle monitor) is a
 stream of choices, so a statement about `Run` is a statement about every run.
 */
module AgentGraph {
  import opened Checkpoints
  import opened QueryText

  type CallId = nat

  /** A tool call; of its arguments only `query` is looked at here. */
  datatype ToolCall = ToolCall(id: CallId, name: string, query: Option<string>)

  /** What a tool message carries: an error, or a value that may be a list of chunks. */
  datatype Payload = Error | Value(hasChunks: bool)

  datatype Msg =
    | Human(text: Option<string>)                           // None: content that is not text
    | Assistant(content: string, calls: seq<ToolCall>)
    | ToolResult(callId: CallId, name: string, payload: Payload)

  datatype State = State(messages: seq<Msg>, iteration: nat, finalAnswer: Option<string>, docs: Option<nat>)

  datatype Node = Planner | ToolExecutor | RagRetriever | FinalAnswer

  /**
   `tools` are the known tool names; `triggered` is the trigger-word test; `routingPersists` says whether
   the graph library keeps what the routing function writes into the state it is given.
   */
  datatype Graph = Graph(
    maxIterations: int, tools: set<string>, hasRag: bool, triggered: string -> bool, fold: char -> string,
    routingPersists: bool)

  datatype ToolOutcome = Answered(hasChunks: bool) | ToolFailed | CancelledMeanwhile

  /** What happens around the i-th node execution. */
  datatype Choice = Choice(
    raises: bool,                                // cancelled on entry, or a cancelled or overdue model or retrieval call
    content: string, calls: seq<ToolCall>,       // what the model answers
    tool: nat -> ToolOutcome,                    // how each of the calls ends
    chunks: nat,
    cancelled: bool, cyclic: bool)               // what routing finds

  datatype Exit = Finished | Cancelled | Cycle | LimitReached | Raised

  datatype Next = Go(node: Node) | Stop(exit: Exit)

  const RAG_QUERY_TOOL := "rag_query"

  function Content(m: Msg): string {
    match m
    case Human(t) => if t.Some? then t.value else ""
    case Assistant(c, _) => c
    case ToolResult(_, _, _) => ""
  }

  function CallsOf(m: Msg): seq<ToolCall> {
    if m.Assistant? then m.calls else []
  }

  // ---------------------------------------------------------------- has this question been retrieved already

  /** The rag_query calls of one message recorded over the earlier ones, by id. */
  function WithCalls(args: map<CallId, Option<string>>, calls: seq<ToolCall>): map<CallId, Option<string>> {
    if |calls| == 0 then args
    else
      var r := WithCalls(args, calls[..|calls| - 1]);
      var tc := calls[|calls| - 1];
      if tc.name == RAG_QUERY_TOOL then r[tc.id := tc.query] else r
  }

  function ArgsByCallId(messages: seq<Msg>): map<CallId, Option<string>> {
    if |messages| == 0 then map[]
    else WithCalls(ArgsByCallId(messages[..|messages| - 1]), CallsOf(messages[|messages| - 1]))
  }

  /** The message brings chunks for a recorded call whose normalised query is `wanted`. */
  predicate Answers(m: Msg, args: map<CallId, Option<string>>, wanted: string, fold: char -> string) {
    && m.ToolResult? && m.callId in args
    && (if args[m.callId].Some? then Normalise(args[m.callId].value, fold) else "") == wanted
    && m.payload == Value(true)
  }

  predicate QueryAnswered(messages: seq<Msg>, query: string, fold: char -> string) {
    && Normalise(query, fold) != ""
    && exists i :: 0 <= i < |messages| &&
                   Answers(messages[i], ArgsByCallId(messages), Normalise(query, fold), fold)
  }

  /** `_rag_query_answered`: one loop collects the calls, the other looks for a result with chunks. */
  method RagQueryAnswered(messages: seq<Msg>, query: string, fold: char -> string) returns (r: bool)
    ensures r == QueryAnswered(messages, query, fold)
  {
    hide Normalise;
    var wanted := Normalise(query, fold);
    if wanted == "" {
      return false;
    }
    var args: map<CallId, Option<string>> := map[];
    for i := 0 to |messages|
      invariant args == ArgsByCallId(messages[..i])
    {
      var calls := CallsOf(messages[i]);
      ghost var before := args;
      for j := 0 to |calls|
        invariant args == WithCalls(before, calls[..j])
      {
        assert calls[..j + 1][..j] == calls[..j];
        if calls[j].name == RAG_QUERY_TOOL {
          args := args[calls[j].id := calls[j].query];
        }
      }
      assert calls[..|calls|] == calls;
      assert messages[..i + 1][..i] == messages[..i];
    }
    assert messages[..|messages|] == messages;
    if args == map[] {
      return false;
    }
    for i := 0 to |messages|
      invariant forall k :: 0 <= k < i ==> !Answers(messages[k], args, wanted, fold)
    {
      if Answers(messages[i], args, wanted, fold) {
        return true;
      }
    }
    r := false;
  }

  // ---------------------------------------------------------------- ids of calls and results

  /** Every tool call of the history, in order. */
  function AllCalls(messages: seq<Msg>): seq<ToolCall> {
    if |messages| == 0 then []
    else AllCalls(messages[..|messages| - 1]) + CallsOf(messages[|messages| - 1])
  }

  function CallIds(calls: seq<ToolCall>): (r: seq<CallId>)
    ensures |r| == |calls| && forall i :: 0 <= i < |calls| ==> r[i] == calls[i].id
  {
    if |calls| == 0 then [] else CallIds(calls[..|calls| - 1]) + [calls[|calls| - 1].id]
  }

  function ResultIds(messages: seq<Msg>): seq<CallId> {
    if |messages| == 0 then []
    else
      var m := messages[|messages| - 1];
      ResultIds(messages[..|messages| - 1]) + (if m.ToolResult? then [m.callId] else [])
  }

  lemma {:induction false} AllCallsConcat(a: seq<Msg>, b: seq<Msg>)
    ensures AllCalls(a + b) == AllCalls(a) + AllCalls(b)
  {
    if |b| == 0 {
      assert a + b == a;
    } else {
      AllCallsConcat(a, b[..|b| - 1]);
      assert (a + b)[..|a + b| - 1] == a + b[..|b| - 1];
    }
  }

  lemma {:induction false} ResultIdsConcat(a: seq<Msg>, b: seq<Msg>)
    ensures ResultIds(a + b) == ResultIds(a) + ResultIds(b)
  {
    if |b| == 0 {
      assert a + b == a;
    } else {
      ResultIdsConcat(a, b[..|b| - 1]);
      assert (a + b)[..|a + b| - 1] == a + b[..|b| - 1];
    }
  }

  lemma CallIdsConcat(a: seq<ToolCall>, b: seq<ToolCall>)
    ensures CallIds(a + b) == CallIds(a) + CallIds(b)
  {
  }

  ghost predicate DistinctIds(calls: seq<ToolCall>) {
    forall i, j :: 0 <= i < j < |calls| ==> calls[i].id != calls[j].id
  }

  lemma {:induction false} WithMoreCalls(args: map<CallId, Option<string>>, a: seq<ToolCall>, b: seq<ToolCall>)
    ensures WithCalls(args, a + b) == WithCalls(WithCalls(args, a), b)
  {
    if |b| == 0 {
      assert a + b == a;
    } else {
      WithMoreCalls(args, a, b[..|b| - 1]);
      assert (a + b)[..|a + b| - 1] == a + b[..|b| - 1];
    }
  }

  lemma {:induction false} ArgsAreAllCalls(messages: seq<Msg>)
    ensures ArgsByCallId(messages) == WithCalls(map[], AllCalls(messages))
  {
    if |messages| > 0 {
      ArgsAreAllCalls(messages[..|messages| - 1]);
      WithMoreCalls(map[], AllCalls(messages[..|messages| - 1]), CallsOf(messages[|messages| - 1]));
    }
  }

  lemma {:induction false} RecordedCalls(calls: seq<ToolCall>, id: CallId)
    requires DistinctIds(calls)
    ensures id in WithCalls(map[], calls) <==> exists q :: ToolCall(id, RAG_QUERY_TOOL, q) in calls
    ensures forall q :: ToolCall(id, RAG_QUERY_TOOL, q) in calls ==>
              id in WithCalls(map[], calls) && WithCalls(map[], calls)[id] == q
  {
    if |calls| > 0 {
      var n := |calls| - 1;
      RecordedCalls(calls[..n], id);
      assert calls == calls[..n] + [calls[n]];
      assert forall q :: ToolCall(id, RAG_QUERY_TOOL, q) in calls <==>
                         ToolCall(id, RAG_QUERY_TOOL, q) in calls[..n] || ToolCall(id, RAG_QUERY_TOOL, q) == calls[n];
      if calls[n].id == id {
        forall q ensures ToolCall(id, RAG_QUERY_TOOL, q) !in calls[..n] {
        }
      }
    }
  }

  /** A rag_query call for the same question has come back with chunks. */
  ghost predicate Retrieved(messages: seq<Msg>, query: string, fold: char -> string) {
    exists tc, name :: && tc in AllCalls(messages) && tc.name == "rag_query" && tc.query.Some?
                       && Normalise(tc.query.value, fold) == Normalise(query, fold)
                       && ToolResult(tc.id, name, Value(true)) in messages
  }

  /** With distinct call ids the guard says exactly that, except that a blank question is never answered. */
  lemma QueryAnsweredIff(messages: seq<Msg>, query: string, fold: char -> string)
    requires DistinctIds(AllCalls(messages)) && IsFolding(fold)
    ensures QueryAnswered(messages, query, fold) <==> !Blank(query) && Retrieved(messages, query, fold)
  {
    BlankIff(query, fold);
    ArgsAreAllCalls(messages);
    var args, wanted := ArgsByCallId(messages), Normalise(query, fold);
    if QueryAnswered(messages, query, fold) {
      var i :| 0 <= i < |messages| && Answers(messages[i], args, wanted, fold);
      RecordedCalls(AllCalls(messages), messages[i].callId);
      var q :| ToolCall(messages[i].callId, RAG_QUERY_TOOL, q) in AllCalls(messages);
      assert ToolResult(ToolCall(messages[i].callId, RAG_QUERY_TOOL, q).id, messages[i].name, Value(true)) in messages;
    }
    if !Blank(query) && Retrieved(messages, query, fold) {
      var tc, name :| && tc in AllCalls(messages) && tc.name == RAG_QUERY_TOOL && tc.query.Some?
                      && Normalise(tc.query.value, fold) == wanted
                      && ToolResult(tc.id, name, Value(true)) in messages;
      RecordedCalls(AllCalls(messages), tc.id);
      assert tc == ToolCall(tc.id, RAG_QUERY_TOOL, tc.query);
      var i :| 0 <= i < |messages| && messages[i] == ToolResult(tc.id, name, Value(true));
      assert Answers(messages[i], args, wanted, fold);
    }
  }

  // ---------------------------------------------------------------- the nodes

  /** The tool messages of the calls; None if cancellation strikes while a known tool runs. */
  function Results(calls: seq<ToolCall>, tools: set<string>, tool: nat -> ToolOutcome): Option<seq<Msg>> {
    if |calls| == 0 then Some([])
    else
      var n := |calls| - 1;
      var r := Results(calls[..n], tools, tool);
      if r.None? || (calls[n].name in tools && tool(n).CancelledMeanwhile?) then None
      else Some(r.value + [ToolResult(calls[n].id, calls[n].name, PayloadOf(calls[n], tools, tool(n)))])
  }

  /** An unknown or failing tool yields an error message for its own call only. */
  function PayloadOf(tc: ToolCall, tools: set<string>, o: ToolOutcome): Payload {
    if tc.name in tools && o.Answered? then Value(o.hasChunks) else Error
  }

  /** One message for each call, in order, none for another; there are none only if a known tool was cancelled. */
  lemma {:induction false} ResultsMatchCalls(calls: seq<ToolCall>, tools: set<string>, tool: nat -> ToolOutcome)
    ensures var r := Results(calls, tools, tool);
            && (r.None? <==> exists i :: 0 <= i < |calls| && calls[i].name in tools && tool(i).CancelledMeanwhile?)
            && (r.Some? ==> |r.value| == |calls| && forall i :: 0 <= i < |calls| ==>
                  r.value[i] == ToolResult(calls[i].id, calls[i].name, PayloadOf(calls[i], tools, tool(i))))
  {
    if |calls| > 0 {
      ResultsMatchCalls(calls[..|calls| - 1], tools, tool);
      assert calls == calls[..|calls| - 1] + [calls[|calls| - 1]];
    }
  }

  /** The dispatch loop of `_tool_executor_node`. */
  method ExecuteTools(calls: seq<ToolCall>, tools: set<string>, tool: nat -> ToolOutcome) returns (r: Option<seq<Msg>>)
    ensures r == Results(calls, tools, tool)
    ensures r.Some? ==> ResultIds(r.value) == CallIds(calls)
  {
    var results: seq<Msg> := [];
    for i := 0 to |calls|
      invariant Results(calls[..i], tools, tool) == Some(results)
      invariant ResultIds(results) == CallIds(calls[..i])
    {
      assert calls[..i + 1][..i] == calls[..i];
      var tc := calls[i];
      var payload := Error;
      if tc.name in tools {
        match tool(i) {
          case CancelledMeanwhile =>
            NoResults(calls, i, tools, tool);
            return None;
          case ToolFailed =>
          case Answered(hasChunks) => payload := Value(hasChunks);
        }
      }
      ResultIdsConcat(results, [ToolResult(tc.id, tc.name, payload)]);
      results := results + [ToolResult(tc.id, tc.name, payload)];
    }
    assert calls[..|calls|] == calls;
    r := Some(results);
  }

  lemma {:induction false} NoResults(calls: seq<ToolCall>, i: nat, tools: set<string>, tool: nat -> ToolOutcome)
    requires i < |calls| && calls[i].name in tools && tool(i).CancelledMeanwhile?
    ensures Results(calls, tools, tool).None?
  {
    ResultsMatchCalls(calls, tools, tool);
  }

  function LastHuman(messages: seq<Msg>): (r: Option<Msg>)
    ensures r.Some? ==> r.value.Human?
  {
    if |messages| == 0 then None
    else if messages[|messages| - 1].Human? then Some(messages[|messages| - 1])
    else LastHuman(messages[..|messages| - 1])
  }

  /** The rag_first heuristic: the last user message is text, has a trigger word and has not been retrieved for. */
  predicate WantsRag(g: Graph, messages: seq<Msg>) {
    var m := LastHuman(messages);
    && g.hasRag && m.Some? && m.value.text.Some? && g.triggered(m.value.text.value)
    && !QueryAnswered(messages, m.value.text.value, g.fold)
  }

  /** `route_after_planner` */
  function Route(g: Graph, s: State, c: Choice): Next {
    if c.cancelled then Stop(Cancelled)
    else if c.cyclic then Stop(Cycle)
    else if s.iteration >= g.maxIterations then Stop(LimitReached)
    else if g.tools != {} && |s.messages| > 0 && CallsOf(s.messages[|s.messages| - 1]) != [] then Go(ToolExecutor)
    else if WantsRag(g, s.messages) then Go(RagRetriever)
    else Go(FinalAnswer)
  }

  /** One node and the edge out of it. */
  function Exec(g: Graph, s: State, node: Node, c: Choice): (State, Next) {
    match node
    case Planner =>
      if c.raises then (s, Stop(Raised))
      else
        var n := s.(messages := s.messages + [Assistant(c.content, c.calls)], iteration := s.iteration + 1);
        var next := Route(g, n, c);
        (if next == Stop(Cycle) && g.routingPersists then n.(finalAnswer := Some(c.content)) else n, next)
    case ToolExecutor =>
      if c.raises then (s, Stop(Raised))
      else
        var calls := if |s.messages| == 0 then [] else CallsOf(s.messages[|s.messages| - 1]);
        var results := Results(calls, g.tools, c.tool);
        if results.None? then (s, Stop(Raised)) else (s.(messages := s.messages + results.value), Go(Planner))
    case RagRetriever =>
      if c.raises then (s, Stop(Raised))
      else (s.(docs := Some(if g.hasRag && LastHuman(s.messages).Some? then c.chunks else 0)), Go(FinalAnswer))
    case FinalAnswer =>
      (s.(finalAnswer := Some(if |s.messages| == 0 then "" else Content(s.messages[|s.messages| - 1]))), Stop(Finished))
  }

  // ---------------------------------------------------------------- runs

  /** A node execution and the state it starts from. */
  datatype Visit = Visit(node: Node, before: State)

  datatype Outcome = Outcome(visits: seq<Visit>, final: State, exit: Exit)

  function Left(g: Graph, s: State): nat {
    if s.iteration < g.maxIterations then g.maxIterations - s.iteration else 0
  }

  function Rank(node: Node): nat {
    match node case Planner => 2 case ToolExecutor => 3 case RagRetriever => 1 case FinalAnswer => 0
  }

  /** The whole run; it ends because every planner call spends an iteration. */
  function Run(g: Graph, env: nat -> Choice, s: State, node: Node, i: nat): Outcome
    decreases Left(g, s), Rank(node)
  {
    var (n, next) := Exec(g, s, node, env(i));
    match next
    case Stop(exit) => Outcome([Visit(node, s)], n, exit)
    case Go(node') =>
      var rest := Run(g, env, n, node', i + 1);
      rest.(visits := [Visit(node, s)] + rest.visits)
  }

  /** Node execution `k` of a run decides how it goes on. */
  lemma {:induction false} RunUnfolds(g: Graph, env: nat -> Choice, s: State, node: Node, i: nat, k: nat)
    requires k < |Run(g, env, s, node, i).visits|
    ensures var r := Run(g, env, s, node, i);
            var (n, next) := Exec(g, r.visits[k].before, r.visits[k].node, env(i + k));
            && r.visits[0] == Visit(node, s)
            && (if next.Go? then k + 1 < |r.visits| && r.visits[k + 1] == Visit(next.node, n)
                else k + 1 == |r.visits| && r.final == n && r.exit == next.exit)
    decreases Left(g, s), Rank(node)
  {
    hide WantsRag, Results;
    var (n, next) := Exec(g, s, node, env(i));
    if next.Go? {
      RunUnfolds(g, env, n, next.node, i + 1, if k == 0 then 0 else k - 1);
    }
  }

  /** How many nodes can still run. */
  function Budget(left: nat, node: Node): nat {
    match node
    case FinalAnswer => 1
    case RagRetriever => 2
    case Planner => if left <= 1 then 1 else 2 * left - 1
    case ToolExecutor => if left <= 1 then 2 else 2 * left
  }

  lemma {:induction false} RunWithinBudget(g: Graph, env: nat -> Choice, s: State, node: Node, i: nat)
    ensures 1 <= |Run(g, env, s, node, i).visits| <= Budget(Left(g, s), node)
    decreases Left(g, s), Rank(node)
  {
    hide WantsRag, Results;
    var (n, next) := Exec(g, s, node, env(i));
    if next.Go? {
      RunWithinBudget(g, env, n, next.node, i + 1);
    }
  }

  /** Every run from iteration 0 ends after at most max(1, 2 * max_iterations - 1) node executions. */
  lemma RunsAreShort(g: Graph, env: nat -> Choice, s: State)
    requires s.iteration == 0
    ensures var n := |Run(g, env, s, Planner, 0).visits|;
            n <= 1 || n <= 2 * g.maxIterations - 1
  {
    RunWithinBudget(g, env, s, Planner, 0);
  }

  /** A model that calls one working tool every time. */
  function Busy(name: string): nat -> Choice {
    (i: nat) => Choice(false, "", [ToolCall(i, name, None)], _ => Answered(false), 0, false, false)
  }

  /** The bound is reached: such a model uses up every execution and is stopped by the limit. */
  lemma {:induction false} BoundIsReached(g: Graph, name: string, s: State, i: nat)
    requires name in g.tools && s.iteration < g.maxIterations
    ensures var r := Run(g, Busy(name), s, Planner, i);
            |r.visits| == 2 * (g.maxIterations - s.iteration) - 1 && r.exit.LimitReached?
    decreases g.maxIterations - s.iteration
  {
    var env := Busy(name);
    var (n, next) := Exec(g, s, Planner, env(i));
    if s.iteration + 1 < g.maxIterations {
      ResultsMatchCalls(CallsOf(n.messages[|n.messages| - 1]), g.tools, env(i + 1).tool);
      var (m, again) := Exec(g, n, ToolExecutor, env(i + 1));
      BoundIsReached(g, name, m, i + 2);
      assert Run(g, env, n, ToolExecutor, i + 1).visits == [Visit(ToolExecutor, n)] + Run(g, env, m, Planner, i + 2).visits;
    }
  }

  /** The retriever runs last but for the final answer, so at most once and with no planner after it. */
  lemma {:induction false} RetrieverIsLast(g: Graph, env: nat -> Choice, s: State, node: Node, i: nat, k: nat)
    requires k < |Run(g, env, s, node, i).visits| && Run(g, env, s, node, i).visits[k].node.RagRetriever?
    ensures var r := Run(g, env, s, node, i);
            || (k == |r.visits| - 1 && r.exit.Raised?)
            || (k == |r.visits| - 2 && r.visits[k + 1].node.FinalAnswer? && r.exit.Finished?)
    decreases Left(g, s), Rank(node)
  {
    hide WantsRag, Results;
    var (n, next) := Exec(g, s, node, env(i));
    if next.Go? && k > 0 {
      RetrieverIsLast(g, env, n, next.node, i + 1, k - 1);
    }
  }

  lemma RetrieverRunsOnce(g: Graph, env: nat -> Choice, s: State, j: nat, k: nat)
    requires j < k < |Run(g, env, s, Planner, 0).visits|
    requires Run(g, env, s, Planner, 0).visits[j].node.RagRetriever?
    ensures Run(g, env, s, Planner, 0).visits[k].node.FinalAnswer?
  {
    hide Run, Exec;
    RetrieverIsLast(g, env, s, Planner, 0, j);
  }

  /** It runs only for a last user text that asks for retrieval and that no rag_query call has answered. */
  lemma {:induction false} RetrieverIsNeeded(g: Graph, env: nat -> Choice, s: State, node: Node, i: nat, k: nat)
    requires k < |Run(g, env, s, node, i).visits| && Run(g, env, s, node, i).visits[k].node.RagRetriever?
    requires node.RagRetriever? ==> WantsRag(g, s.messages)
    ensures WantsRag(g, Run(g, env, s, node, i).visits[k].before.messages)
    decreases Left(g, s), Rank(node)
  {
    hide WantsRag, Results;
    var (n, next) := Exec(g, s, node, env(i));
    if next.Go? && k > 0 {
      RetrieverIsNeeded(g, env, n, next.node, i + 1, k - 1);
    }
  }

  /** Message `j` is the last of the user, has a trigger word, and no rag_query call has answered it yet. */
  ghost predicate AsksForRetrieval(g: Graph, messages: seq<Msg>, j: int) {
    && 0 <= j < |messages| && messages[j].Human? && (forall i :: j < i < |messages| ==> !messages[i].Human?)
    && messages[j].text.Some? && g.triggered(messages[j].text.value)
    && !(!Blank(messages[j].text.value) && Retrieved(messages, messages[j].text.value, g.fold))
  }

  lemma {:induction false} LastHumanIs(messages: seq<Msg>)
    ensures var m := LastHuman(messages);
            && (m.None? ==> forall i :: 0 <= i < |messages| ==> !messages[i].Human?)
            && (m.Some? ==> exists j :: 0 <= j < |messages| && messages[j] == m.value
                                        && forall i :: j < i < |messages| ==> !messages[i].Human?)
  {
    if |messages| > 0 && !messages[|messages| - 1].Human? {
      var rest := messages[..|messages| - 1];
      LastHumanIs(rest);
      assert forall i :: 0 <= i < |rest| ==> rest[i] == messages[i];
    }
  }

  lemma WantsRagIff(g: Graph, messages: seq<Msg>)
    requires DistinctIds(AllCalls(messages)) && IsFolding(g.fold)
    ensures WantsRag(g, messages) <==> g.hasRag && exists j :: AsksForRetrieval(g, messages, j)
  {
    hide Retrieved, QueryAnswered, Blank, AllCalls, IsFolding;
    LastHumanIs(messages);
    var m := LastHuman(messages);
    if m.Some? {
      var j :| 0 <= j < |messages| && messages[j] == m.value && forall i :: j < i < |messages| ==> !messages[i].Human?;
      if m.value.text.Some? {
        QueryAnsweredIff(messages, m.value.text.value, g.fold);
      }
      assert forall i :: AsksForRetrieval(g, messages, i) ==> i == j;
      assert g.hasRag ==> (WantsRag(g, messages) <==> AsksForRetrieval(g, messages, j));
    }
  }

  /**
   Where every planner execution leads: it appends the model's answer and spends an iteration; unless routing
   ends the run, calls go to the tools if the graph has any, and otherwise the retriever runs if and only if the
   graph has one and the user's last text asks for it.
   */
  lemma PlannerLeadsTo(g: Graph, env: nat -> Choice, s: State, k: nat)
    requires k < |Run(g, env, s, Planner, 0).visits| && Run(g, env, s, Planner, 0).visits[k].node.Planner?
    requires var b := Run(g, env, s, Planner, 0).visits[k].before;
             && !env(k).raises && !env(k).cancelled && !env(k).cyclic && b.iteration + 1 < g.maxIterations
             && DistinctIds(AllCalls(b.messages + [Assistant(env(k).content, env(k).calls)])) && IsFolding(g.fold)
    ensures var visits := Run(g, env, s, Planner, 0).visits;
            var b := visits[k].before;
            var messages := b.messages + [Assistant(env(k).content, env(k).calls)];
            && k + 1 < |visits|
            && visits[k + 1].before == State(messages, b.iteration + 1, b.finalAnswer, b.docs)
            && (visits[k + 1].node == ToolExecutor <==> g.tools != {} && env(k).calls != [])
            && (g.tools == {} || env(k).calls == [] ==>
                  (visits[k + 1].node == RagRetriever <==> g.hasRag && exists j :: AsksForRetrieval(g, messages, j)) &&
                  (visits[k + 1].node == RagRetriever || visits[k + 1].node == FinalAnswer))
  {
    hide Run, Exec, WantsRag, AsksForRetrieval, DistinctIds, AllCalls, IsFolding;
    var b := Run(g, env, s, Planner, 0).visits[k].before;
    RunUnfolds(g, env, s, Planner, 0, k);
    PlannerStep(g, b, env(k));
    WantsRagIff(g, b.messages + [Assistant(env(k).content, env(k).calls)]);
  }

  lemma PlannerStep(g: Graph, b: State, c: Choice)
    requires !c.raises && !c.cancelled && !c.cyclic && b.iteration + 1 < g.maxIterations
    ensures var messages := b.messages + [Assistant(c.content, c.calls)];
            Exec(g, b, Planner, c) ==
            (State(messages, b.iteration + 1, b.finalAnswer, b.docs),
             Go(if g.tools != {} && c.calls != [] then ToolExecutor else if WantsRag(g, messages) then RagRetriever else FinalAnswer))
  {
    hide WantsRag;
  }

  /** `after` is `before` with one message for each call, in order; an unknown or failing tool answers with an error. */
  ghost predicate GotResults(
    before: seq<Msg>, calls: seq<ToolCall>, after: seq<Msg>, tools: set<string>, tool: nat -> ToolOutcome)
  {
    && |after| == |before| + |calls| && before <= after
    && (forall i :: 0 <= i < |calls| ==>
          after[|before| + i] == ToolResult(calls[i].id, calls[i].name,
                                            if calls[i].name in tools && tool(i).Answered? then Value(tool(i).hasChunks) else Error))
  }

  lemma ToolStep(g: Graph, b: State, c: Choice)
    requires |b.messages| > 0 && !c.raises
    ensures var (n, next) := Exec(g, b, ToolExecutor, c);
            var calls := CallsOf(b.messages[|b.messages| - 1]);
            if exists i :: 0 <= i < |calls| && calls[i].name in g.tools && c.tool(i) == CancelledMeanwhile
            then n == b && next == Stop(Raised)
            else n == b.(messages := n.messages) && next == Go(Planner) && GotResults(b.messages, calls, n.messages, g.tools, c.tool)
  {
    ResultsMatchCalls(CallsOf(b.messages[|b.messages| - 1]), g.tools, c.tool);
    hide Results;
  }

  /** Every tool execution answers the calls of the last message and goes back to the planner, unless a known tool is cancelled. */
  lemma ToolsLeadTo(g: Graph, env: nat -> Choice, s: State, k: nat)
    requires k < |Run(g, env, s, Planner, 0).visits| && Run(g, env, s, Planner, 0).visits[k].node.ToolExecutor?
    requires |Run(g, env, s, Planner, 0).visits[k].before.messages| > 0 && !env(k).raises
    ensures var r := Run(g, env, s, Planner, 0);
            var b := r.visits[k].before;
            var calls := CallsOf(b.messages[|b.messages| - 1]);
            if exists i :: 0 <= i < |calls| && calls[i].name in g.tools && env(k).tool(i) == CancelledMeanwhile
            then r.exit == Raised && r.final == b
            else
              && k + 1 < |r.visits| && r.visits[k + 1].node == Planner
              && var n := r.visits[k + 1].before;
                 n == b.(messages := n.messages) && GotResults(b.messages, calls, n.messages, g.tools, env(k).tool)
  {
    hide Run, Exec, GotResults;
    RunUnfolds(g, env, s, Planner, 0, k);
    ToolStep(g, Run(g, env, s, Planner, 0).visits[k].before, env(k));
  }

  /** A node other than the final answer that raises ends the run and leaves the state as it was. */
  lemma RaisingEndsTheRun(g: Graph, env: nat -> Choice, s: State, k: nat)
    requires k < |Run(g, env, s, Planner, 0).visits| && env(k).raises
    requires Run(g, env, s, Planner, 0).visits[k].node != FinalAnswer
    ensures var r := Run(g, env, s, Planner, 0);
            k == |r.visits| - 1 && r.exit == Raised && r.final == r.visits[k].before
  {
    RunUnfolds(g, env, s, Planner, 0, k);
    hide Run, WantsRag, Results;
  }

  /** A run that finishes has the retriever's documents if it ran, and those it started with otherwise. */
  lemma FinishedDocs(g: Graph, env: nat -> Choice, s: State)
    requires Run(g, env, s, Planner, 0).exit.Finished?
    ensures var r := Run(g, env, s, Planner, 0);
            var n := |r.visits|;
            r.final.docs == if n > 1 && r.visits[n - 2].node == RagRetriever then Some(env(n - 2).chunks) else s.docs
  {
    hide Run, Exec, WantsRag;
    var r := Run(g, env, s, Planner, 0);
    var n := |r.visits|;
    RunWithinBudget(g, env, s, Planner, 0);
    RunUnfolds(g, env, s, Planner, 0, n - 1);
    FinishedStep(g, r.visits[n - 1].before, r.visits[n - 1].node, env(n - 1));
    if n > 1 && r.visits[n - 2].node == RagRetriever {
      RunUnfolds(g, env, s, Planner, 0, n - 2);
      RetrieverIsNeeded(g, env, s, Planner, 0, n - 2);
      RetrieverStep(g, r.visits[n - 2].before, env(n - 2));
    } else {
      DocsAsBefore(g, env, s, n - 1);
    }
  }

  lemma FinishedStep(g: Graph, s: State, node: Node, c: Choice)
    requires Exec(g, s, node, c).1 == Stop(Finished)
    ensures node == FinalAnswer && Exec(g, s, node, c).0.docs == s.docs
  {
  }

  lemma RetrieverStep(g: Graph, s: State, c: Choice)
    requires WantsRag(g, s.messages) && Exec(g, s, RagRetriever, c).1.Go?
    ensures Exec(g, s, RagRetriever, c).0.docs == Some(c.chunks)
  {
  }

  /** Until the retriever has run the documents are those the run started with. */
  lemma {:induction false} DocsAsBefore(g: Graph, env: nat -> Choice, s: State, k: nat)
    requires k < |Run(g, env, s, Planner, 0).visits|
    requires k == 0 || Run(g, env, s, Planner, 0).visits[k - 1].node != RagRetriever
    ensures Run(g, env, s, Planner, 0).visits[k].before.docs == s.docs
    decreases k
  {
    hide WantsRag, Results, Route;
    if k == 0 {
      RunUnfolds(g, env, s, Planner, 0, 0);
    } else {
      if k > 1 && Run(g, env, s, Planner, 0).visits[k - 2].node == RagRetriever {
        RetrieverRunsOnce(g, env, s, k - 2, k - 1);
        RetrieverIsLast(g, env, s, Planner, 0, k - 2);
      } else {
        DocsAsBefore(g, env, s, k - 1);
      }
      RunUnfolds(g, env, s, Planner, 0, k - 1);
    }
  }

  // ---------------------------------------------------------------- every call is answered exactly once

  /** The calls of the last message, if the run wrote it. */
  function Pending(start: seq<Msg>, messages: seq<Msg>): seq<ToolCall> {
    if |messages| <= |start| then [] else CallsOf(messages[|messages| - 1])
  }

  /** Apart from those, results and calls balance, relative to the history the run began with. */
  ghost predicate Balanced(start: seq<Msg>, messages: seq<Msg>) {
    && start <= messages
    && multiset(ResultIds(messages)) + multiset(CallIds(AllCalls(start))) + multiset(CallIds(Pending(start, messages)))
       == multiset(ResultIds(start)) + multiset(CallIds(AllCalls(messages)))
  }

  /** What holds when a node starts. */
  ghost predicate ReadyFor(start: seq<Msg>, s: State, node: Node) {
    && Balanced(start, s.messages)
    && (if node.Planner? then Pending(start, s.messages) == [] else |s.messages| > |start|)
    && (node.ToolExecutor? ==> Pending(start, s.messages) != [])
  }

  lemma AppendAssistant(start: seq<Msg>, messages: seq<Msg>, m: Msg)
    requires Balanced(start, messages) && Pending(start, messages) == [] && m.Assistant?
    ensures Balanced(start, messages + [m]) && Pending(start, messages + [m]) == m.calls
  {
    AppendedCalls(messages, m);
    CallIdsConcat(AllCalls(messages), m.calls);
    NoCallIds();
    hide AllCalls, ResultIds, CallIds;
    AddBoth(multiset(ResultIds(messages)) + multiset(CallIds(AllCalls(start))), multiset(ResultIds(start)),
            CallIds(AllCalls(messages)), CallIds(m.calls));
  }

  lemma AddBoth(left: multiset<CallId>, right: multiset<CallId>, ids: seq<CallId>, more: seq<CallId>)
    requires left + multiset([]) == right + multiset(ids)
    ensures left + multiset(more) == right + multiset(ids + more)
  {
    assert left + multiset([]) == left;
    assert multiset(ids + more) == multiset(ids) + multiset(more);
  }

  lemma NoCallIds()
    ensures CallIds([]) == []
  {
  }

  lemma AppendedCalls(messages: seq<Msg>, m: Msg)
    requires m.Assistant?
    ensures AllCalls(messages + [m]) == AllCalls(messages) + m.calls && ResultIds(messages + [m]) == ResultIds(messages)
  {
  }

  lemma AppendResults(start: seq<Msg>, messages: seq<Msg>, results: seq<Msg>)
    requires Balanced(start, messages) && Pending(start, messages) != []
    requires ResultIds(results) == CallIds(Pending(start, messages)) && forall m :: m in results ==> m.ToolResult?
    ensures Balanced(start, messages + results) && Pending(start, messages + results) == []
  {
    AllCallsConcat(messages, results);
    NoCalls(results);
    ResultIdsConcat(messages, results);
    NothingPending(start, messages, results);
    hide AllCalls, ResultIds, CallIds, Pending;
    assert AllCalls(messages + results) == AllCalls(messages);
    assert start <= messages + results;
    assert CallIds([]) == [] by { NoCallIds(); }
  }

  lemma NothingPending(start: seq<Msg>, messages: seq<Msg>, results: seq<Msg>)
    requires start <= messages && Pending(start, messages) != []
    requires ResultIds(results) == CallIds(Pending(start, messages)) && forall m :: m in results ==> m.ToolResult?
    ensures Pending(start, messages + results) == []
  {
  }

  lemma {:induction false} NoCalls(results: seq<Msg>)
    requires forall m :: m in results ==> m.ToolResult?
    ensures AllCalls(results) == []
  {
    if |results| > 0 {
      NoCalls(results[..|results| - 1]);
      assert results[|results| - 1] in results;
    }
  }

  lemma {:induction false} ResultsAnswer(calls: seq<ToolCall>, tools: set<string>, tool: nat -> ToolOutcome)
    requires Results(calls, tools, tool).Some?
    ensures ResultIds(Results(calls, tools, tool).value) == CallIds(calls)
    ensures forall m :: m in Results(calls, tools, tool).value ==> m.ToolResult?
  {
    if |calls| > 0 {
      var n := |calls| - 1;
      ResultsAnswer(calls[..n], tools, tool);
      var r, q := Results(calls, tools, tool).value, Results(calls[..n], tools, tool).value;
      assert r[..|r| - 1] == q;
    }
  }

  lemma ToolsBalance(start: seq<Msg>, g: Graph, s: State, c: Choice)
    requires ReadyFor(start, s, ToolExecutor)
    ensures var (n, next) := Exec(g, s, ToolExecutor, c);
            Balanced(start, n.messages) && (next.Go? ==> next.node.Planner? && Pending(start, n.messages) == [])
  {
    hide Balanced, Run, Route;
    var calls := Pending(start, s.messages);
    if !c.raises && Results(calls, g.tools, c.tool).Some? {
      ResultsAnswer(calls, g.tools, c.tool);
      AppendResults(start, s.messages, Results(calls, g.tools, c.tool).value);
    }
  }

  lemma PlannerBalances(start: seq<Msg>, g: Graph, s: State, c: Choice)
    requires ReadyFor(start, s, Planner)
    ensures var (n, next) := Exec(g, s, Planner, c);
            && Balanced(start, n.messages)
            && (next.Go? ==> !next.node.Planner? && ReadyFor(start, n, next.node))
  {
    if !c.raises {
      AppendAssistant(start, s.messages, Assistant(c.content, c.calls));
      assert |s.messages| >= |start|;
    }
    hide Balanced, WantsRag;
  }

  /** Every node leaves calls and results balanced for the next, also when the run stops there. */
  lemma ExecBalances(start: seq<Msg>, g: Graph, s: State, node: Node, c: Choice)
    requires ReadyFor(start, s, node)
    ensures var (n, next) := Exec(g, s, node, c);
            Balanced(start, n.messages) && (next.Go? ==> ReadyFor(start, n, next.node))
  {
    hide Balanced, Pending, Route, Results;
    match node
    case Planner => PlannerBalances(start, g, s, c);
    case ToolExecutor => ToolsBalance(start, g, s, c);
    case _ =>
  }

  lemma {:induction false} RunBalances(
    start: seq<Msg>, g: Graph, env: nat -> Choice, s: State, node: Node, i: nat, k: nat)
    requires ReadyFor(start, s, node) && k < |Run(g, env, s, node, i).visits|
    ensures var r := Run(g, env, s, node, i);
            ReadyFor(start, r.visits[k].before, r.visits[k].node) && Balanced(start, r.final.messages)
    decreases Left(g, s), Rank(node)
  {
    hide Balanced, Pending, Results, WantsRag, AllCalls, CallIds;
    ExecBalances(start, g, s, node, env(i));
    var (n, next) := Exec(g, s, node, env(i));
    if next.Go? {
      RunWithinBudget(g, env, n, next.node, i + 1);
      RunBalances(start, g, env, n, next.node, i + 1, if k == 0 then 0 else k - 1);
    }
  }

  /** The history is answered: every call in it has exactly one result. */
  ghost predicate AllAnswered(messages: seq<Msg>) {
    forall id :: id in CallIds(AllCalls(messages)) ==> multiset(ResultIds(messages))[id] == 1
  }

  /** Ids are distinct, and the start history has no result that answers a call made only later. */
  ghost predicate FreshIds(start: seq<Msg>, messages: seq<Msg>) {
    && DistinctIds(AllCalls(messages))
    && forall id :: id in CallIds(AllCalls(messages)) && id !in CallIds(AllCalls(start)) ==> id !in ResultIds(start)
  }

  lemma {:induction false} OccursOnce(calls: seq<ToolCall>, id: CallId)
    requires DistinctIds(calls)
    ensures multiset(CallIds(calls))[id] == if id in CallIds(calls) then 1 else 0
  {
    if |calls| > 0 {
      var n := |calls| - 1;
      OccursOnce(calls[..n], id);
      assert CallIds(calls) == CallIds(calls[..n]) + [calls[n].id];
      if id in CallIds(calls[..n]) {
        var j :| 0 <= j < n && CallIds(calls[..n])[j] == id;
        assert calls[j].id == id;
      }
    }
  }

  lemma PrefixCalls(start: seq<Msg>, messages: seq<Msg>)
    requires start <= messages
    ensures AllCalls(start) <= AllCalls(messages)
  {
    assert messages == start + messages[|start|..];
    AllCallsConcat(start, messages[|start|..]);
  }

  /** From an answered history, exactly the pending calls lack their one result. */
  lemma BalancedIsAnswered(start: seq<Msg>, messages: seq<Msg>, id: CallId)
    requires AllAnswered(start) && Balanced(start, messages) && FreshIds(start, messages)
    requires id in CallIds(AllCalls(messages)) && DistinctIds(Pending(start, messages))
    ensures multiset(ResultIds(messages))[id] == if id in CallIds(Pending(start, messages)) then 0 else 1
  {
    PrefixCalls(start, messages);
    OccursOnce(AllCalls(messages), id);
    OccursOnce(AllCalls(start), id);
    OccursOnce(Pending(start, messages), id);
    var total := multiset(ResultIds(messages)) + multiset(CallIds(AllCalls(start))) + multiset(CallIds(Pending(start, messages)));
    assert total[id] == (multiset(ResultIds(start)) + multiset(CallIds(AllCalls(messages))))[id];
  }

  lemma {:induction false} PendingIsDistinct(start: seq<Msg>, messages: seq<Msg>)
    requires DistinctIds(AllCalls(messages))
    ensures DistinctIds(Pending(start, messages))
  {
    if |messages| > 0 {
      var calls, rest := CallsOf(messages[|messages| - 1]), AllCalls(messages[..|messages| - 1]);
      forall i, j | 0 <= i < j < |calls| ensures calls[i].id != calls[j].id {
        assert AllCalls(messages)[|rest| + i] == calls[i] && AllCalls(messages)[|rest| + j] == calls[j];
      }
    }
  }

  /** At each planner entry of every run every earlier tool call has exactly one result with its id. */
  lemma PlannerSeesEveryCallAnswered(g: Graph, env: nat -> Choice, s: State, k: nat)
    requires AllAnswered(s.messages) && k < |Run(g, env, s, Planner, 0).visits|
    requires Run(g, env, s, Planner, 0).visits[k].node.Planner?
    requires FreshIds(s.messages, Run(g, env, s, Planner, 0).visits[k].before.messages)
    ensures AllAnswered(Run(g, env, s, Planner, 0).visits[k].before.messages)
  {
    var messages := Run(g, env, s, Planner, 0).visits[k].before.messages;
    RunBalances(s.messages, g, env, s, Planner, 0, k);
    forall id | id in CallIds(AllCalls(messages)) ensures multiset(ResultIds(messages))[id] == 1 {
      BalancedIsAnswered(s.messages, messages, id);
    }
  }

  lemma AnsweredIffNothingPending(start: seq<Msg>, messages: seq<Msg>)
    requires AllAnswered(start) && Balanced(start, messages) && FreshIds(start, messages)
    ensures AllAnswered(messages) <==> Pending(start, messages) == []
  {
    var pending := Pending(start, messages);
    PendingIsDistinct(start, messages);
    forall id | id in CallIds(AllCalls(messages))
      ensures multiset(ResultIds(messages))[id] == if id in CallIds(pending) then 0 else 1
    {
      BalancedIsAnswered(start, messages, id);
    }
    if pending != [] {
      PendingIsCalled(start, messages);
    }
    hide Balanced, FreshIds, AllCalls, Pending, ResultIds;
  }

  lemma PendingIsCalled(start: seq<Msg>, messages: seq<Msg>)
    requires Pending(start, messages) != []
    ensures Pending(start, messages)[0].id in CallIds(AllCalls(messages))
    ensures Pending(start, messages)[0].id in CallIds(Pending(start, messages))
  {
    var calls := AllCalls(messages);
    var k := |calls| - |Pending(start, messages)|;
    assert calls[k] == Pending(start, messages)[0];
    assert CallIds(calls)[k] == calls[k].id;
    assert CallIds(Pending(start, messages))[0] == calls[k].id;
  }

  /** However the run ends, it leaves calls unanswered exactly if its last message makes calls. */
  lemma UnansweredAtTheEndIff(g: Graph, env: nat -> Choice, s: State)
    requires AllAnswered(s.messages) && FreshIds(s.messages, Run(g, env, s, Planner, 0).final.messages)
    ensures var messages := Run(g, env, s, Planner, 0).final.messages;
            AllAnswered(messages) <==> Pending(s.messages, messages) == []
  {
    RunWithinBudget(g, env, s, Planner, 0);
    RunBalances(s.messages, g, env, s, Planner, 0, 0);
    hide AllAnswered, Balanced, Run, FreshIds, Pending;
    AnsweredIffNothingPending(s.messages, Run(g, env, s, Planner, 0).final.messages);
  }

  // ---------------------------------------------------------------- how a run can end

  lemma RouteMeaning(g: Graph, s: State, c: Choice)
    requires !c.raises
    ensures var next := Exec(g, s, Planner, c).1;
            && (next.Go? ==> s.iteration + 1 < g.maxIterations)
            && (next == Stop(LimitReached) ==> s.iteration + 1 >= g.maxIterations)
            && next != Stop(Finished) && next != Stop(Raised)
  {
  }

  /** What each exit says about the final state. */
  lemma {:induction false} ExitMeaning(g: Graph, env: nat -> Choice, s: State, node: Node, i: nat)
    requires node.FinalAnswer? || node.RagRetriever? ==> |s.messages| > 0 && s.iteration < g.maxIterations
    ensures var r := Run(g, env, s, node, i);
            && s.messages <= r.final.messages && s.iteration <= r.final.iteration
            && |r.visits| > 0
            && (r.exit.Finished? <==> r.visits[|r.visits| - 1].node.FinalAnswer?)
            && (r.exit.Finished? ==> r.final.iteration < g.maxIterations)
            && (r.exit.LimitReached? ==> r.final.iteration >= g.maxIterations)
            && (if r.exit.Finished? || (r.exit.Cycle? && g.routingPersists)
                then |r.final.messages| > 0 && r.final.finalAnswer == Some(Content(r.final.messages[|r.final.messages| - 1]))
                else r.final.finalAnswer == s.finalAnswer)
    decreases Left(g, s), Rank(node)
  {
    hide WantsRag, Results, Route, CallsOf;
    if !env(i).raises {
      RouteMeaning(g, s, env(i));
    }
    var (n, next) := Exec(g, s, node, env(i));
    if next.Go? {
      ExitMeaning(g, env, n, next.node, i + 1);
    }
  }

  /** Which choice ended the run: cancellation is looked at first, then the cycle monitor, then the limit. */
  lemma {:induction false} ExitCause(g: Graph, env: nat -> Choice, s: State, node: Node, i: nat)
    ensures var r := Run(g, env, s, node, i);
            var c, last := env(i + |r.visits| - 1), r.visits[|r.visits| - 1].node;
            var routed := last.Planner? && !c.raises;
            && (r.exit.Cancelled? <==> routed && c.cancelled)
            && (r.exit.Cycle? <==> routed && !c.cancelled && c.cyclic)
            && (r.exit.LimitReached? <==> routed && !c.cancelled && !c.cyclic && r.final.iteration >= g.maxIterations)
            && (last.FinalAnswer? <==> r.exit.Finished?)
    decreases Left(g, s), Rank(node)
  {
    hide WantsRag, Results;
    var (n, next) := Exec(g, s, node, env(i));
    if next.Go? {
      ExitCause(g, env, n, next.node, i + 1);
    }
  }

  /** With at most one iteration left to spend, no run reaches the final-answer node. */
  lemma OneIterationNeverAnswers(g: Graph, env: nat -> Choice, s: State)
    requires g.maxIterations <= s.iteration + 1
    ensures |Run(g, env, s, Planner, 0).visits| == 1 && !Run(g, env, s, Planner, 0).exit.Finished?
  {
  }
}
