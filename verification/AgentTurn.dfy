/** One turn of the agent: ProcessMessage and ProcessMessageStream of `src/core/agent_loop.cpp`. */
module AgentTurn {
  import opened Text
  import opened DagTurns
  import ToolResult

  // The provider, the tools, the failover resolver, the stop flag and the exceptions that nothing in the turn catches
  // are oracles (`World`). The bound on provider calls takes the number of times the resolver names another provider
  // as a hypothesis about it. The turn writes to the DAG log as module DagTurns says.

  const OVERFLOW_RETRIES: nat := 3
  const TRANSIENT_RETRIES: nat := 4
  const RESULT_MAX_CHARS: nat := 30000
  const RESULT_KEEP_LINES: nat := 20

  datatype ToolCall = ToolCall(id: string, name: string, arguments: string)

  datatype Block =
    | TextBlock(text: string)
    | ToolUse(id: string, name: string, input: string)
    | ToolResultBlock(toolUseId: string, content: string)

  datatype Message = Message(role: string, content: seq<Block>)

  datatype ErrorKind =
    RateLimit | Transient | Timeout | Unknown | AuthError | BillingError | ModelNotFound | ContextOverflow

  predicate IsRetryable(kind: ErrorKind) {
    kind.RateLimit? || kind.Transient? || kind.Timeout? || kind.Unknown?
  }

  /** What a call of the provider comes to. `seen` are the tool calls that had been logged when it broke
      off; an exception that is no provider error may come before or after the answer was logged. */
  datatype Outcome =
    | Answered(content: string, reasoning: string, toolCalls: seq<ToolCall>)
    | Failed(kind: ErrorKind, seen: seq<ToolCall>)
    | Crashed(answered: bool, seen: seq<ToolCall>)

  /** Whether a turn gets as far as its loop, or an exception comes before: its first node cannot be
      written, no provider be resolved, or no context be assembled. */
  datatype Preparation = Ready | NoStart | NoProvider | NoContext

  datatype ToolOutcome = Result(text: string) | JsonError(what: string) | Error(what: string)

  /** The surroundings of a turn: whether it can be prepared, the outcome of the k-th provider call,
      whether the resolver names another provider after it, what the j-th tool call of the k-th answer comes
      to, the id of the k-th log entry, and how the k-th reading of the stop flag comes out: other turns of
      the same agent loop raise and lower it. `opens` says whether the k-th round gets to its provider call,
      and `recovers` whether the handler of an exception of that call comes through; where they do not, an
      exception leaves the turn that nothing in it catches. */
  datatype World = World(preparation: Preparation, provider: nat -> Outcome, failover: nat -> bool,
                         tool: (nat, nat, ToolCall) -> ToolOutcome, node: nat -> string, stop: nat -> bool,
                         opens: nat -> bool, recovers: nat -> bool)
  {
    ghost predicate Names() {
      forall k :: node(k) != ""
    }
  }

  // ---------------------------------------------------------------- the log of the turn

  datatype Turn = Turn(entries: seq<Entry>, state: TurnState)

  ghost predicate Open(t: Turn) {
    OpenChain(t.entries, t.state.turn, t.state.lastNode)
  }

  function Emit(t: Turn, w: World, kind: string): Turn {
    var node := w.node(|t.entries|);
    Turn(t.entries + EmitEntries(t.state, node, kind), t.state.(lastNode := node))
  }

  function Finish(t: Turn, status: string): Turn {
    t.(entries := t.entries + [End(t.state.turn, status)])
  }

  /** The kinds of the nodes, in order. */
  function Kinds(entries: seq<Entry>): seq<string> {
    if entries == [] then []
    else
      var n := |entries| - 1;
      Kinds(entries[..n]) + if entries[n].Node? then [entries[n].kind] else []
  }

  lemma Emitted(t: Turn, w: World, kind: string)
    ensures Open(t) && w.Names() ==> Open(Emit(t, w, kind))
    ensures Emit(t, w, kind).state.turn == t.state.turn
    ensures Kinds(Emit(t, w, kind).entries) == Kinds(t.entries) + [kind]
  {
    hide OpenChain, Kinds;
    var node, all := w.node(|t.entries|), Emit(t, w, kind).entries;
    if Open(t) && w.Names() {
      OpenNext(t.entries, t.state, node, kind);
    }
    var one := t.entries + [Node(t.state.turn, node, kind)];
    KindsAdded(t.entries, Node(t.state.turn, node, kind));
    if t.state.lastNode != "" {
      KindsAdded(one, Edge(t.state.turn, t.state.lastNode, node));
      assert all == one + [Edge(t.state.turn, t.state.lastNode, node)];
    } else {
      assert all == one;
    }
  }

  lemma KindsAdded(entries: seq<Entry>, e: Entry)
    ensures Kinds(entries + [e]) == Kinds(entries) + if e.Node? then [e.kind] else []
  {
    assert (entries + [e])[..|entries|] == entries;
  }

  function Copies(n: nat, kind: string): (kinds: seq<string>)
    ensures |kinds| == n && forall i :: 0 <= i < n ==> kinds[i] == kind
  {
    seq(n, _ => kind)
  }

  /** The turn is going on, is `turn`, and has logged nodes of these kinds. */
  ghost predicate Logged(t: Turn, turn: string, kinds: seq<string>) {
    Open(t) && t.state.turn == turn && Kinds(t.entries) == kinds
  }

  lemma FinishCloses(t: Turn, status: string)
    requires Open(t)
    ensures ClosedChain(Finish(t, status).entries, t.state.turn)
    ensures Last(Finish(t, status).entries) == End(t.state.turn, status)
    ensures Kinds(Finish(t, status).entries) == Kinds(t.entries)
  {
    var entries := Finish(t, status).entries;
    assert entries[..|entries| - 1] == t.entries;
  }

  /** One node more. */
  method EmitOne(w: World, t0: Turn, kind: string) returns (t: Turn)
    requires Open(t0) && w.Names()
    ensures Logged(t, t0.state.turn, Kinds(t0.entries) + [kind])
  {
    hide OpenChain, Emit, Kinds;
    Emitted(t0, w, kind);
    t := Emit(t0, w, kind);
  }

  /** One node for every tool call. */
  method EmitAll(w: World, t0: Turn, n: nat, kind: string) returns (t: Turn)
    requires Open(t0) && w.Names()
    ensures Logged(t, t0.state.turn, Kinds(t0.entries) + Copies(n, kind))
  {
    hide OpenChain, Emit, Kinds;
    t := t0;
    for i := 0 to n
      invariant Logged(t, t0.state.turn, Kinds(t0.entries) + Copies(i, kind))
    {
      t := EmitOne(w, t, kind);
      assert Copies(i + 1, kind) == Copies(i, kind) + [kind];
    }
  }

  method BeginTurn(w: World, session: string, turn: string) returns (t: Turn)
    requires turn != "" && w.Names()
    ensures Logged(t, turn, ["turn_start"])
  {
    var node := w.node(1);
    t := Turn(BeginEntries(session, turn, node), TurnState(turn, node));
    assert t.entries[..1] == [Begin(turn, session)];
    assert Kinds([Begin(turn, session)]) == [];
  }

  // ---------------------------------------------------------------- what a turn says

  /** The text handle_tool_calls puts down for a call, whatever the tool does. */
  function ResultText(o: ToolOutcome): string {
    match o
    case Result(text) => text
    case JsonError(what) => "JSON serialization error: " + what
    case Error(what) => "Error executing tool: " + what
  }

  /** What stands in the message for a call: shortened. The streaming form shortens results only, and
      words errors otherwise. */
  function ToolText(o: ToolOutcome, stream: bool): string {
    if !stream then ToolResult.Truncated(ResultText(o), RESULT_MAX_CHARS, RESULT_KEEP_LINES)
    else match o
      case Result(text) => ToolResult.Truncated(text, RESULT_MAX_CHARS, RESULT_KEEP_LINES)
      case JsonError(what) => "JSON serialization error: " + what
      case Error(what) => "Error: " + what
  }

  function UseBlocks(calls: seq<ToolCall>): (blocks: seq<Block>)
    ensures |blocks| == |calls|
  {
    seq(|calls|, i requires 0 <= i < |calls| => ToolUse(calls[i].id, calls[i].name, calls[i].arguments))
  }

  function TextOf(text: string): seq<Block> {
    if text != "" then [TextBlock(text)] else []
  }

  function AssistantMessage(text: string, calls: seq<ToolCall>): Message {
    Message("assistant", TextOf(text) + UseBlocks(calls))
  }

  /** The message with the results of the tool calls of the k-th answer. */
  function ResultsMessage(w: World, k: nat, calls: seq<ToolCall>, stream: bool): Message {
    Message("user", seq(|calls|, i requires 0 <= i < |calls| =>
                                   ToolResultBlock(calls[i].id, ToolText(w.tool(k, i, calls[i]), stream))))
  }

  predicate UsesTools(o: Outcome) {
    o.Answered? && o.toolCalls != []
  }

  /** What the first n provider calls leave in the messages of the turn: a pair for each answer that
      uses tools, and nothing for any other. */
  function Dialogue(w: World, n: nat, stream: bool): seq<Message> {
    if n == 0 then []
    else
      var o, before := w.provider(n - 1), Dialogue(w, n - 1, stream);
      if UsesTools(o) then
        before + [AssistantMessage(o.content, o.toolCalls), ResultsMessage(w, n - 1, o.toolCalls, stream)]
      else before
  }

  /** How many of the first n provider calls used tools. */
  function Rounds(w: World, n: nat): nat {
    if n == 0 then 0 else Rounds(w, n - 1) + if UsesTools(w.provider(n - 1)) then 1 else 0
  }

  function Says(text: string): Message {
    Message("assistant", [TextBlock(text)])
  }

  // ---------------------------------------------------------------- pairing

  /** The tool calls of a message, in order. */
  function UseIds(blocks: seq<Block>): seq<string> {
    if blocks == [] then []
    else
      var n := |blocks| - 1;
      UseIds(blocks[..n]) + if blocks[n].ToolUse? then [blocks[n].id] else []
  }

  /** A message that answers exactly these calls: one result for each, at the same position. */
  predicate Answers(m: Message, ids: seq<string>) {
    && m.role == "user" && |m.content| == |ids|
    && forall i :: 0 <= i < |ids| ==> m.content[i].ToolResultBlock? && m.content[i].toolUseId == ids[i]
  }

  predicate HasResult(m: Message) {
    exists i :: 0 <= i < |m.content| && m.content[i].ToolResultBlock?
  }

  /** The tool calls of the i-th message are answered by the next one. */
  predicate CallsAnswered(messages: seq<Message>, i: nat)
    requires i < |messages|
  {
    UseIds(messages[i].content) != [] ==>
      i + 1 < |messages| && messages[i].role == "assistant" && Answers(messages[i + 1], UseIds(messages[i].content))
  }

  /** Results in the i-th message answer calls of the one before. */
  predicate ResultsAsked(messages: seq<Message>, i: nat)
    requires i < |messages|
  {
    HasResult(messages[i]) ==>
      i > 0 && UseIds(messages[i - 1].content) != [] && Answers(messages[i], UseIds(messages[i - 1].content))
  }

  /** Every tool call is answered in the next message, at the same position and under the same id, and
      no result stands anywhere else. */
  ghost predicate Paired(messages: seq<Message>) {
    forall i :: 0 <= i < |messages| ==> CallsAnswered(messages, i) && ResultsAsked(messages, i)
  }

  lemma {:induction false} NoUses(blocks: seq<Block>)
    requires forall b :: b in blocks ==> !b.ToolUse?
    ensures UseIds(blocks) == []
  {
    if blocks == [] {
    } else {
      assert blocks[|blocks| - 1] in blocks;
      NoUses(blocks[..|blocks| - 1]);
    }
  }

  /** The calls of an assistant message are the calls of the answer, in order. */
  lemma {:induction false} UseIdsOf(calls: seq<ToolCall>, text: string)
    ensures |UseIds(TextOf(text) + UseBlocks(calls))| == |calls|
    ensures forall i :: 0 <= i < |calls| ==> UseIds(TextOf(text) + UseBlocks(calls))[i] == calls[i].id
  {
    hide UseIds;
    var front := TextOf(text);
    if calls == [] {
      assert front + UseBlocks(calls) == front;
      NoUses(front);
    } else {
      var n := |calls| - 1;
      UseIdsOf(calls[..n], text);
      var last := ToolUse(calls[n].id, calls[n].name, calls[n].arguments);
      assert front + UseBlocks(calls) == (front + UseBlocks(calls[..n])) + [last];
      UseIdsNext(front + UseBlocks(calls[..n]), last);
    }
  }

  lemma UseIdsNext(blocks: seq<Block>, last: Block)
    ensures UseIds(blocks + [last]) == UseIds(blocks) + if last.ToolUse? then [last.id] else []
  {
    assert (blocks + [last])[..|blocks|] == blocks;
  }

  lemma PairAnswers(w: World, k: nat, text: string, calls: seq<ToolCall>, stream: bool)
    requires calls != []
    ensures UseIds(AssistantMessage(text, calls).content) != []
    ensures AssistantMessage(text, calls).role == "assistant" && !HasResult(AssistantMessage(text, calls))
    ensures Answers(ResultsMessage(w, k, calls, stream), UseIds(AssistantMessage(text, calls).content))
    ensures UseIds(ResultsMessage(w, k, calls, stream).content) == []
  {
    UseIdsOf(calls, text);
    NoUses(ResultsMessage(w, k, calls, stream).content);
  }

  lemma PairAdded(messages: seq<Message>, a: Message, results: Message)
    requires Paired(messages)
    requires a.role == "assistant" && !HasResult(a) && UseIds(a.content) != []
    requires Answers(results, UseIds(a.content)) && UseIds(results.content) == []
    ensures Paired(messages + [a, results])
  {
    hide UseIds, HasResult, Answers;
    var all, n := messages + [a, results], |messages|;
    assert all[n] == a && all[n + 1] == results;
    forall i | 0 <= i < |all| ensures CallsAnswered(all, i) && ResultsAsked(all, i) {
      if i < n {
        EarlierKeep(messages, all, i);
      }
    }
  }

  lemma EarlierKeep(messages: seq<Message>, all: seq<Message>, i: nat)
    ensures i < |messages| && messages <= all && CallsAnswered(messages, i) && ResultsAsked(messages, i) ==>
              CallsAnswered(all, i) && ResultsAsked(all, i)
  {
  }

  lemma NothingPaired()
    ensures Paired([])
  {
  }

  lemma TextAdded(messages: seq<Message>, text: string)
    requires Paired(messages)
    ensures Paired(messages + [Says(text)])
  {
    NoUses(Says(text).content);
    assert !HasResult(Says(text));
    var all, n := messages + [Says(text)], |messages|;
    hide UseIds, HasResult, Answers;
    forall i | 0 <= i < |all| ensures CallsAnswered(all, i) && ResultsAsked(all, i) {
      if i < n {
        EarlierKeep(messages, all, i);
      }
    }
  }

  /** However the provider and the tools behave, the messages of a turn are paired, at every point and
      with any closing text. */
  lemma {:induction false} DialogueIsPaired(w: World, n: nat, stream: bool)
    ensures Paired(Dialogue(w, n, stream))
    ensures |Dialogue(w, n, stream)| == 2 * Rounds(w, n)
  {
    hide Paired, UseIds, HasResult, Answers, AssistantMessage, ResultsMessage;
    NothingPaired();
    if n == 0 {
    } else {
      DialogueIsPaired(w, n - 1, stream);
      var o := w.provider(n - 1);
      if UsesTools(o) {
        PairAnswers(w, n - 1, o.content, o.toolCalls, stream);
        PairAdded(Dialogue(w, n - 1, stream), AssistantMessage(o.content, o.toolCalls),
                  ResultsMessage(w, n - 1, o.toolCalls, stream));
      }
    }
  }

  // ---------------------------------------------------------------- tools

  method HandleToolCalls(w: World, k: nat, calls: seq<ToolCall>) returns (results: seq<string>)
    ensures |results| == |calls|
    ensures forall i :: 0 <= i < |calls| ==>
              match w.tool(k, i, calls[i])
              case Result(text) => results[i] == text
              case JsonError(what) => results[i] == "JSON serialization error: " + what
              case Error(what) => results[i] == "Error executing tool: " + what
    ensures forall i :: 0 <= i < |calls| ==> results[i] == ResultText(w.tool(k, i, calls[i]))
  {
    results := [];
    for i := 0 to |calls|
      invariant |results| == i
      invariant forall j :: 0 <= j < i ==> results[j] == ResultText(w.tool(k, j, calls[j]))
    {
      var words;
      match w.tool(k, i, calls[i]) {
        case Result(text) => words := text;
        case JsonError(what) => words := "JSON serialization error: " + what;
        case Error(what) => words := "Error executing tool: " + what;
      }
      results := results + [words];
    }
  }

  /** The rest of a round of ProcessMessage: the tools run, their results are shortened, and the pair of
      messages is put together. */
  method RunTools(w: World, k: nat, t0: Turn, text: string, calls: seq<ToolCall>)
    returns (t: Turn, pair: seq<Message>)
    requires Open(t0) && w.Names()
    ensures Logged(t, t0.state.turn, Kinds(t0.entries) + Copies(|calls|, "tool_result"))
    ensures pair == [AssistantMessage(text, calls), ResultsMessage(w, k, calls, false)]
  {
    hide OpenChain, Kinds, ToolResult.Truncated;
    var results := HandleToolCalls(w, k, calls);
    t := t0;
    var content: seq<Block> := [];
    for i := 0 to |calls|
      invariant Logged(t, t0.state.turn, Kinds(t0.entries) + Copies(i, "tool_result"))
      invariant |content| == i
      invariant forall j :: 0 <= j < i ==>
                  content[j] == ToolResultBlock(calls[j].id, ToolText(w.tool(k, j, calls[j]), false))
    {
      var short := ToolResult.TruncateToolResult(results[i], RESULT_MAX_CHARS, RESULT_KEEP_LINES);
      t := EmitOne(w, t, "tool_result");
      assert Copies(i + 1, "tool_result") == Copies(i, "tool_result") + ["tool_result"];
      content := content + [ToolResultBlock(calls[i].id, short)];
    }
    assert content == ResultsMessage(w, k, calls, false).content;
    pair := [AssistantMessage(text, calls), Message("user", content)];
  }

  /** The same of ProcessMessageStream, where tool after tool runs and is put down. */
  method RunToolsStream(w: World, k: nat, t0: Turn, text: string, calls: seq<ToolCall>)
    returns (t: Turn, pair: seq<Message>)
    requires Open(t0) && w.Names()
    ensures Logged(t, t0.state.turn, Kinds(t0.entries) + Copies(|calls|, "tool_result"))
    ensures pair == [AssistantMessage(text, calls), ResultsMessage(w, k, calls, true)]
  {
    hide OpenChain, Kinds, ToolResult.Truncated;
    t := t0;
    var content: seq<Block> := [];
    for i := 0 to |calls|
      invariant Logged(t, t0.state.turn, Kinds(t0.entries) + Copies(i, "tool_result"))
      invariant |content| == i
      invariant forall j :: 0 <= j < i ==>
                  content[j] == ToolResultBlock(calls[j].id, ToolText(w.tool(k, j, calls[j]), true))
    {
      var words;
      match w.tool(k, i, calls[i]) {
        case Result(text) => words := ToolResult.TruncateToolResult(text, RESULT_MAX_CHARS, RESULT_KEEP_LINES);
        case JsonError(what) => words := "JSON serialization error: " + what;
        case Error(what) => words := "Error: " + what;
      }
      t := EmitOne(w, t, "tool_result");
      assert Copies(i + 1, "tool_result") == Copies(i, "tool_result") + ["tool_result"];
      content := content + [ToolResultBlock(calls[i].id, words)];
    }
    assert content == ResultsMessage(w, k, calls, true).content;
    pair := [AssistantMessage(text, calls), Message("user", content)];
  }

  // ---------------------------------------------------------------- errors and retries

  predicate Overflows(o: Outcome) {
    o.Failed? && o.kind.ContextOverflow?
  }

  /** How many of the first n provider calls overflowed the context. */
  function Compactions(w: World, n: nat): nat {
    if n == 0 then 0 else Compactions(w, n - 1) + if Overflows(w.provider(n - 1)) then 1 else 0
  }

  /** How many of them failed otherwise and were sent to another provider. */
  function Switches(w: World, n: nat): nat {
    if n == 0 then 0
    else
      var o := w.provider(n - 1);
      Switches(w, n - 1) + if o.Failed? && !Overflows(o) && w.failover(n - 1) then 1 else 0
  }

  /** How many of them failed otherwise with no other provider at hand. One that is not retryable counts
      too, but ends the turn. */
  function Retries(w: World, n: nat): nat {
    if n == 0 then 0
    else
      var o := w.provider(n - 1);
      Retries(w, n - 1) + if o.Failed? && !Overflows(o) && !w.failover(n - 1) then 1 else 0
  }

  /** Whether the turn goes on after the k-th call: it used tools, or failed in a way that is tried again and
      the handler came through. An overflow is never sent to another provider, and any other error is before
      it costs a retry. */
  predicate GoesOn(w: World, k: nat) {
    match w.provider(k)
    case Answered(_, _, toolCalls) => toolCalls != []
    case Failed(kind, _) =>
      && w.recovers(k)
      && if kind.ContextOverflow? then Compactions(w, k) < OVERFLOW_RETRIES
         else w.failover(k) || (IsRetryable(kind) && Retries(w, k) < TRANSIENT_RETRIES)
    case Crashed(_, _) => false
  }

  /** The counters of a turn's loop. */
  datatype Counters = Counters(iterations: nat, overflows: nat, transients: nat)

  predicate Counted(c: Counters, w: World, n: nat) {
    c == Counters(Rounds(w, n), Compactions(w, n), Retries(w, n))
  }

  /** handle_provider_error after the k-th call. An exception out of compacting or resolving is an answer of
      false here, and shows as such in `recovers`. */
  method HandleProviderError(w: World, k: nat, t0: Turn, c0: Counters) returns (goOn: bool, t: Turn, c: Counters)
    requires Open(t0) && w.Names() && w.provider(k).Failed? && Counted(c0, w, k)
    ensures goOn <==> GoesOn(w, k)
    ensures goOn ==> Counted(c, w, k + 1)
    ensures Logged(t, t0.state.turn, AfterError(Kinds(t0.entries), w, k))
    ensures var kind := w.provider(k).kind;
            if kind == ContextOverflow then
              && (goOn <==> w.recovers(k) && c0.overflows < 3)
              && (goOn ==> c == c0.(overflows := c0.overflows + 1))
            else
              && (goOn <==> (w.recovers(k) && w.failover(k)) ||
                            (w.recovers(k) && kind in {RateLimit, Transient, Timeout, Unknown} && c0.transients < 4))
              && (goOn ==> c == if w.failover(k) then c0 else c0.(transients := c0.transients + 1))
  {
    hide OpenChain, Kinds;
    var kind := w.provider(k).kind;
    t, c := t0, c0;
    if kind.ContextOverflow? {
      if c.overflows >= OVERFLOW_RETRIES {
        return false, t, c;
      }
      c := c.(overflows := c.overflows + 1);
      t := EmitOne(w, t, "compaction");
      return w.recovers(k), t, c;
    }
    if !w.recovers(k) {
      return false, t, c;
    }
    if w.failover(k) {
      return true, t, c;
    }
    if !IsRetryable(kind) || c.transients >= TRANSIENT_RETRIES {
      return false, t, c;
    }
    c := c.(transients := c.transients + 1);
    return true, t, c;
  }

  // ---------------------------------------------------------------- the course of a turn

  function AtLeastZero(n: int): nat {
    if n > 0 then n else 0
  }

  /** The first n calls are made: before each of them iterations were left, the stop flag was down and the
      round was opened, and the call before it let the turn go on. */
  ghost predicate Course(w: World, maxIterations: int, n: nat) {
    && (forall k :: 0 <= k < n ==> MayCall(w, maxIterations, k) && w.opens(k))
    && (forall k :: 0 <= k < n - 1 ==> GoesOn(w, k))
  }

  predicate MayCall(w: World, maxIterations: int, n: nat) {
    Rounds(w, n) < maxIterations && !w.stop(n)
  }

  /** The n-th call is not made any more. */
  predicate Done(w: World, maxIterations: int, n: nat) {
    GivenUp(w, n) || !MayCall(w, maxIterations, n) || !w.opens(n)
  }

  /** No exception leaves the turn uncaught: the handler of the last call came through, and so did the opening
      of a round that was begun. */
  predicate Caught(w: World, maxIterations: int, n: nat) {
    && (n > 0 && !w.provider(n - 1).Answered? ==> w.recovers(n - 1))
    && (!GivenUp(w, n) && MayCall(w, maxIterations, n) ==> w.opens(n))
  }

  /** The last of the n calls ended the turn. */
  predicate GivenUp(w: World, n: nat) {
    n > 0 && !GoesOn(w, n - 1)
  }

  /** An answer ends the turn exactly when it uses no tools, and then nothing is left uncaught. */
  lemma AnswerEnds(w: World, maxIterations: int, n: nat)
    requires n > 0 && w.provider(n - 1).Answered?
    ensures GivenUp(w, n) <==> w.provider(n - 1).toolCalls == []
    ensures GivenUp(w, n) ==> Caught(w, maxIterations, n)
  {
  }

  lemma LastCall(w: World, n: nat)
    ensures GivenUp(w, n) <==> n > 0 && !GoesOn(w, n - 1)
  {
  }

  /** The surroundings leave a turn no choice: it makes just so many calls. */
  lemma OneCourse(w: World, maxIterations: int, a: nat, b: nat)
    requires Course(w, maxIterations, a) && Done(w, maxIterations, a)
    requires Course(w, maxIterations, b) && Done(w, maxIterations, b)
    ensures a == b
  {
  }

  /** How a turn ends: the kinds of its last nodes, its status, and what it says. */
  datatype Ending = Ending(kinds: seq<string>, status: string, says: seq<Message>)

  /** The end of ProcessMessage after n calls. */
  function EndOf(w: World, n: nat): Ending {
    var stopped := Ending(["turn_stopped"], "stopped", [Says("[Agent turn stopped by user]")]);
    var failed := Ending(["turn_error"], "error", []);
    if GivenUp(w, n) then
      match w.provider(n - 1)
      case Answered(content, _, _) =>
        if content != "" then Ending(["turn_final"], "completed", [Says(content)])
        else
          var end := if w.stop(n + 1) then stopped else failed;
          end.(kinds := ["turn_error"] + end.kinds)
      case _ => failed
    else if w.stop(n + 1) then stopped
    else failed
  }

  /** The end of ProcessMessageStream after n calls. When the loop ran out, the flag is read once for the
      note, once for the node and once for the status. */
  function StreamEndOf(w: World, n: nat): Ending {
    if GivenUp(w, n) then
      match w.provider(n - 1)
      case Answered(content, reasoning, _) =>
        Ending(["turn_final"], "completed",
               if content != "" then [Says(content)] else if reasoning != "" then [Says(reasoning)] else [])
      case _ => Ending(["turn_error"], "error", [])
    else
      Ending([if w.stop(n + 2) then "turn_stopped" else "turn_error"],
             if w.stop(n + 3) then "stopped" else "error",
             [Says(if w.stop(n + 1) then "[Stopped]" else "[Max iterations reached]")])
  }

  /** The nodes logged, `kinds`, after handle_provider_error. */
  function AfterError(kinds: seq<string>, w: World, k: nat): seq<string> {
    if Overflows(w.provider(k)) && Compactions(w, k) < OVERFLOW_RETRIES then kinds + ["compaction"] else kinds
  }

  /** The nodes logged after the k-th round of the loop, up to the end of the turn. */
  function AfterRound(kinds: seq<string>, w: World, k: nat, stream: bool): seq<string> {
    var begun := kinds + ["memory_management"];
    match w.provider(k)
    case Answered(_, _, calls) =>
      var answered := if stream then begun else begun + ["llm_response"];
      answered + Copies(|calls|, "tool_call") + Copies(|calls|, "tool_result")
    case Failed(_, seen) =>
      AfterError(if stream then begun + Copies(|seen|, "tool_call") else begun, w, k)
    case Crashed(answered, seen) =>
      if stream then begun + Copies(|seen|, "tool_call")
      else if answered then begun + ["llm_response"] + Copies(|seen|, "tool_call")
      else begun
  }

  /** The nodes of a turn of n rounds, but for its end. */
  function Trace(w: World, n: nat, stream: bool): seq<string> {
    if n == 0 then ["turn_start", "provider_resolved", "context_assembled"]
    else AfterRound(Trace(w, n - 1, stream), w, n - 1, stream)
  }

  // ---------------------------------------------------------------- how often the provider is called

  /** A resolver that names another provider at most `switches` times. */
  ghost predicate Limited(w: World, switches: nat) {
    forall n :: Switches(w, n) <= switches
  }

  function MostCalls(maxIterations: int, switches: nat): nat {
    AtLeastZero(maxIterations) + OVERFLOW_RETRIES + TRANSIENT_RETRIES + switches
  }

  /** Every call but the last is an iteration, a compaction, a switch or a retry. */
  lemma {:induction false} CallsPaid(w: World, maxIterations: int, n: nat)
    requires Course(w, maxIterations, n) && (n > 0 ==> GoesOn(w, n - 1))
    ensures n == Rounds(w, n) + Compactions(w, n) + Switches(w, n) + Retries(w, n)
    ensures Rounds(w, n) <= AtLeastZero(maxIterations)
    ensures Compactions(w, n) <= OVERFLOW_RETRIES && Retries(w, n) <= TRANSIENT_RETRIES
  {
    if n == 0 {
    } else {
      assert MayCall(w, maxIterations, n - 1) && (n > 1 ==> GoesOn(w, n - 2));
      CallsPaid(w, maxIterations, n - 1);
    }
  }

  /** However the provider fails, the calls stay within the iterations and the recovery budgets. */
  lemma CallsBounded(w: World, maxIterations: int, n: nat, switches: nat)
    requires Course(w, maxIterations, n) && Limited(w, switches)
    ensures n <= MostCalls(maxIterations, switches) && Rounds(w, n) <= AtLeastZero(maxIterations)
    ensures n <= (if maxIterations > 0 then maxIterations else 0) + 3 + 4 + switches
  {
    if n > 0 {
      assert MayCall(w, maxIterations, n - 1) && (n > 1 ==> GoesOn(w, n - 2));
      CallsPaid(w, maxIterations, n - 1);
      assert Switches(w, n - 1) <= switches;
    }
  }

  // ---------------------------------------------------------------- one flag, read more than once

  /** A streamed turn that left its loop tells the caller one thing and the log another about being stopped. */
  predicate NoteAndLogDiffer(w: World, n: nat) {
    var end := StreamEndOf(w, n);
    !GivenUp(w, n) && (end.says == [Says("[Stopped]")] <==> end.status != "stopped")
  }

  /** Exactly when the flag changes between the two readings, up or down. */
  lemma DifferExactly(w: World, n: nat)
    ensures NoteAndLogDiffer(w, n) <==> !GivenUp(w, n) && w.stop(n + 1) != w.stop(n + 3)
    ensures NoteAndLogDiffer(w, n) ==>
              if w.stop(n + 1) then StreamEndOf(w, n).says == [Says("[Stopped]")] && StreamEndOf(w, n).status == "error"
              else StreamEndOf(w, n).says == [Says("[Max iterations reached]")] && StreamEndOf(w, n).status == "stopped"
  {
  }

  /** A turn left its loop with iterations to spare, and throws that they are exhausted: exactly when the flag
      was up at the head of the loop and down behind it. */
  lemma ExhaustedTooEarly(w: World, maxIterations: int, n: nat)
    requires Course(w, maxIterations, n) && Done(w, maxIterations, n) && Caught(w, maxIterations, n)
    ensures !GivenUp(w, n) && Rounds(w, n) < maxIterations && EndOf(w, n).status == "error" <==>
            !GivenUp(w, n) && Rounds(w, n) < maxIterations && w.stop(n) && !w.stop(n + 1)
    ensures !GivenUp(w, n) && EndOf(w, n).status == "error" ==>
              Rounds(w, n) >= maxIterations || (w.stop(n) && !w.stop(n + 1))
  {
  }

  /** Surroundings in which every call uses one tool and the flag reads as told. */
  function ToolWorld(stop: nat -> bool): World {
    World.World(Ready, _ => Answered("", "", [ToolCall("t1", "read", "{}")]), _ => false, (_, _, _) => Result("ok"),
                _ => "n", stop, _ => true, _ => true)
  }

  /** Surroundings of all three kinds, after one round: the flag goes up between the readings, it goes down
      between them, and it goes down right behind the loop. */
  lemma DifferHappens()
    ensures var w := ToolWorld(k => k >= 3);
            Course(w, 1, 1) && Done(w, 1, 1) && Caught(w, 1, 1) && NoteAndLogDiffer(w, 1)
    ensures var w := ToolWorld(k => k == 1 || k == 2);
            Course(w, 2, 1) && Done(w, 2, 1) && Caught(w, 2, 1) && NoteAndLogDiffer(w, 1)
    ensures var w := ToolWorld(k => k == 1);
            Course(w, 2, 1) && Done(w, 2, 1) && Caught(w, 2, 1) && Rounds(w, 1) == 1 && EndOf(w, 1).status == "error"
    ensures forall stop :: ToolWorld(stop).Names() && Limited(ToolWorld(stop), 0)
  {
    ToolRounds(k => k >= 3);
    ToolRounds(k => k == 1 || k == 2);
    ToolRounds(k => k == 1);
    forall stop, n: nat ensures Switches(ToolWorld(stop), n) <= 0 {
      NeverSwitched(ToolWorld(stop), n);
    }
  }

  lemma ToolRounds(stop: nat -> bool)
    ensures Rounds(ToolWorld(stop), 0) == 0 && Rounds(ToolWorld(stop), 1) == 1
  {
  }

  // ---------------------------------------------------------------- exceptions that are not caught

  /** A refused request whose error handler fails in turn. */
  function LostWorld(kind: ErrorKind): World {
    World.World(Ready, _ => Failed(kind, []), _ => false, (_, _, _) => Result("ok"), _ => "n", _ => false, _ => true,
                _ => false)
  }

  /** Then the turn makes one call and is not caught, whatever the kind of error. */
  lemma UncaughtHappens(kind: ErrorKind)
    ensures var w := LostWorld(kind); Course(w, 1, 1) && Done(w, 1, 1) && !Caught(w, 1, 1) && w.preparation.Ready?
    ensures LostWorld(kind).Names() && Limited(LostWorld(kind), 0)
  {
    var w := LostWorld(kind);
    assert Rounds(w, 0) == 0;
    forall n: nat ensures Switches(w, n) <= 0 {
      NeverSwitched(w, n);
    }
  }

  lemma {:induction false} NeverSwitched(w: World, n: nat)
    requires forall k :: !w.failover(k)
    ensures Switches(w, n) == 0
  {
    if n == 0 {
    } else {
      NeverSwitched(w, n - 1);
    }
  }

  // ---------------------------------------------------------------- the two forms of a turn

  datatype TurnResult =
    | Returned(messages: seq<Message>)
    | Threw

  /** What a turn's loop keeps. */
  ghost predicate Going(w: World, t: Turn, turn: string, messages: seq<Message>, n: nat, c: Counters,
                        maxIterations: int, stream: bool) {
    && Logged(t, turn, Trace(w, n, stream))
    && messages == Dialogue(w, n, stream) && Counted(c, w, n)
    && Course(w, maxIterations, n) && (n > 0 ==> GoesOn(w, n - 1))
  }

  /** The turn stands closed in the log, with these kinds of nodes and its end as the last entry. */
  ghost predicate Over(t: Turn, turn: string, status: string, kinds: seq<string>) {
    && ClosedChain(t.entries, turn) && t.entries != [] && Last(t.entries) == End(turn, status)
    && Kinds(t.entries) == kinds
  }

  method Close(w: World, t0: Turn, kind: string, status: string) returns (t: Turn)
    requires Open(t0) && w.Names()
    ensures Over(t, t0.state.turn, status, Kinds(t0.entries) + [kind])
  {
    hide OpenChain, ClosedChain, Kinds, Finish;
    var last := EmitOne(w, t0, kind);
    FinishCloses(last, status);
    t := Finish(last, status);
  }

  /** The turn has begun, and its first node could not be written. */
  predicate Headless(t: Turn, turn: string) {
    |t.entries| == 1 && t.entries[0].Begin? && t.entries[0].turn == turn
  }

  /** The part of both forms before the loop. It is not inside their try block. */
  method Prepare(w: World, session: string, turn: string) returns (t: Turn)
    requires turn != "" && w.Names()
    ensures if w.preparation.NoStart? then Headless(t, turn) else Open(t) && t.state.turn == turn
    ensures !ClosedChain(t.entries, turn)
    ensures w.preparation.Ready? ==> Kinds(t.entries) == Trace(w, 0, false)
  {
    hide OpenChain, Kinds;
    if w.preparation.NoStart? {
      t := Turn([Begin(turn, session)], TurnState("", ""));
      return;
    }
    t := BeginTurn(w, session, turn);
    if !w.preparation.NoProvider? {
      t := EmitOne(w, t, "provider_resolved");
      if !w.preparation.NoContext? {
        t := EmitOne(w, t, "context_assembled");
      }
    }
    OpenNotEmpty(t.entries, turn, t.state.lastNode);
  }

  lemma FirstRound(w: World, maxIterations: int, stream: bool)
    ensures Course(w, maxIterations, 0) && Dialogue(w, 0, stream) == []
    ensures Trace(w, 0, stream) == Trace(w, 0, false)
    ensures Rounds(w, 0) == Compactions(w, 0) == Retries(w, 0) == 0
  {
  }

  /** What one more call makes of the nodes and the messages. */
  lemma NextRound(w: World, k: nat, stream: bool)
    ensures Trace(w, k + 1, stream) == AfterRound(Trace(w, k, stream), w, k, stream)
    ensures Rounds(w, k + 1) == Rounds(w, k) + if UsesTools(w.provider(k)) then 1 else 0
    ensures !w.provider(k).Failed? ==>
              Compactions(w, k + 1) == Compactions(w, k) && Retries(w, k + 1) == Retries(w, k)
    ensures !w.provider(k).Failed? ==> (GoesOn(w, k) <==> UsesTools(w.provider(k)))
    ensures GoesOn(w, k) ==> w.provider(k).Answered? || w.recovers(k)
    ensures Dialogue(w, k + 1, stream) ==
            if UsesTools(w.provider(k)) then
              Dialogue(w, k, stream) + [AssistantMessage(w.provider(k).content, w.provider(k).toolCalls),
                                        ResultsMessage(w, k, w.provider(k).toolCalls, stream)]
            else Dialogue(w, k, stream)
  {
    hide AfterRound, AssistantMessage, ResultsMessage;
  }

  /** One round of ProcessMessage, up to where it decides to go on or to end the turn. */
  method CallProvider(w: World, k: nat, t0: Turn, messages0: seq<Message>, c0: Counters)
    returns (goOn: bool, t: Turn, messages: seq<Message>, c: Counters)
    requires Open(t0) && w.Names() && w.opens(k) && Counted(c0, w, k) && messages0 == Dialogue(w, k, false)
    ensures goOn <==> GoesOn(w, k)
    ensures Logged(t, t0.state.turn, AfterRound(Kinds(t0.entries), w, k, false))
    ensures messages == Dialogue(w, k + 1, false)
    ensures goOn ==> Counted(c, w, k + 1)
  {
    hide OpenChain, Kinds, Dialogue, Rounds, Compactions, Retries, AssistantMessage, ResultsMessage, GoesOn;
    NextRound(w, k, false);
    messages, c := messages0, c0;
    t := EmitOne(w, t0, "memory_management");
    match w.provider(k) {
      case Answered(content, _, toolCalls) =>
        t := EmitOne(w, t, "llm_response");
        t := EmitAll(w, t, |toolCalls|, "tool_call");
        if toolCalls != [] {
          var pair;
          t, pair := RunTools(w, k, t, content, toolCalls);
          messages := messages + pair;
          c := c.(iterations := c.iterations + 1);
          return true, t, messages, c;
        }
        return false, t, messages, c;
      case Failed(_, _) =>
        goOn, t, c := HandleProviderError(w, k, t, c);
      case Crashed(answered, seen) =>
        if answered {
          t := EmitOne(w, t, "llm_response");
          t := EmitAll(w, t, |seen|, "tool_call");
        }
        return false, t, messages, c;
    }
  }

  /** The same of ProcessMessageStream. */
  method CallProviderStream(w: World, k: nat, t0: Turn, messages0: seq<Message>, c0: Counters)
    returns (goOn: bool, t: Turn, messages: seq<Message>, c: Counters)
    requires Open(t0) && w.Names() && w.opens(k) && Counted(c0, w, k) && messages0 == Dialogue(w, k, true)
    ensures goOn <==> GoesOn(w, k)
    ensures Logged(t, t0.state.turn, AfterRound(Kinds(t0.entries), w, k, true))
    ensures messages == Dialogue(w, k + 1, true)
    ensures goOn ==> Counted(c, w, k + 1)
  {
    hide OpenChain, Kinds, Dialogue, Rounds, Compactions, Retries, AssistantMessage, ResultsMessage, GoesOn;
    NextRound(w, k, true);
    messages, c := messages0, c0;
    t := EmitOne(w, t0, "memory_management");
    match w.provider(k) {
      case Answered(content, _, toolCalls) =>
        t := EmitAll(w, t, |toolCalls|, "tool_call");
        if toolCalls != [] {
          var pair;
          t, pair := RunToolsStream(w, k, t, content, toolCalls);
          messages := messages + pair;
          c := c.(iterations := c.iterations + 1);
          return true, t, messages, c;
        }
        return false, t, messages, c;
      case Failed(_, seen) =>
        t := EmitAll(w, t, |seen|, "tool_call");
        goOn, t, c := HandleProviderError(w, k, t, c);
      case Crashed(_, seen) =>
        t := EmitAll(w, t, |seen|, "tool_call");
        return false, t, messages, c;
    }
  }

  /** The loop of both forms, which differ in what a round does: it ends by itself, or by a call that ends the
      turn (`ended`), or by an exception that is not caught. */
  method RunLoop(w: World, t0: Turn, maxIterations: int, stream: bool, ghost switches: nat)
    returns (t: Turn, messages: seq<Message>, calls: nat, ended: bool, caught: bool)
    requires Logged(t0, t0.state.turn, Trace(w, 0, false)) && w.Names() && Limited(w, switches)
    ensures Course(w, maxIterations, calls) && Done(w, maxIterations, calls)
    ensures calls <= MostCalls(maxIterations, switches)
    ensures Logged(t, t0.state.turn, Trace(w, calls, stream)) && messages == Dialogue(w, calls, stream)
    ensures (ended, caught) == (GivenUp(w, calls), Caught(w, maxIterations, calls)) && (ended ==> calls > 0)
  {
    hide OpenChain, Kinds, Dialogue, Trace, Rounds, Compactions, Retries, MostCalls, Limited;
    hide AssistantMessage, ResultsMessage, AfterRound, GoesOn;
    t, messages, calls := t0, [], 0;
    var c := Counters(0, 0, 0);
    FirstRound(w, maxIterations, stream);
    while c.iterations < maxIterations && !w.stop(calls)
      invariant Going(w, t, t0.state.turn, messages, calls, c, maxIterations, stream)
      invariant calls > 0 && !w.provider(calls - 1).Answered? ==> w.recovers(calls - 1)
      invariant calls <= MostCalls(maxIterations, switches)
      decreases MostCalls(maxIterations, switches) - calls
    {
      assert MayCall(w, maxIterations, calls);
      if !w.opens(calls) {
        return t, messages, calls, false, false;
      }
      CallsBounded(w, maxIterations, calls + 1, switches);
      NextRound(w, calls, stream);
      var goOn;
      if stream {
        goOn, t, messages, c := CallProviderStream(w, calls, t, messages, c);
      } else {
        goOn, t, messages, c := CallProvider(w, calls, t, messages, c);
      }
      calls := calls + 1;
      if !goOn {
        return t, messages, calls, true, w.provider(calls - 1).Answered? || w.recovers(calls - 1);
      }
    }
    return t, messages, calls, false, true;
  }

  /** The three ways in which a turn comes out: it is not prepared; an exception leaves its loop uncaught; or it
      ends. The calls it makes, the nodes it logs, its status and what it returns are fixed by the surroundings. */
  ghost predicate ComesOut(w: World, turn: string, maxIterations: int, stream: bool, result: TurnResult, t: Turn,
                           calls: nat) {
    var settled := Course(w, maxIterations, calls) && Done(w, maxIterations, calls);
    var end := if stream then StreamEndOf(w, calls) else EndOf(w, calls);
    || (!w.preparation.Ready? && calls == 0 && result.Threw?
        && if w.preparation.NoStart? then Headless(t, turn) else Open(t) && t.state.turn == turn)
    || (w.preparation.Ready? && settled && !Caught(w, maxIterations, calls) && result.Threw?
        && Logged(t, turn, Trace(w, calls, stream)))
    || (w.preparation.Ready? && settled && Caught(w, maxIterations, calls)
        && Over(t, turn, end.status, Trace(w, calls, stream) + end.kinds)
        && result == if !stream && end.status == "error" then Threw
                     else Returned(Dialogue(w, calls, stream) + end.says))
  }

  /** ProcessMessage. The turn ends in the log, once and last, exactly when it is prepared and no exception
      leaves its loop uncaught; otherwise it throws and stays open. */
  method ProcessMessage(w: World, session: string, turn: string, maxIterations: int, ghost switches: nat)
    returns (result: TurnResult, t: Turn, calls: nat)
    requires turn != "" && w.Names() && Limited(w, switches)
    ensures calls <= MostCalls(maxIterations, switches)
    ensures ClosedChain(t.entries, turn) <==> w.preparation.Ready? && Caught(w, maxIterations, calls)
    ensures ComesOut(w, turn, maxIterations, false, result, t, calls)
    ensures result.Returned? ==> Paired(result.messages)
    ensures w.preparation.Ready? && calls > 0 && w.provider(calls - 1).Answered? &&
            w.provider(calls - 1).toolCalls == [] && w.provider(calls - 1).content != "" ==>
              result == Returned(Dialogue(w, calls, false) +
                                 [Message("assistant", [TextBlock(w.provider(calls - 1).content)])])
              && Last(t.entries) == End(turn, "completed")
    ensures result.Returned? && !(calls > 0 && w.provider(calls - 1).Answered? &&
            w.provider(calls - 1).toolCalls == [] && w.provider(calls - 1).content != "") ==>
              w.stop(calls + 1) && Last(t.entries) == End(turn, "stopped") &&
              result.messages ==
              Dialogue(w, calls, false) + [Message("assistant", [TextBlock("[Agent turn stopped by user]")])]
    ensures w.preparation.Ready? && Caught(w, maxIterations, calls) && result.Threw? ==>
              && Last(t.entries) == End(turn, "error")
              && (w.stop(calls + 1) ==> calls > 0 && !w.provider(calls - 1).Answered? && !GoesOn(w, calls - 1))
  {
    hide OpenChain, ClosedChain, Kinds, Paired, Dialogue, Trace, Rounds, MostCalls, Limited, GoesOn, GivenUp, Caught;
    calls := 0;
    t := Prepare(w, session, turn);
    if !w.preparation.Ready? {
      return Threw, t, calls;
    }
    var messages, ended, caught;
    t, messages, calls, ended, caught := RunLoop(w, t, maxIterations, false, switches);
    LastCall(w, calls);
    if calls > 0 && w.provider(calls - 1).Answered? {
      AnswerEnds(w, maxIterations, calls);
    }
    if !caught {
      OpenNotEmpty(t.entries, turn, t.state.lastNode);
      return Threw, t, calls;
    }
    if ended {
      match w.provider(calls - 1) {
        case Answered(content, _, _) =>
          if content != "" {
            t := Close(w, t, "turn_final", "completed");
            DialogueIsPaired(w, calls, false);
            TextAdded(messages, content);
            return Returned(messages + [Says(content)]), t, calls;
          }
          t := EmitOne(w, t, "turn_error");
        case _ =>
          t := Close(w, t, "turn_error", "error");
          return Threw, t, calls;
      }
    }
    if w.stop(calls + 1) {
      t := Close(w, t, "turn_stopped", "stopped");
      DialogueIsPaired(w, calls, false);
      TextAdded(messages, "[Agent turn stopped by user]");
      return Returned(messages + [Says("[Agent turn stopped by user]")]), t, calls;
    }
    t := Close(w, t, "turn_error", "error");
    return Threw, t, calls;
  }

  /** ProcessMessageStream. The same bound, the same log and the same condition for its end, but whenever the
      turn ends it returns. */
  method ProcessMessageStream(w: World, session: string, turn: string, maxIterations: int, ghost switches: nat)
    returns (result: TurnResult, t: Turn, calls: nat)
    requires turn != "" && w.Names() && Limited(w, switches)
    ensures calls <= MostCalls(maxIterations, switches)
    ensures ClosedChain(t.entries, turn) <==> w.preparation.Ready? && Caught(w, maxIterations, calls)
    ensures ComesOut(w, turn, maxIterations, true, result, t, calls)
    ensures result.Returned? ==> Paired(result.messages)
    ensures w.preparation.Ready? && calls > 0 && w.provider(calls - 1).Answered? &&
            w.provider(calls - 1).toolCalls == [] ==>
              var content, reasoning := w.provider(calls - 1).content, w.provider(calls - 1).reasoning;
              && Last(t.entries) == End(turn, "completed")
              && result == Returned(Dialogue(w, calls, true) +
                   if content == "" && reasoning == "" then []
                   else [Message("assistant", [TextBlock(if content != "" then content else reasoning)])])
    ensures result.Returned? && (calls == 0 || GoesOn(w, calls - 1)) ==>
              && Last(t.entries) == End(turn, if w.stop(calls + 3) then "stopped" else "error")
              && result.messages == Dialogue(w, calls, true) +
                   [Message("assistant", [TextBlock(if w.stop(calls + 1) then "[Stopped]"
                                                    else "[Max iterations reached]")])]
    ensures result.Returned? && calls > 0 && !w.provider(calls - 1).Answered? && !GoesOn(w, calls - 1) ==>
              Last(t.entries) == End(turn, "error") && result.messages == Dialogue(w, calls, true)
  {
    hide OpenChain, ClosedChain, Kinds, Paired, Dialogue, Trace, Rounds, MostCalls, Limited, GoesOn, GivenUp, Caught;
    calls := 0;
    t := Prepare(w, session, turn);
    if !w.preparation.Ready? {
      return Threw, t, calls;
    }
    var messages, ended, caught;
    t, messages, calls, ended, caught := RunLoop(w, t, maxIterations, true, switches);
    LastCall(w, calls);
    if calls > 0 && w.provider(calls - 1).Answered? {
      AnswerEnds(w, maxIterations, calls);
    }
    if !caught {
      OpenNotEmpty(t.entries, turn, t.state.lastNode);
      return Threw, t, calls;
    }
    if ended {
      DialogueIsPaired(w, calls, true);
      assert messages + [] == messages;
      match w.provider(calls - 1) {
        case Answered(content, reasoning, _) =>
          t := Close(w, t, "turn_final", "completed");
          TextAdded(messages, if content != "" then content else reasoning);
          if content != "" {
            messages := messages + [Says(content)];
          } else if reasoning != "" {
            messages := messages + [Says(reasoning)];
          }
        case _ =>
          t := Close(w, t, "turn_error", "error");
      }
      return Returned(messages), t, calls;
    }
    var text := if w.stop(calls + 1) then "[Stopped]" else "[Max iterations reached]";
    var kind := if w.stop(calls + 2) then "turn_stopped" else "turn_error";
    t := Close(w, t, kind, if w.stop(calls + 3) then "stopped" else "error");
    DialogueIsPaired(w, calls, true);
    TextAdded(messages, text);
    return Returned(messages + [Says(text)]), t, calls;
  }
}
