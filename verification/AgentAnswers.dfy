/** What a turn of `src/core/agent_loop.cpp` says and logs, told call by call: which message stands where in its
    answer, which failures are tried again, and how many nodes of each kind it writes.
 */
module AgentAnswers {
  import opened Text
  import opened AgentTurn
  import ToolResult

  // ---------------------------------------------------------------- messages

  lemma {:induction false} DialogueGrows(w: World, k: nat, n: nat, stream: bool)
    requires k <= n
    ensures Dialogue(w, k, stream) <= Dialogue(w, n, stream)
  {
    hide AssistantMessage, ResultsMessage;
    if k == n {
    } else {
      DialogueGrows(w, k, n - 1, stream);
    }
  }

  /** The pair of messages an answer with tools leaves: at twice the number of such answers before it. First what
      the assistant said, if anything, and each call with its id, name and arguments; then for each call, in the
      same place, what came of it. */
  lemma {:induction false} DialogueAt(w: World, n: nat, k: nat, stream: bool)
    requires k < n && w.provider(k).Answered? && w.provider(k).toolCalls != []
    ensures |Dialogue(w, n, stream)| >= 2 * Rounds(w, k) + 2
    ensures var m := Dialogue(w, n, stream)[2 * Rounds(w, k)];
            var said, calls := w.provider(k).content, w.provider(k).toolCalls;
            var first := if said == "" then 0 else 1;
            && m.role == "assistant" && |m.content| == first + |calls|
            && (said != "" ==> m.content[0] == TextBlock(said))
            && forall i :: 0 <= i < |calls| ==>
                 m.content[first + i] == ToolUse(calls[i].id, calls[i].name, calls[i].arguments)
    ensures var m, calls := Dialogue(w, n, stream)[2 * Rounds(w, k) + 1], w.provider(k).toolCalls;
            && m.role == "user" && |m.content| == |calls|
            && forall i :: 0 <= i < |calls| ==>
                 m.content[i] == ToolResultBlock(calls[i].id, Written(w.tool(k, i, calls[i]), stream))
  {
    hide ResultText, Written, ToolText, ToolResult.Truncated;
    var calls := w.provider(k).toolCalls;
    DialogueGrows(w, k + 1, n, stream);
    DialogueIsPaired(w, k, stream);
    forall i | 0 <= i < |calls|
      ensures ToolText(w.tool(k, i, calls[i]), stream) == Written(w.tool(k, i, calls[i]), stream)
    {
      WrittenIs(w.tool(k, i, calls[i]), stream);
    }
    var pair := [AssistantMessage(w.provider(k).content, calls), ResultsMessage(w, k, calls, stream)];
    assert Dialogue(w, k + 1, stream) == Dialogue(w, k, stream) + pair;
    assert Dialogue(w, n, stream)[2 * Rounds(w, k)] == pair[0];
    assert Dialogue(w, n, stream)[2 * Rounds(w, k) + 1] == pair[1];
  }

  /** What is written down for a tool: its text, shortened, or words about its error. Only the streaming form
      leaves those as they are. */
  function Written(o: ToolOutcome, stream: bool): string {
    match o
    case Result(text) => ToolResult.Truncated(text, 30000, 20)
    case JsonError(what) =>
      var words := "JSON serialization error: " + what;
      if stream then words else ToolResult.Truncated(words, 30000, 20)
    case Error(what) =>
      if stream then "Error: " + what else ToolResult.Truncated("Error executing tool: " + what, 30000, 20)
  }

  lemma WrittenIs(o: ToolOutcome, stream: bool)
    ensures ToolText(o, stream) == Written(o, stream)
  {
    hide ToolResult.Truncated;
  }

  // ---------------------------------------------------------------- what is tried again

  ghost predicate Overflowed(w: World, j: nat) {
    w.provider(j).Failed? && w.provider(j).kind == ContextOverflow
  }

  ghost predicate FailedAlone(w: World, j: nat) {
    w.provider(j).Failed? && w.provider(j).kind != ContextOverflow && !w.failover(j)
  }

  /** Which of the first n calls overflowed the context. */
  ghost function OverflowsBefore(w: World, n: nat): set<nat> {
    set j: nat | j < n && Overflowed(w, j)
  }

  /** Which of them failed otherwise, with no other provider at hand. */
  ghost function FailuresBefore(w: World, n: nat): set<nat> {
    set j: nat | j < n && FailedAlone(w, j)
  }

  lemma OverflowsNext(w: World, n: nat)
    ensures |OverflowsBefore(w, n + 1)| == |OverflowsBefore(w, n)| + if Overflowed(w, n) then 1 else 0
    ensures OverflowsBefore(w, 0) == {}
  {
    hide Overflowed;
    var before := OverflowsBefore(w, n);
    assert OverflowsBefore(w, n + 1) == if Overflowed(w, n) then before + {n} else before;
  }

  lemma FailuresNext(w: World, n: nat)
    ensures |FailuresBefore(w, n + 1)| == |FailuresBefore(w, n)| + if FailedAlone(w, n) then 1 else 0
    ensures FailuresBefore(w, 0) == {}
  {
    hide FailedAlone;
    var before := FailuresBefore(w, n);
    assert FailuresBefore(w, n + 1) == if FailedAlone(w, n) then before + {n} else before;
  }

  lemma CountsNext(w: World, n: nat)
    ensures Compactions(w, n + 1) == Compactions(w, n) + if Overflowed(w, n) then 1 else 0
    ensures Retries(w, n + 1) == Retries(w, n) + if FailedAlone(w, n) then 1 else 0
    ensures Compactions(w, 0) == Retries(w, 0) == 0
  {
  }

  lemma {:induction false} CountsAreSizes(w: World, n: nat)
    ensures Compactions(w, n) == |OverflowsBefore(w, n)| && Retries(w, n) == |FailuresBefore(w, n)|
  {
    hide OverflowsBefore, FailuresBefore, Compactions, Retries, Overflowed, FailedAlone;
    if n == 0 {
      OverflowsNext(w, 0);
      FailuresNext(w, 0);
      CountsNext(w, 0);
    } else {
      OverflowsNext(w, n - 1);
      FailuresNext(w, n - 1);
      CountsNext(w, n - 1);
      CountsAreSizes(w, n - 1);
    }
  }

  /** Which failed calls are tried again, when their handler comes through: an overflow while fewer than three came
      before it, and any other error when another provider is named, or when it may pass and fewer than four before
      it were left without one. */
  lemma TriedAgain(w: World, k: nat)
    requires w.provider(k).Failed?
    ensures GoesOn(w, k) <==>
            && w.recovers(k)
            && if w.provider(k).kind == ContextOverflow then |OverflowsBefore(w, k)| < 3
               else || w.failover(k)
                    || (w.provider(k).kind in {RateLimit, Transient, Timeout, Unknown} && |FailuresBefore(w, k)| < 4)
  {
    hide Compactions, Retries, OverflowsBefore, FailuresBefore;
    CountsAreSizes(w, k);
  }

  // ---------------------------------------------------------------- nodes

  /** How many tool calls were run after the first n calls of the provider. */
  function CallsRun(w: World, n: nat): nat {
    if n == 0 then 0
    else
      var o := w.provider(n - 1);
      CallsRun(w, n - 1) + match o case Answered(_, _, calls) => |calls| case _ => 0
  }

  /** How many nodes of each kind there are. */
  datatype Nodes = Nodes(rounds: nat, responses: nat, calls: nat, results: nat, compactions: nat)

  function Tally(kinds: seq<string>): Nodes {
    var m := multiset(kinds);
    Nodes(m["memory_management"], m["llm_response"], m["tool_call"], m["tool_result"], m["compaction"])
  }

  /** A turn logs one node for every call of the provider and one for every tool it runs, and a compaction for each
      of the first three overflows. */
  lemma {:induction false} NodesCounted(w: World, n: nat, stream: bool)
    ensures multiset(Trace(w, n, stream))["memory_management"] == n
    ensures multiset(Trace(w, n, stream))["tool_result"] == CallsRun(w, n)
    ensures multiset(Trace(w, n, stream))["compaction"] ==
            if Compactions(w, n) < 3 then Compactions(w, n) else 3
  {
    hide AfterRound, Tally;
    TallyReads(Trace(w, n, stream));
    if n == 0 {
      TallyReads(Trace(w, 0, stream));
      BeforeLoop();
    } else {
      NodesCounted(w, n - 1, stream);
      TallyReads(Trace(w, n - 1, stream));
      RoundCounted(Trace(w, n - 1, stream), w, n - 1, stream);
    }
  }

  lemma TallyReads(kinds: seq<string>)
    ensures Tally(kinds).rounds == multiset(kinds)["memory_management"]
    ensures Tally(kinds).results == multiset(kinds)["tool_result"]
    ensures Tally(kinds).compactions == multiset(kinds)["compaction"]
  {
  }

  lemma BeforeLoop()
    ensures Tally(["turn_start", "provider_resolved", "context_assembled"]) == Nodes(0, 0, 0, 0, 0)
  {
  }

  /** What one more call adds. The streaming form logs no response, and the tool calls of a broken answer as they
      come; ProcessMessage logs them only when the answer was there. */
  lemma RoundCounted(kinds: seq<string>, w: World, k: nat, stream: bool)
    ensures var before, o := Tally(kinds), w.provider(k);
            var there := o.Answered? || (o.Crashed? && o.answered);
            Tally(AfterRound(kinds, w, k, stream)) ==
            Nodes(before.rounds + 1,
                  before.responses + (if !stream && there then 1 else 0),
                  before.calls + (if o.Answered? then |o.toolCalls| else if stream || there then |o.seen| else 0),
                  before.results + (if o.Answered? then |o.toolCalls| else 0),
                  before.compactions + if Overflowed(w, k) && Compactions(w, k) < 3 then 1 else 0)
  {
    hide Compactions, Copies, Tally;
    var begun := kinds + ["memory_management"];
    OneMore(kinds);
    OneMore(begun);
    match w.provider(k)
    case Answered(_, _, calls) =>
      var answered := if stream then begun else begun + ["llm_response"];
      CopiesTallied(answered, |calls|);
      CopiesTallied(answered + Copies(|calls|, "tool_call"), |calls|);
    case Failed(_, seen) =>
      CopiesTallied(begun, |seen|);
      OneMore(if stream then begun + Copies(|seen|, "tool_call") else begun);
    case Crashed(_, seen) =>
      CopiesTallied(begun, |seen|);
      CopiesTallied(begun + ["llm_response"], |seen|);
  }

  lemma OneMore(kinds: seq<string>)
    ensures var n := Tally(kinds);
            && Tally(kinds + ["memory_management"]) == n.(rounds := n.rounds + 1)
            && Tally(kinds + ["llm_response"]) == n.(responses := n.responses + 1)
            && Tally(kinds + ["compaction"]) == n.(compactions := n.compactions + 1)
  {
  }

  lemma CopiesTallied(kinds: seq<string>, n: nat)
    ensures var was := Tally(kinds);
            && Tally(kinds + Copies(n, "tool_call")) == was.(calls := was.calls + n)
            && Tally(kinds + Copies(n, "tool_result")) == was.(results := was.results + n)
  {
    hide Copies;
    CopiesOf(n);
  }

  lemma CopiesOf(n: nat)
    ensures Tally(Copies(n, "tool_call")) == Nodes(0, 0, n, 0, 0)
    ensures Tally(Copies(n, "tool_result")) == Nodes(0, 0, 0, n, 0)
  {
    if n == 0 {
    } else {
      CopiesOf(n - 1);
      assert Copies(n, "tool_call") == Copies(n - 1, "tool_call") + ["tool_call"];
      assert Copies(n, "tool_result") == Copies(n - 1, "tool_result") + ["tool_result"];
    }
  }

  /** The log of a first round with two tools, node by node. */
  lemma TraceShown(w: World, stream: bool)
    requires w.provider(0).Answered? && |w.provider(0).toolCalls| == 2
    ensures Trace(w, 1, stream) ==
            ["turn_start", "provider_resolved", "context_assembled", "memory_management"] +
            (if stream then [] else ["llm_response"]) + ["tool_call", "tool_call", "tool_result", "tool_result"]
  {
    assert Copies(2, "tool_call") == ["tool_call", "tool_call"];
    assert Copies(2, "tool_result") == ["tool_result", "tool_result"];
  }

  // ---------------------------------------------------------------- how it ends

  /** Why a turn stops calling: before every call iterations were left, the flag was down and the round could be
      opened; and behind the last one the answer is there, or iterations are used up, or the flag is up. */
  lemma WhyItStops(w: World, maxIterations: int, n: nat)
    requires Course(w, maxIterations, n) && Done(w, maxIterations, n) && Caught(w, maxIterations, n)
    ensures forall k :: 0 <= k < n ==> Rounds(w, k) < maxIterations && !w.stop(k) && w.opens(k)
    ensures (n > 0 && !GoesOn(w, n - 1)) || Rounds(w, n) >= maxIterations || w.stop(n)
  {
    hide Rounds, GoesOn;
    forall k | 0 <= k < n ensures Rounds(w, k) < maxIterations && !w.stop(k) && w.opens(k) {
      assert MayCall(w, maxIterations, k);
    }
  }

  /** The last node of a turn and the status it ends with. */
  predicate Agree(kind: string, status: string) {
    (kind, status) in [("turn_final", "completed"), ("turn_stopped", "stopped"), ("turn_error", "error")]
  }

  /** The log of an ended turn agrees with itself: always in ProcessMessage, and in the streaming form exactly when
      the last call ended the turn or the stop flag reads alike for the node and for the status. */
  lemma LogAgrees(w: World, turn: string, maxIterations: int, stream: bool, result: TurnResult, t: Turn, calls: nat)
    requires ComesOut(w, turn, maxIterations, stream, result, t, calls)
    requires w.preparation.Ready? && Caught(w, maxIterations, calls)
    ensures Kinds(t.entries) != [] && t.entries != [] && Last(t.entries).End?
    ensures Agree(Last(Kinds(t.entries)), Last(t.entries).status) <==>
            !stream || GivenUp(w, calls) || w.stop(calls + 2) == w.stop(calls + 3)
  {
    hide Kinds, Dialogue, Trace, Caught, Course, Done, GivenUp;
  }
}
