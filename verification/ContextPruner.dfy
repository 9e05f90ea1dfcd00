/** Pruning old tool results out of a conversation: `src/core/context_pruner.cpp`. */
module ContextPruning {
  import opened Text
  import opened AgentTurn
  import ToolResult
  import TokenChunks

  // The source works with thresholds taken from a list of indices; what is promised is stated by counting the
  // assistant messages that follow a message. Token budgets are reals, truncated as the source's casts do.

  const PLACEHOLDER: string := "[Tool result omitted — older context]"

  datatype Options = Options(protectRecent: int, softPruneLines: int, hardPruneAfter: int, maxToolResultChars: int,
                             contextWindow: int, maxTokens: int, targetRatio: real)

  // ---------------------------------------------------------------- budgets

  /** A cast to int: towards zero. */
  function Trunc(x: real): int {
    if x >= 0.0 then x.Floor else -((-x).Floor)
  }

  function Max(a: int, b: int): int {
    if a >= b then a else b
  }

  function Budget(opts: Options): int {
    Trunc(opts.contextWindow as real * opts.targetRatio) - opts.maxTokens
  }

  /** The options for a history of this many tokens: tightened when it is over budget. */
  function Effective(opts: Options, tokens: nat): Options {
    if opts.contextWindow > 0 && Budget(opts) > 0 && tokens > Budget(opts) then
      var over := tokens as real / Budget(opts) as real;
      opts.(maxToolResultChars := Max(200, Trunc(opts.maxToolResultChars as real / over)),
            protectRecent := Max(1, Trunc(opts.protectRecent as real / over)),
            hardPruneAfter := Max(3, Trunc(opts.hardPruneAfter as real / over)))
    else opts
  }

  lemma Shrunk(n: nat, over: real)
    requires over >= 1.0
    ensures 0 <= Trunc(n as real / over) <= n
  {
    var x := n as real / over;
    assert x * over == n as real;
    Stretched(x, over);
  }

  lemma Stretched(x: real, over: real)
    requires over >= 1.0
    ensures if x >= 0.0 then x * over >= x else x * over < 0.0
  {
    assert x * over == x + x * (over - 1.0);
  }

  /** Being over budget never loosens options that are not below the built-in floors. */
  lemma EffectiveTightens(opts: Options, tokens: nat)
    requires opts.protectRecent >= 1 && opts.hardPruneAfter >= 3 && opts.maxToolResultChars >= 200
    ensures var e := Effective(opts, tokens);
            && 1 <= e.protectRecent <= opts.protectRecent
            && 3 <= e.hardPruneAfter <= opts.hardPruneAfter
            && 200 <= e.maxToolResultChars <= opts.maxToolResultChars
            && e.softPruneLines == opts.softPruneLines
  {
    hide Trunc, Budget;
    if Budget(opts) > 0 && tokens > Budget(opts) {
      var over := tokens as real / Budget(opts) as real;
      assert over >= 1.0;
      Shrunk(opts.maxToolResultChars, over);
      Shrunk(opts.protectRecent, over);
      Shrunk(opts.hardPruneAfter, over);
    }
  }

  // ---------------------------------------------------------------- what is promised

  predicate IsAssistant(m: Message) {
    m.role == "assistant"
  }

  /** How many of the messages before place `n` and after place `i` are the assistant's. */
  function CountAfter(history: seq<Message>, i: int, n: nat): nat
    requires n <= |history|
  {
    if n == 0 || n <= i + 1 then 0
    else CountAfter(history, i, n - 1) + if IsAssistant(history[n - 1]) then 1 else 0
  }

  function Later(history: seq<Message>, i: int): nat {
    CountAfter(history, i, |history|)
  }

  function AssistantCount(history: seq<Message>): nat {
    Later(history, -1)
  }

  predicate HasUser(messages: seq<Message>) {
    exists j :: 0 <= j < |messages| && messages[j].role == "user"
  }

  /** Up to and including the first user message. */
  predicate InBootstrap(history: seq<Message>, i: nat)
    requires i < |history|
  {
    HasUser(history) && !HasUser(history[..i])
  }

  /** Among the most recent: fewer than `protectRecent` assistant messages follow, or there are no more
      than that, or none, at all. */
  predicate IsRecent(history: seq<Message>, opts: Options, i: nat)
    requires i < |history|
  {
    || AssistantCount(history) == 0 || AssistantCount(history) <= opts.protectRecent
    || Later(history, i) < opts.protectRecent
  }

  predicate IsOld(history: seq<Message>, opts: Options, i: nat)
    requires i < |history|
  {
    && AssistantCount(history) != 0
    && AssistantCount(history) > opts.hardPruneAfter && Later(history, i) >= opts.hardPruneAfter
  }

  datatype Treatment = Keep | Shorten | Drop

  function TreatmentOf(history: seq<Message>, opts: Options, i: nat, content: string): Treatment
    requires i < |history|
  {
    if IsRecent(history, opts, i) || InBootstrap(history, i) then Keep
    else if IsOld(history, opts, i) then Drop
    else if |content| > opts.maxToolResultChars then Shorten
    else Keep
  }

  function Treated(t: Treatment, opts: Options, content: string): string {
    match t
    case Keep => content
    case Shorten => ToolResult.SoftPruned(content, opts.softPruneLines)
    case Drop => PLACEHOLDER
  }

  function PrunedBlock(history: seq<Message>, opts: Options, i: nat, b: Block): Block
    requires i < |history|
  {
    if b.ToolResultBlock? then b.(content := Treated(TreatmentOf(history, opts, i, b.content), opts, b.content)) else b
  }

  function PrunedMessage(history: seq<Message>, opts: Options, i: nat): (m: Message)
    requires i < |history|
    ensures |m.content| == |history[i].content|
  {
    var m := history[i];
    m.(content := seq(|m.content|, k requires 0 <= k < |m.content| => PrunedBlock(history, opts, i, m.content[k])))
  }

  function Pruned(history: seq<Message>, opts: Options): (pruned: seq<Message>)
    ensures |pruned| == |history|
  {
    seq(|history|, i requires 0 <= i < |history| => PrunedMessage(history, opts, i))
  }

  // ---------------------------------------------------------------- the code

  function AssistantIndices(history: seq<Message>, n: nat): (indices: seq<nat>)
    requires n <= |history|
    ensures forall k :: 0 <= k < |indices| ==> indices[k] < n
  {
    if n == 0 then []
    else AssistantIndices(history, n - 1) + if IsAssistant(history[n - 1]) then [n - 1] else []
  }

  lemma {:induction false} IndicesCount(history: seq<Message>, n: nat)
    requires n <= |history|
    ensures |AssistantIndices(history, n)| == CountAfter(history, -1, n)
  {
    if n == 0 {
    } else {
      IndicesCount(history, n - 1);
    }
  }

  /** The k-th index from the end lies behind a message exactly when k assistant messages follow it. */
  lemma {:induction false} Threshold(history: seq<Message>, i: nat, n: nat, k: nat)
    requires n <= |history| && 1 <= k <= |AssistantIndices(history, n)|
    ensures var indices := AssistantIndices(history, n);
            i < indices[|indices| - k] <==> CountAfter(history, i, n) >= k
  {
    if n == 0 {
    } else {
      var before := AssistantIndices(history, n - 1);
      if !IsAssistant(history[n - 1]) {
        Threshold(history, i, n - 1, k);
      } else if k > 1 {
        Threshold(history, i, n - 1, k - 1);
      }
    }
  }

  /** The index Prune compares with: -1 when there are not enough assistant messages. */
  function ThresholdOf(indices: seq<nat>, recent: int): int
    requires indices != [] ==> recent >= 1
  {
    if |indices| > recent && indices != [] then indices[|indices| - recent] else -1
  }

  lemma ThresholdMeans(history: seq<Message>, recent: int, i: nat)
    requires (AssistantCount(history) != 0 ==> recent >= 1) && i < |history|
    ensures |AssistantIndices(history, |history|)| == AssistantCount(history)
    ensures var at := ThresholdOf(AssistantIndices(history, |history|), recent);
            && (at < 0 <==> AssistantCount(history) == 0 || AssistantCount(history) <= recent)
            && (at >= 0 ==> (i < at <==> Later(history, i) >= recent))
  {
    hide AssistantIndices, CountAfter;
    IndicesCount(history, |history|);
    var indices := AssistantIndices(history, |history|);
    if |indices| > recent && indices != [] {
      Threshold(history, i, |history|, recent);
    }
  }

  method FirstUser(history: seq<Message>) returns (at: int)
    ensures forall i :: 0 <= i < |history| ==> (i <= at <==> InBootstrap(history, i))
  {
    at := -1;
    for i := 0 to |history|
      invariant at == -1 && !HasUser(history[..i])
    {
      if history[i].role == "user" {
        at := i;
        assert HasUser(history);
        forall j | 0 <= j < |history| ensures j <= at <==> InBootstrap(history, j) {
          if j <= at {
            assert forall k :: 0 <= k < j ==> history[..j][k] == history[..i][k];
          } else {
            assert history[..j][i].role == "user";
          }
        }
        return;
      }
      assert forall k :: 0 <= k < i + 1 ==> history[..i + 1][k] == if k < i then history[..i][k] else history[i];
    }
    assert history[..|history|] == history;
  }

  method FindAssistants(history: seq<Message>) returns (indices: seq<nat>)
    ensures indices == AssistantIndices(history, |history|)
  {
    indices := [];
    for i := 0 to |history|
      invariant indices == AssistantIndices(history, i)
    {
      if history[i].role == "assistant" {
        indices := indices + [i];
      }
    }
  }

  method HasToolResult(msg: Message) returns (found: bool)
    ensures found <==> HasResult(msg)
  {
    for k := 0 to |msg.content|
      invariant forall j :: 0 <= j < k ==> !msg.content[j].ToolResultBlock?
    {
      if msg.content[k].ToolResultBlock? {
        return true;
      }
    }
    return false;
  }

  /** The options in force for a history of `current` tokens: the source's arithmetic, in place. */
  method Tighten(opts: Options, current: nat) returns (effective: Options)
    ensures effective == Effective(opts, current)
  {
    hide Trunc, Max, Budget;
    effective := opts;
    if opts.contextWindow > 0 {
      var budget := Budget(opts);
      if budget > 0 && current > budget {
        var over := current as real / budget as real;
        effective := effective.(maxToolResultChars := Max(200, Trunc(opts.maxToolResultChars as real / over)));
        effective := effective.(protectRecent := Max(1, Trunc(opts.protectRecent as real / over)));
        effective := effective.(hardPruneAfter := Max(3, Trunc(opts.hardPruneAfter as real / over)));
      }
    }
  }

  /** What the token estimate looks at. */
  function Weighed(history: seq<Message>): seq<TokenChunks.Message> {
    seq(|history|, i requires 0 <= i < |history| =>
      TokenChunks.Message(history[i].role,
                          seq(|history[i].content|, k requires 0 <= k < |history[i].content| =>
                            match history[i].content[k]
                            case TextBlock(text) => TokenChunks.Block(text, "", None)
                            case ToolUse(_, _, input) => TokenChunks.Block("", "", Some(input))
                            case ToolResultBlock(_, content) => TokenChunks.Block("", content, None))))
  }

  /** The rebuilding of one message that is not protected. */
  method PruneMessage(history: seq<Message>, opts: Options, i: nat, hardThreshold: int) returns (m: Message)
    requires i < |history| && !IsRecent(history, opts, i) && !InBootstrap(history, i)
    requires IsOld(history, opts, i) <==> hardThreshold >= 0 && i < hardThreshold
    ensures m == PrunedMessage(history, opts, i)
  {
    hide IsOld, IsRecent, InBootstrap, ToolResult.SoftPruned;
    var msg := history[i];
    var content: seq<Block> := [];
    for k := 0 to |msg.content|
      invariant |content| == k
      invariant forall j :: 0 <= j < k ==> content[j] == PrunedBlock(history, opts, i, msg.content[j])
    {
      var block := msg.content[k];
      if !block.ToolResultBlock? {
        content := content + [block];
      } else if hardThreshold >= 0 && i < hardThreshold {
        content := content + [ToolResultBlock(block.toolUseId, PLACEHOLDER)];
      } else if |block.content| > opts.maxToolResultChars {
        var short := ToolResult.SoftPrune(block.content, opts.softPruneLines);
        content := content + [ToolResultBlock(block.toolUseId, short)];
      } else {
        content := content + [block];
      }
    }
    m := Message(msg.role, content);
    assert m.content == PrunedMessage(history, opts, i).content;
  }

  /** A message without results, or a protected one, is what it was. */
  lemma Untouched(history: seq<Message>, opts: Options, i: nat)
    requires i < |history|
    requires !HasResult(history[i]) || IsRecent(history, opts, i) || InBootstrap(history, i)
    ensures PrunedMessage(history, opts, i) == history[i]
  {
    hide IsRecent, InBootstrap, IsOld, ToolResult.SoftPruned;
    assert PrunedMessage(history, opts, i).content == history[i].content;
  }

  /** The source takes the k-th assistant index from the end, which is there unless k is below one. */
  ghost predicate InList(history: seq<Message>, opts: Options) {
    AssistantCount(history) == 0 || (opts.protectRecent >= 1 && opts.hardPruneAfter >= 1)
  }

  /** ContextPruner::Prune, on every input for which the thresholds in force do not make the source index past
      its list. */
  method Prune(history: seq<Message>, opts: Options) returns (result: seq<Message>)
    requires InList(history, Effective(opts, TokenChunks.Total(Weighed(history))))
    ensures result == Pruned(history, Effective(opts, TokenChunks.Total(Weighed(history))))
  {
    hide IsRecent, InBootstrap, IsOld, PrunedMessage, HasResult, Weighed, TokenChunks.Total, Effective;
    if history == [] {
      return history;
    }
    var current := TokenChunks.EstimateTokens(Weighed(history));
    var effective := Tighten(opts, current);
    var bootstrapEnd := FirstUser(history);
    var indices := FindAssistants(history);
    IndicesCount(history, |history|);
    var protectThreshold: int, hardThreshold: int := -1, -1;
    if |indices| > effective.protectRecent && indices != [] {
      protectThreshold := indices[|indices| - effective.protectRecent];
    }
    if |indices| > effective.hardPruneAfter && indices != [] {
      hardThreshold := indices[|indices| - effective.hardPruneAfter];
    }
    result := [];
    for i := 0 to |history|
      invariant |result| == i
      invariant forall j :: 0 <= j < i ==> result[j] == PrunedMessage(history, effective, j)
    {
      Sides(history, effective, i);
      var hasToolResult := HasToolResult(history[i]);
      if !hasToolResult || protectThreshold < 0 || i >= protectThreshold || i <= bootstrapEnd {
        Untouched(history, effective, i);
        result := result + [history[i]];
      } else {
        var m := PruneMessage(history, effective, i, hardThreshold);
        result := result + [m];
      }
    }
  }

  /** Both thresholds say what the counts say. */
  lemma Sides(history: seq<Message>, opts: Options, i: nat)
    requires i < |history| && InList(history, opts)
    ensures |AssistantIndices(history, |history|)| == AssistantCount(history)
    ensures var at := ThresholdOf(AssistantIndices(history, |history|), opts.protectRecent);
            IsRecent(history, opts, i) <==> at < 0 || i >= at
    ensures var at := ThresholdOf(AssistantIndices(history, |history|), opts.hardPruneAfter);
            IsOld(history, opts, i) <==> at >= 0 && i < at
  {
    hide AssistantIndices, Later, AssistantCount, ThresholdOf;
    ThresholdMeans(history, opts.protectRecent, i);
    ThresholdMeans(history, opts.hardPruneAfter, i);
  }

  // ---------------------------------------------------------------- what pruning preserves

  lemma {:induction false} SameUses(a: seq<Block>, b: seq<Block>)
    requires |a| == |b|
    requires forall k :: 0 <= k < |a| ==> a[k].ToolUse? == b[k].ToolUse? && (a[k].ToolUse? ==> a[k] == b[k])
    ensures UseIds(a) == UseIds(b)
  {
    if a == [] {
    } else {
      SameUses(a[..|a| - 1], b[..|b| - 1]);
    }
  }

  lemma MessageKept(history: seq<Message>, opts: Options, i: nat)
    requires i < |history|
    ensures var m := PrunedMessage(history, opts, i);
            && m.role == history[i].role && UseIds(m.content) == UseIds(history[i].content)
            && (HasResult(m) <==> HasResult(history[i]))
            && (forall ids :: Answers(m, ids) <==> Answers(history[i], ids))
  {
    hide TreatmentOf, Treated, UseIds;
    var m := PrunedMessage(history, opts, i);
    assert forall k :: 0 <= k < |m.content| ==> m.content[k] == PrunedBlock(history, opts, i, history[i].content[k]);
    SameUses(m.content, history[i].content);
  }

  /** Pruning only shortens results: a history whose tool calls are all answered keeps every call, every
      answer and every position. */
  lemma PruneKeepsPairing(history: seq<Message>, opts: Options)
    ensures Paired(Pruned(history, opts)) <==> Paired(history)
  {
    hide PrunedMessage, UseIds, HasResult, Answers;
    var pruned := Pruned(history, opts);
    forall i | 0 <= i < |history|
      ensures CallsAnswered(pruned, i) <==> CallsAnswered(history, i)
      ensures ResultsAsked(pruned, i) <==> ResultsAsked(history, i)
    {
      MessageKept(history, opts, i);
      if i + 1 < |history| { MessageKept(history, opts, i + 1); }
      if i > 0 { MessageKept(history, opts, i - 1); }
    }
  }

  lemma {:induction false} CountSuffix(history: seq<Message>, j: nat, n: nat)
    requires j <= n <= |history|
    ensures CountAfter(history[j..], -1, n - j) == CountAfter(history, j - 1, n)
  {
    if n == j {
    } else {
      CountSuffix(history, j, n - 1);
    }
  }

  lemma {:induction false} CountFalls(history: seq<Message>, i: int, k: int, n: nat)
    requires n <= |history| && -1 <= i <= k
    ensures CountAfter(history, k, n) <= CountAfter(history, i, n)
    ensures -1 < k < n && i < k && IsAssistant(history[k]) ==> CountAfter(history, k, n) < CountAfter(history, i, n)
  {
    if n == 0 {
    } else {
      CountFalls(history, i, k, n - 1);
    }
  }

  /** From the `protectRecent`-th last assistant message on, the history is kept word for word. */
  lemma RecentKept(history: seq<Message>, opts: Options, j: nat)
    requires j < |history| && IsAssistant(history[j]) && AssistantCount(history[j..]) <= opts.protectRecent
    ensures Pruned(history, opts)[j..] == history[j..]
  {
    hide CountAfter, PrunedMessage, HasResult;
    CountSuffix(history, j, |history|);
    CountFalls(history, j - 1, j, |history|);
    forall i | j <= i < |history| ensures PrunedMessage(history, opts, i) == history[i] {
      CountFalls(history, j, i, |history|);
      Untouched(history, opts, i);
    }
  }

  /** Up to and including the first user message it is, too. */
  lemma BootstrapKept(history: seq<Message>, opts: Options, u: nat)
    requires u < |history| && history[u].role == "user" && !HasUser(history[..u])
    ensures Pruned(history, opts)[..u + 1] == history[..u + 1]
  {
    hide PrunedMessage, HasResult;
    forall i | 0 <= i <= u ensures PrunedMessage(history, opts, i) == history[i] {
      assert forall k :: 0 <= k < i ==> history[..i][k] == history[..u][k];
      Untouched(history, opts, i);
    }
  }

  function Level(t: Treatment): nat {
    match t case Keep => 0 case Shorten => 1 case Drop => 2
  }

  /** Under tighter options every result is treated at least as hard. */
  lemma TighterPrunesMore(history: seq<Message>, tight: Options, loose: Options, i: nat, content: string)
    requires i < |history|
    requires tight.protectRecent <= loose.protectRecent && tight.hardPruneAfter <= loose.hardPruneAfter
    requires tight.maxToolResultChars <= loose.maxToolResultChars
    ensures Level(TreatmentOf(history, tight, i, content)) >= Level(TreatmentOf(history, loose, i, content))
  {
    hide Later, AssistantCount, HasUser;
  }

  /** So a history over budget is pruned at least as hard as one within it. */
  lemma OverBudgetPrunesMore(history: seq<Message>, opts: Options, tokens: nat, i: nat, content: string)
    requires i < |history|
    requires opts.protectRecent >= 1 && opts.hardPruneAfter >= 3 && opts.maxToolResultChars >= 200
    ensures Level(TreatmentOf(history, Effective(opts, tokens), i, content)) >=
            Level(TreatmentOf(history, opts, i, content))
  {
    hide TreatmentOf, Effective;
    EffectiveTightens(opts, tokens);
    TighterPrunesMore(history, Effective(opts, tokens), opts, i, content);
  }

  // ---------------------------------------------------------------- what becomes of a result

  ghost predicate AssistantAt(history: seq<Message>, j: nat) {
    j < |history| && history[j].role == "assistant"
  }

  /** The assistant messages behind place `i` and before place `n`. */
  ghost function AssistantsIn(history: seq<Message>, i: int, n: nat): set<nat> {
    set j: nat | i < j < n && AssistantAt(history, j)
  }

  lemma NoneIn(history: seq<Message>, i: int)
    ensures AssistantsIn(history, i, 0) == {}
  {
  }

  lemma OneMoreIn(history: seq<Message>, i: int, n: nat)
    ensures |AssistantsIn(history, i, n + 1)| ==
            |AssistantsIn(history, i, n)| + if i < n && AssistantAt(history, n) then 1 else 0
  {
    hide AssistantAt;
    var before := AssistantsIn(history, i, n);
    assert AssistantsIn(history, i, n + 1) == if i < n && AssistantAt(history, n) then before + {n} else before;
  }

  lemma {:induction false} CountIsSize(history: seq<Message>, i: int, n: nat)
    requires n <= |history| && -1 <= i
    ensures CountAfter(history, i, n) == |AssistantsIn(history, i, n)|
  {
    hide AssistantsIn;
    if n == 0 {
      NoneIn(history, i);
    } else {
      CountIsSize(history, i, n - 1);
      OneMoreIn(history, i, n - 1);
    }
  }

  /** What becomes of a tool result, told by counting: `all` assistant messages, `later` of them behind it. It stays
      while it is recent or no user has spoken before it; else it gives way to a note when it is old, and is
      cut at lines when it is long. */
  lemma ResultAt(history: seq<Message>, opts: Options, i: nat, k: nat, all: nat, later: nat)
    requires i < |history| && k < |history[i].content| && history[i].content[k].ToolResultBlock?
    requires all == |AssistantsIn(history, -1, |history|)| && later == |AssistantsIn(history, i, |history|)|
    ensures var content := history[i].content[k].content;
            var recent := all == 0 || all <= opts.protectRecent || later < opts.protectRecent;
            var leading := HasUser(history) && !exists j :: 0 <= j < i && history[j].role == "user";
            var aged := all > opts.hardPruneAfter && later >= opts.hardPruneAfter;
            Pruned(history, opts)[i].content[k] ==
            ToolResultBlock(history[i].content[k].toolUseId,
                            if recent || leading then content
                            else if aged then "[Tool result omitted — older context]"
                            else if |content| > opts.maxToolResultChars then
                              ToolResult.SoftPruned(content, opts.softPruneLines)
                            else content)
  {
    hide CountAfter, ToolResult.SoftPruned;
    CountIsSize(history, -1, |history|);
    CountIsSize(history, i, |history|);
    assert HasUser(history[..i]) <==> exists j :: 0 <= j < i && history[j].role == "user" by {
      assert forall j :: 0 <= j < i ==> history[..i][j] == history[j];
    }
  }

  /** Everything else comes back as it was. */
  lemma RestKept(history: seq<Message>, opts: Options, i: nat)
    requires i < |history|
    ensures var m := Pruned(history, opts)[i];
            && m.role == history[i].role && |m.content| == |history[i].content|
            && forall k :: 0 <= k < |m.content| && !history[i].content[k].ToolResultBlock? ==>
                 m.content[k] == history[i].content[k]
  {
    hide TreatmentOf, Treated;
  }

  // ---------------------------------------------------------------- how much the options are tightened

  /** The number is scaled by budget / tokens and rounded down, but for the floor. */
  predicate Scaled(number: int, given: nat, floor: nat, budget: nat, tokens: nat) {
    number >= floor && given * budget < (number + 1) * tokens && (number > floor ==> number * tokens <= given * budget)
  }

  lemma ScaledDown(given: nat, floor: nat, budget: nat, tokens: nat)
    requires 0 < budget < tokens
    ensures Scaled(Max(floor, Trunc(given as real / (tokens as real / budget as real))), given, floor, budget, tokens)
  {
    var x := given as real / (tokens as real / budget as real);
    var over := tokens as real / budget as real;
    assert x * over == given as real && over * budget as real == tokens as real;
    assert x * tokens as real == given as real * budget as real;
    assert x >= 0.0;
    var n := Trunc(x);
    Between(n, x, tokens, given, budget);
    if floor > n {
      assert (n + 1) * tokens <= (floor + 1) * tokens;
    }
  }

  lemma Times(a: real, b: real, t: real)
    ensures t > 0.0 && a <= b ==> a * t <= b * t
    ensures t > 0.0 && a < b ==> a * t < b * t
  {
    if t > 0.0 {
      assert b * t - a * t == (b - a) * t;
    }
  }

  lemma Between(n: int, x: real, tokens: nat, given: nat, budget: nat)
    requires n as real <= x < (n + 1) as real && tokens > 0
    requires x * tokens as real == given as real * budget as real
    ensures n * tokens <= given * budget < (n + 1) * tokens
  {
    var t := tokens as real;
    Times(n as real, x, t);
    Times(x, (n + 1) as real, t);
    assert (n * tokens) as real == (n as real) * t;
    assert ((n + 1) * tokens) as real == ((n + 1) as real) * t;
    assert (given * budget) as real == given as real * budget as real;
  }

  /** The budget is the whole part of the window times the ratio, less the answer's share. Over it, three numbers are
      scaled down, with floors of 200 characters, 1 message and 3 messages; within it nothing changes. */
  lemma EffectiveScales(opts: Options, tokens: nat, budget: nat)
    requires opts.contextWindow > 0 && opts.targetRatio >= 0.0 && budget > 0
    requires var share := opts.contextWindow as real * opts.targetRatio - opts.maxTokens as real;
             budget as real <= share < budget as real + 1.0 && share + opts.maxTokens as real >= 0.0
    ensures tokens <= budget ==> Effective(opts, tokens) == opts
    ensures tokens > budget ==>
              var e := Effective(opts, tokens);
              && e == opts.(maxToolResultChars := e.maxToolResultChars, protectRecent := e.protectRecent,
                            hardPruneAfter := e.hardPruneAfter)
              && (opts.maxToolResultChars >= 0 ==>
                    Scaled(e.maxToolResultChars, opts.maxToolResultChars, 200, budget, tokens))
              && (opts.protectRecent >= 0 ==> Scaled(e.protectRecent, opts.protectRecent, 1, budget, tokens))
              && (opts.hardPruneAfter >= 0 ==> Scaled(e.hardPruneAfter, opts.hardPruneAfter, 3, budget, tokens))
  {
    hide Max, Scaled;
    assert Budget(opts) == budget;
    if tokens > budget {
      hide Trunc;
      if opts.maxToolResultChars >= 0 { ScaledDown(opts.maxToolResultChars, 200, budget, tokens); }
      if opts.protectRecent >= 0 { ScaledDown(opts.protectRecent, 1, budget, tokens); }
      if opts.hardPruneAfter >= 0 { ScaledDown(opts.hardPruneAfter, 3, budget, tokens); }
    }
  }

  /** Without a window, or with nothing left of it, the options stand as they are. */
  lemma NoBudgetKept(opts: Options, tokens: nat)
    requires || opts.contextWindow <= 0
             || (opts.targetRatio >= 0.0
                 && opts.contextWindow as real * opts.targetRatio - opts.maxTokens as real < 1.0)
    ensures Effective(opts, tokens) == opts
  {
    hide Max;
    if opts.contextWindow > 0 {
      assert opts.contextWindow as real * opts.targetRatio >= 0.0;
    }
  }

  /** What the budget is held against: of a text its text, of a tool call its input, of a result its content. */
  lemma WeighedReads(m: Message, b: Block)
    requires m.content == [b]
    ensures TokenChunks.Total(Weighed([m])) ==
            (|m.role| + match b
                        case TextBlock(text) => |text|
                        case ToolUse(_, _, input) => |input|
                        case ToolResultBlock(_, content) => |content|) / 4
  {
    var shown := Weighed([m]);
    assert shown == [shown[0]] && |shown[0].content| == 1;
    TokenChunks.TotalOfOne(shown[0]);
    TokenChunks.EstimateReads(m.role, [], shown[0].content[0], []);
    assert shown[0].content == [] + [shown[0].content[0]] + [];
  }

  lemma WeighedAdds(a: seq<Message>, b: seq<Message>)
    ensures TokenChunks.Total(Weighed(a + b)) == TokenChunks.Total(Weighed(a)) + TokenChunks.Total(Weighed(b))
  {
    assert Weighed(a + b) == Weighed(a) + Weighed(b);
    TokenChunks.TotalConcat(Weighed(a), Weighed(b));
  }
}
