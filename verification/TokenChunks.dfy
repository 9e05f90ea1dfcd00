/** Splitting a conversation by token weight: `src/core/multi_stage_compaction.cpp`, with the token
    estimate of `src/core/context_pruner.cpp`.
 */
module TokenChunks {

  import opened Text

  /** A content block, as far as the estimate looks at it; `inputDump` is the serialized tool input. */
  datatype Block = Block(text: string, content: string, inputDump: Option<string>)

  datatype Message = Message(role: string, content: seq<Block>)

  function BlockChars(blocks: seq<Block>): nat {
    if blocks == [] then 0
    else
      var b := blocks[|blocks| - 1];
      BlockChars(blocks[..|blocks| - 1]) + |b.text| + |b.content| +
      if b.inputDump.Some? then |b.inputDump.value| else 0
  }

  function TokensOf(msg: Message): nat {
    (|msg.role| + BlockChars(msg.content)) / 4
  }

  function Total(msgs: seq<Message>): nat {
    if msgs == [] then 0 else Total(msgs[..|msgs| - 1]) + TokensOf(msgs[|msgs| - 1])
  }

  function Flatten(chunks: seq<seq<Message>>): seq<Message> {
    if chunks == [] then [] else Flatten(chunks[..|chunks| - 1]) + chunks[|chunks| - 1]
  }

  lemma {:induction false} TotalConcat(a: seq<Message>, b: seq<Message>)
    ensures Total(a + b) == Total(a) + Total(b)
  {
    if b == [] {
      assert a + b == a;
    } else {
      var n := |b| - 1;
      assert (a + b)[..|a + b| - 1] == a + b[..n];
      TotalConcat(a, b[..n]);
    }
  }

  lemma {:induction false} FlattenFront(chunk: seq<Message>, chunks: seq<seq<Message>>)
    ensures Flatten([chunk] + chunks) == chunk + Flatten(chunks)
  {
    if chunks == [] {
      assert [chunk] + chunks == [chunk] && ([chunk])[..0] == [];
      assert Flatten([]) + chunk == chunk + Flatten([]);
    } else {
      var n := |chunks| - 1;
      assert ([chunk] + chunks)[..n + 1] == [chunk] + chunks[..n];
      FlattenFront(chunk, chunks[..n]);
      assert chunk + (Flatten(chunks[..n]) + chunks[n]) == (chunk + Flatten(chunks[..n])) + chunks[n];
    }
  }

  lemma FlattenEmpty(chunks: seq<seq<Message>>)
    ensures (forall i :: 0 <= i < |chunks| ==> chunks[i] != []) ==> (Flatten(chunks) == [] <==> chunks == [])
  {
  }

  lemma FlattenSnoc(chunks: seq<seq<Message>>, chunk: seq<Message>)
    ensures Flatten(chunks + [chunk]) == Flatten(chunks) + chunk
  {
    assert (chunks + [chunk])[..|chunks|] == chunks;
  }

  lemma {:induction false} BlocksAdd(a: seq<Block>, b: seq<Block>)
    ensures BlockChars(a + b) == BlockChars(a) + BlockChars(b)
  {
    if b == [] {
      assert a + b == a;
    } else {
      var n := |b| - 1;
      assert (a + b)[..|a + b| - 1] == a + b[..n];
      BlocksAdd(a, b[..n]);
    }
  }

  /** A message weighs a quarter of its characters: role, texts, results and tool inputs, wherever they stand. */
  lemma EstimateReads(role: string, front: seq<Block>, b: Block, rest: seq<Block>)
    ensures var others := BlockChars(front) + BlockChars(rest);
            var input := match b.inputDump case None => 0 case Some(dump) => |dump|;
            var t := TokensOf(Message(role, front + [b] + rest));
            4 * t <= |role| + others + |b.text| + |b.content| + input < 4 * t + 4
    ensures TokensOf(Message(role, [])) == |role| / 4
  {
    BlocksAdd(front + [b], rest);
    BlocksAdd(front, [b]);
    assert [b][..0] == [];
  }

  method EstimateMessage(msg: Message) returns (tokens: nat)
    ensures tokens == TokensOf(msg)
  {
    var chars := |msg.role|;
    for i := 0 to |msg.content|
      invariant chars == |msg.role| + BlockChars(msg.content[..i])
    {
      assert msg.content[..i + 1][..i] == msg.content[..i];
      chars := chars + |msg.content[i].text| + |msg.content[i].content|;
      if msg.content[i].inputDump.Some? {
        chars := chars + |msg.content[i].inputDump.value|;
      }
    }
    assert msg.content[..|msg.content|] == msg.content;
    tokens := chars / 4;
  }

  lemma FlattenOne(msgs: seq<Message>)
    ensures Flatten([msgs]) == msgs
  {
    assert [msgs][..0] == [];
  }

  method EstimateTokens(msgs: seq<Message>) returns (total: nat)
    ensures total == Total(msgs)
  {
    total := 0;
    for i := 0 to |msgs|
      invariant total == Total(msgs[..i])
    {
      assert msgs[..i + 1][..i] == msgs[..i];
      var t := EstimateMessage(msgs[i]);
      total := total + t;
    }
    assert msgs[..|msgs|] == msgs;
  }

  // ---------------------------------------------------------------- chunks under a limit

  /** A chunk a caller may send: one message, or messages within the limit. */
  ghost predicate Sendable(chunk: seq<Message>, limit: int) {
    chunk != [] && (|chunk| == 1 || Total(chunk) <= limit)
  }

  ghost predicate Partition(chunks: seq<seq<Message>>, msgs: seq<Message>, limit: int) {
    Flatten(chunks) == msgs && forall i :: 0 <= i < |chunks| ==> Sendable(chunks[i], limit)
  }

  /** The chunk has no room for the first message of the next one. */
  ghost predicate NoRoom(chunk: seq<Message>, next: seq<Message>, limit: int) {
    next != [] && Total(chunk) + TokensOf(next[0]) > limit
  }

  ghost predicate Full(chunks: seq<seq<Message>>, limit: int) {
    forall i, j :: 0 <= i && j == i + 1 < |chunks| ==> NoRoom(chunks[i], chunks[j], limit)
  }

  lemma TotalOfOne(msg: Message)
    ensures Total([msg]) == TokensOf(msg)
  {
    assert ([msg])[..0] == [];
  }

  /** A sendable chunk that starts no later than a full one cannot end after it. */
  lemma SendableStops(o: seq<Message>, rest: seq<Message>, behind: seq<Message>, f: seq<Message>,
                      g: seq<Message>, after: seq<Message>, limit: int)
    requires o + rest == behind + f + (g + after)
    requires f != [] && Sendable(o, limit) && NoRoom(f, g, limit)
    ensures |o| <= |behind + f|
  {
    var n := |behind + f|;
    if |o| > n {
      var whole := behind + f + (g + after);
      assert o == whole[..|o|];
      assert o[..n] == behind + f && o[n] == g[0];
      assert o == (behind + f + [g[0]]) + o[n + 1..];
      TotalConcat(behind + f + [g[0]], o[n + 1..]);
      TotalConcat(behind + f, [g[0]]);
      TotalConcat(behind, f);
      TotalOfOne(g[0]);
      assert false;
    }
  }

  /** Full chunks stay ahead of any other partition: one that still has at least as much to cover
      needs at least as many chunks. */
  lemma {:induction false} FullIsAhead(full: seq<seq<Message>>, other: seq<seq<Message>>,
                                       behind: seq<Message>, limit: int)
    requires Full(full, limit) && Partition(full, Flatten(full), limit)
    requires Partition(other, behind + Flatten(full), limit)
    ensures |full| <= |other|
    decreases |other|
  {
    hide Total, Flatten, TokensOf, Full, Partition, NoRoom;
    if full == [] {
    } else {
      var f, fs := full[0], full[1..];
      FullTail(full, limit);
      var all := behind + Flatten(full);
      assert all == behind + f + Flatten(fs);
      PartitionTail(other, all, limit);
      var o, n := other[0], |behind + f|;
      assert |o| <= n by {
        if fs != [] {
          assert all == o + all[|o|..];
          FullTail(fs, limit);
          SendableStops(o, all[|o|..], behind, f, fs[0], Flatten(fs[1..]), limit);
        } else {
          NothingLeft();
        }
      }
      assert all[|o|..] == (behind + f)[|o|..] + Flatten(fs);
      FullIsAhead(fs, other[1..], (behind + f)[|o|..], limit);
    }
  }

  lemma NothingLeft()
    ensures Flatten([]) == [] && Total([]) == 0
  {
  }

  lemma FullTail(full: seq<seq<Message>>, limit: int)
    requires full != [] && Full(full, limit) && Partition(full, Flatten(full), limit)
    ensures full[0] != [] && Flatten(full) == full[0] + Flatten(full[1..])
    ensures Full(full[1..], limit) && Partition(full[1..], Flatten(full[1..]), limit)
    ensures full[1..] != [] ==> NoRoom(full[0], full[1..][0], limit)
  {
    assert full == [full[0]] + full[1..];
    FlattenFront(full[0], full[1..]);
    if full[1..] != [] {
      assert NoRoom(full[0], full[1], limit);
    }
  }

  lemma PartitionTail(chunks: seq<seq<Message>>, msgs: seq<Message>, limit: int)
    requires Partition(chunks, msgs, limit) && msgs != []
    ensures chunks != [] && Sendable(chunks[0], limit)
    ensures |chunks[0]| <= |msgs| && msgs[..|chunks[0]|] == chunks[0]
    ensures Partition(chunks[1..], msgs[|chunks[0]|..], limit)
  {
    assert chunks == [chunks[0]] + chunks[1..];
    FlattenFront(chunks[0], chunks[1..]);
  }

  /** The state of the chunking loop once `done` has been taken in. */
  ghost predicate Building(result: seq<seq<Message>>, current: seq<Message>, done: seq<Message>, limit: int) {
    if done == [] then result == [] && current == []
    else current != [] && Partition(result + [current], done, limit) && Full(result + [current], limit)
  }

  /** Appending to the last chunk, which has room or was empty. */
  lemma ChunkGrows(r: seq<seq<Message>>, c: seq<Message>, done: seq<Message>, msg: Message, limit: int)
    requires Building(r, c, done, limit) && (c == [] || Total(c) + TokensOf(msg) <= limit)
    ensures Building(r, c + [msg], done + [msg], limit)
  {
    hide Total, Flatten, TokensOf;
    TotalConcat(c, [msg]);
    TotalOfOne(msg);
    FlattenSnoc(r, c);
    FlattenSnoc(r, c + [msg]);
    assert Flatten(r) + (c + [msg]) == (Flatten(r) + c) + [msg];
    var was, now := r + [c], r + [c + [msg]];
    if done == [] {
      NothingLeft();
    } else {
      assert Sendable(was[|r|], limit);
    }
    forall i | 0 <= i < |now| ensures Sendable(now[i], limit) {
      assert i < |r| ==> now[i] == was[i];
    }
    forall i, j | 0 <= i && j == i + 1 < |now| ensures NoRoom(now[i], now[j], limit) {
      assert NoRoom(was[i], was[j], limit);
    }
  }

  /** Opening a new chunk, where the last one has no room. */
  lemma ChunkOpens(r: seq<seq<Message>>, c: seq<Message>, done: seq<Message>, msg: Message, limit: int)
    requires Building(r, c, done, limit) && c != [] && Total(c) + TokensOf(msg) > limit
    ensures Building(r + [c], [msg], done + [msg], limit)
  {
    hide Total, Flatten, TokensOf;
    FlattenSnoc(r + [c], [msg]);
    var was, now := r + [c], r + [c] + [[msg]];
    forall i | 0 <= i < |now| ensures Sendable(now[i], limit) {
      assert i < |was| ==> now[i] == was[i];
    }
    forall i, j | 0 <= i && j == i + 1 < |now| ensures NoRoom(now[i], now[j], limit) {
      assert j < |was| ==> NoRoom(was[i], was[j], limit);
    }
  }

  /** ChunkByMaxTokens: a partition into sendable chunks, and no other has fewer. */
  method ChunkByMaxTokens(messages: seq<Message>, maxTokens: int) returns (result: seq<seq<Message>>)
    ensures messages == [] ==> result == []
    ensures maxTokens <= 0 && messages != [] ==> result == [messages]
    ensures maxTokens > 0 ==> Partition(result, messages, maxTokens) && Full(result, maxTokens)
    ensures maxTokens > 0 ==>
              forall other :: Partition(other, messages, maxTokens) ==> |result| <= |other|
  {
    if messages == [] {
      return [];
    }
    if maxTokens <= 0 {
      return [messages];
    }
    hide Total, Flatten, TokensOf;
    result := [];
    var current, tokens := [], 0;
    NothingLeft();
    for i := 0 to |messages|
      invariant tokens == Total(current)
      invariant Building(result, current, messages[..i], maxTokens)
    {
      var msg := messages[i];
      assert messages[..i + 1] == messages[..i] + [msg];
      var t := EstimateMessage(msg);
      if current != [] && tokens + t > maxTokens {
        ChunkOpens(result, current, messages[..i], msg, maxTokens);
        result := result + [current];
        current, tokens := [], 0;
        assert [] + [msg] == [msg];
      } else {
        ChunkGrows(result, current, messages[..i], msg, maxTokens);
      }
      TotalConcat(current, [msg]);
      TotalOfOne(msg);
      current := current + [msg];
      tokens := tokens + t;
    }
    assert messages[..|messages|] == messages;
    if current != [] {
      result := result + [current];
    }
    forall other | Partition(other, messages, maxTokens) ensures |result| <= |other| {
      assert messages == [] + Flatten(result);
      FullIsAhead(result, other, [], maxTokens);
    }
  }

  // ---------------------------------------------------------------- equal shares

  function Share(total: nat, parts: int): (target: nat)
    requires parts > 0
    ensures target >= 1
  {
    if total / parts >= 1 then total / parts else 1
  }

  /** The share is the greatest number that fits into the total so many times, or one. */
  lemma ShareReads(total: nat, parts: int)
    requires parts > 0
    ensures var target := Share(total, parts);
            total < (target + 1) * parts && (target > 1 ==> target * parts <= total)
  {
    var q := total / parts;
    assert q * parts <= total < (q + 1) * parts;
    if q < 1 {
      assert (q + 1) * parts == parts;
    }
  }

  /** Every chunk but the last reaches the target, and, while cuts are left, not before its last message. */
  ghost predicate CutAtTarget(chunks: seq<seq<Message>>, target: nat, parts: int) {
    && (forall i :: 0 <= i < |chunks| ==> chunks[i] != [])
    && (forall i :: 0 <= i < |chunks| - 1 ==> Total(chunks[i]) >= target)
    && (forall i :: 0 <= i < |chunks| && i < parts - 1 ==> Total(chunks[i][..|chunks[i]| - 1]) < target)
  }

  /** The state of the sharing loop once `done` has been taken in. */
  ghost predicate Sharing(result: seq<seq<Message>>, current: seq<Message>, done: seq<Message>,
                          target: nat, parts: int) {
    && Flatten(result) + current == done
    && |result| <= parts - 1
    && CutAtTarget(result, target, parts)
    && (result != [] ==> Total(result[|result| - 1]) >= target)
    && (|result| < parts - 1 ==> Total(current) < target)
  }

  lemma CutSnoc(chunks: seq<seq<Message>>, chunk: seq<Message>, target: nat, parts: int)
    requires CutAtTarget(chunks, target, parts) && chunk != []
    requires chunks != [] ==> Total(chunks[|chunks| - 1]) >= target
    requires |chunks| < parts - 1 ==> Total(chunk[..|chunk| - 1]) < target
    ensures CutAtTarget(chunks + [chunk], target, parts)
  {
    hide Total;
  }

  lemma ShareStep(r0: seq<seq<Message>>, c0: seq<Message>, done: seq<Message>, msg: Message,
                  r1: seq<seq<Message>>, c1: seq<Message>, target: nat, parts: int)
    requires Sharing(r0, c0, done, target, parts)
    requires if Total(c0 + [msg]) >= target && |r0| < parts - 1 then r1 == r0 + [c0 + [msg]] && c1 == []
             else r1 == r0 && c1 == c0 + [msg]
    requires target > 0
    ensures Total([]) == 0 && Sharing(r1, c1, done + [msg], target, parts)
  {
    hide Flatten, CutAtTarget, TokensOf;
    assert (c0 + [msg])[..|c0 + [msg]| - 1] == c0;
    assert Flatten(r0) + (c0 + [msg]) == done + [msg];
    if r1 != r0 {
      FlattenSnoc(r0, c0 + [msg]);
      CutSnoc(r0, c0 + [msg], target, parts);
    }
  }

  lemma NothingShared(target: nat, parts: int)
    ensures target > 0 && parts > 1 ==> Total([]) == 0 && Sharing([], [], [], target, parts)
  {
  }

  lemma ShareEnd(result: seq<seq<Message>>, current: seq<Message>, done: seq<Message>, target: nat, parts: int)
    requires Sharing(result, current, done, target, parts) && done != []
    ensures var chunks := if current == [] then result else result + [current];
            Flatten(chunks) == done && 1 <= |chunks| <= parts && CutAtTarget(chunks, target, parts)
  {
    hide Total, CutAtTarget, Flatten;
    if current != [] {
      FlattenSnoc(result, current);
      assert |result| < parts - 1 ==> Total(current[..|current| - 1]) < target by {
        PrefixTotal(current, |current| - 1);
      }
      CutSnoc(result, current, target, parts);
    } else {
      NothingLeft();
    }
  }

  /** SplitByTokenShare: at most `parts` chunks that concatenate to the input, each cut as soon as it
      reaches the share. */
  method SplitByTokenShare(messages: seq<Message>, parts: int) returns (result: seq<seq<Message>>)
    ensures Flatten(result) == messages
    ensures parts <= 1 || messages == [] ==> result == [messages]
    ensures parts > 1 && messages != [] ==>
              1 <= |result| <= parts && CutAtTarget(result, Share(Total(messages), parts), parts)
  {
    hide *;
    if parts <= 1 || messages == [] {
      FlattenOne(messages);
      return [messages];
    }
    var total := EstimateTokens(messages);
    var target := Share(total, parts);
    result := [];
    var current, tokens := [], 0;
    NothingShared(target, parts);
    assert messages[..0] == [];
    for i := 0 to |messages|
      invariant tokens == Total(current)
      invariant |result| <= i
      invariant Sharing(result, current, messages[..i], target, parts)
    {
      var msg := messages[i];
      ghost var r0, c0 := result, current;
      var t := EstimateMessage(msg);
      TotalConcat(current, [msg]);
      TotalOfOne(msg);
      current := current + [msg];
      tokens := tokens + t;
      if tokens >= target && |result| < parts - 1 {
        result := result + [current];
        current, tokens := [], 0;
      }
      assert messages[..i + 1] == messages[..i] + [msg];
      ShareStep(r0, c0, messages[..i], msg, result, current, target, parts);
    }
    assert messages[..|messages|] == messages;
    ShareEnd(result, current, messages, target, parts);
    if current != [] {
      result := result + [current];
    }
  }

  lemma {:induction false} PrefixTotal(msgs: seq<Message>, n: nat)
    requires n <= |msgs|
    ensures Total(msgs[..n]) <= Total(msgs)
  {
    assert msgs == msgs[..n] + msgs[n..];
    TotalConcat(msgs[..n], msgs[n..]);
  }

  /** The cut rule leaves no choice: two splits that obey it are the same split. */
  lemma {:induction false} CutIsUnique(a: seq<seq<Message>>, b: seq<seq<Message>>, target: nat, parts: int)
    requires CutAtTarget(a, target, parts) && CutAtTarget(b, target, parts)
    requires |a| <= parts && |b| <= parts
    requires Flatten(a) == Flatten(b)
    ensures a == b
    decreases |a|
  {
    hide Total, Flatten;
    FlattenEmpty(a);
    FlattenEmpty(b);
    if a == [] {
    } else {
      FlattenFront(a[0], a[1..]);
      FlattenFront(b[0], b[1..]);
      assert a == [a[0]] + a[1..] && b == [b[0]] + b[1..];
      FirstCutNotLonger(a, b, target, parts);
      FirstCutNotLonger(b, a, target, parts);
      var n := |a[0]|;
      assert a[0] == Flatten(a)[..n] && b[0] == Flatten(b)[..n];
      assert Flatten(a[1..]) == Flatten(a)[n..] && Flatten(b[1..]) == Flatten(b)[n..];
      CutTail(a, target, parts);
      CutTail(b, target, parts);
      CutIsUnique(a[1..], b[1..], target, parts - 1);
    }
  }

  lemma CutTail(a: seq<seq<Message>>, target: nat, parts: int)
    ensures a != [] && CutAtTarget(a, target, parts) ==> CutAtTarget(a[1..], target, parts - 1)
  {
  }

  /** Were the first chunk of `b` longer, it would have gone past the target, or covered everything. */
  lemma FirstCutNotLonger(a: seq<seq<Message>>, b: seq<seq<Message>>, target: nat, parts: int)
    requires a != [] && b != [] && |a| <= parts
    requires CutAtTarget(a, target, parts) && CutAtTarget(b, target, parts)
    requires Flatten(a) == Flatten(b)
    ensures |b[0]| <= |a[0]|
  {
    hide Total, Flatten;
    FlattenFront(a[0], a[1..]);
    FlattenFront(b[0], b[1..]);
    assert a == [a[0]] + a[1..] && b == [b[0]] + b[1..];
    if |a| == 1 {
      NothingLeft();
      assert Flatten(a) == a[0];
    } else if |b[0]| > |a[0]| {
      LongerWeighs(a[0], Flatten(a[1..]), b[0], Flatten(b[1..]));
      assert false;
    }
  }

  /** The longer of two prefixes of one list still weighs as much without its last message. */
  lemma LongerWeighs(x: seq<Message>, afterX: seq<Message>, y: seq<Message>, afterY: seq<Message>)
    requires x + afterX == y + afterY && |y| > |x|
    ensures Total(y[..|y| - 1]) >= Total(x)
  {
    assert y[..|y| - 1][..|x|] == (y + afterY)[..|x|] == (x + afterX)[..|x|] == x;
    PrefixTotal(y[..|y| - 1], |x|);
  }
}
