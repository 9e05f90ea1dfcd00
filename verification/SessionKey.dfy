/** Session keys: ParseAgentSessionKey and NormalizeSessionKey of `src/session/session_manager.cpp`.

    A handle carries a normalized key, and every later use of the handle normalizes it again. The
    theorem says exactly when the second time changes nothing.
 */
module SessionKeys {
  import opened Text

  datatype ParsedKey = ParsedKey(agent: string, rest: string)

  // ---------------------------------------------------------------- the code's words

  function ToLower(c: char): char {
    if 'A' <= c <= 'Z' then (c as int + 32) as char else c
  }

  function Lower(s: string): (l: string)
    ensures |l| == |s| && forall i :: 0 <= i < |s| ==> l[i] == ToLower(s[i])
  {
    seq(|s|, i requires 0 <= i < |s| => ToLower(s[i]))
  }

  /** Pieces with a colon between them. */
  function JoinColon(p: seq<string>): string {
    if p == [] then ""
    else
      var n := |p| - 1;
      if n == 0 then p[0] else JoinColon(p[..n]) + (":" + p[n])
  }

  /** A text without the colon it may end in. */
  function Dropped(s: string): string {
    if s != "" && s[|s| - 1] == ':' then s[..|s| - 1] else s
  }

  /** What the split-and-join parser of the source returns. */
  function Parse(key: string): Option<ParsedKey> {
    var parts := Trim(Pieces(key, ':'));
    if |parts| < 3 || parts[0] != "agent" || parts[1] == "" then None
    else
      var rest := JoinColon(parts[2..]);
      if rest == "" then None else Some(ParsedKey(parts[1], rest))
  }

  function TrimLeft(s: string): string {
    if s != "" && IsSpace(s[0]) then TrimLeft(s[1..]) else s
  }

  function TrimRight(s: string): (t: string)
    ensures t <= s && (t != "" ==> !IsSpace(t[|t| - 1]))
    ensures s != "" && !IsSpace(s[|s| - 1]) ==> t == s
    ensures s != "" && IsSpace(s[|s| - 1]) ==> |t| < |s|
  {
    if s != "" && IsSpace(s[|s| - 1]) then TrimRight(s[..|s| - 1]) else s
  }

  function Trimmed(key: string): string {
    TrimRight(TrimLeft(key))
  }

  function Wrapped(agent: string, rest: string): string {
    "agent:" + (Lower(agent) + (":" + Lower(rest)))
  }

  /** NormalizeSessionKey, as a function of the key and the default agent. */
  function Normalized(key: string, agent: string): string {
    var t := Trimmed(key);
    if t == "" then Wrapped(agent, "main")
    else match Parse(t)
      case Some(p) => Wrapped(p.agent, p.rest)
      case None => Wrapped(agent, t)
  }

  // ---------------------------------------------------------------- the code

  /** ParseAgentSessionKey. */
  method ParseAgentSessionKey(key: string) returns (parsed: Option<ParsedKey>)
    ensures parsed == Parse(key)
  {
    hide Trim, Pieces;
    if key == "" {
      EmptyKey();
      return None;
    }
    var parts := SplitAt(key, ':');
    if |parts| < 3 {
      return None;
    }
    if parts[0] != "agent" {
      return None;
    }
    var agentId := parts[1];
    if agentId == "" {
      return None;
    }
    var rest := "";
    for i := 2 to |parts|
      invariant rest == JoinColon(parts[2..i])
    {
      assert parts[2..i + 1][..i - 2] == parts[2..i];
      if i > 2 {
        assert (rest + ":") + parts[i] == rest + (":" + parts[i]);
        rest := rest + ":";
      }
      rest := rest + parts[i];
    }
    assert parts[2..|parts|] == parts[2..];
    if rest == "" {
      return None;
    }
    return Some(ParsedKey(agentId, rest));
  }

  lemma EmptyKey()
    ensures |Trim(Pieces("", ':'))| == 0
  {
  }

  /** NormalizeSessionKey. */
  method NormalizeSessionKey(key: string, defaultAgent: string) returns (normalized: string)
    ensures normalized == Normalized(key, defaultAgent)
  {
    hide Parse, Wrapped;
    var trimmed := key;
    while trimmed != "" && IsSpace(trimmed[0])
      invariant TrimLeft(trimmed) == TrimLeft(key)
      decreases |trimmed|
    {
      trimmed := trimmed[1..];
    }
    while trimmed != "" && IsSpace(trimmed[|trimmed| - 1])
      invariant TrimRight(trimmed) == Trimmed(key)
      decreases |trimmed|
    {
      trimmed := trimmed[..|trimmed| - 1];
    }
    if trimmed == "" {
      return Wrapped(defaultAgent, "main");
    }
    var parsed := ParseAgentSessionKey(trimmed);
    if parsed.Some? {
      return Wrapped(parsed.value.agent, parsed.value.rest);
    }
    return Wrapped(defaultAgent, trimmed);
  }

  // ---------------------------------------------------------------- what the parser reads

  lemma {:induction false} JoinCons(x: string, p: seq<string>)
    ensures JoinColon([x] + p) == if p == [] then x else x + (":" + JoinColon(p))
  {
    hide JoinColon;
    if p == [] {
      assert [x] + p == [] + [x];
      JoinNext([], x);
    } else {
      var n := |p| - 1;
      var front, last := p[..n], p[n];
      assert p == front + [last];
      JoinCons(x, front);
      JoinNext([x] + front, last);
      assert [x] + front + [last] == [x] + p;
      JoinNext(front, last);
      if front != [] {
        Regroup(x, ":", JoinColon(front), ":" + last);
      }
    }
  }

  lemma Regroup(a: string, b: string, c: string, d: string)
    ensures (a + (b + c)) + d == a + (b + (c + d))
  {
  }

  lemma JoinNext(p: seq<string>, last: string)
    ensures JoinColon(p + [last]) == if p == [] then last else JoinColon(p) + (":" + last)
  {
    assert (p + [last])[..|p|] == p;
  }

  lemma DroppedBehind(head: string, rest: string)
    ensures Dropped(head + (":" + rest)) == if rest == "" then head else head + (":" + Dropped(rest))
  {
  }

  /** Splitting and joining a text loses a colon at its end, and nothing else. */
  lemma {:induction false} SplitAndJoin(s: string)
    ensures JoinColon(Trim(Pieces(s, ':'))) == Dropped(s)
    ensures Trim(Pieces(s, ':')) == [] <==> s == ""
    decreases |s|
  {
    hide Pieces, Trim, JoinColon, Dropped;
    var n := LineEnd(s, ':');
    if n < |s| {
      var head, rest := s[..n], s[n + 1..];
      assert s == head + (":" + rest);
      FirstPiece(head, rest);
      SplitAndJoin(rest);
      JoinCons(head, Trim(Pieces(rest, ':')));
      DroppedBehind(head, rest);
    } else {
      OnePiece(s);
    }
  }

  lemma OnePiece(s: string)
    requires LineEnd(s, ':') == |s|
    ensures Trim(Pieces(s, ':')) == if s == "" then [] else [s]
    ensures JoinColon(Trim(Pieces(s, ':'))) == s == Dropped(s)
  {
    assert s[..|s|] == s;
  }

  lemma FirstPiece(head: string, rest: string)
    requires ':' !in head
    ensures Pieces(head + (":" + rest), ':') == [head] + Pieces(rest, ':')
    ensures Trim(Pieces(head + (":" + rest), ':')) == [head] + Trim(Pieces(rest, ':'))
  {
    var s := head + (":" + rest);
    assert s[|head|] == ':' && s[..|head|] == head && s[|head| + 1..] == rest;
    LineEndUnique(s, |head|, ':');
    TrimBehind([head], Pieces(rest, ':'));
  }

  /** A key of the agent form is read as its agent and what follows, without a colon at its end. */
  lemma ParseReads(agent: string, tail: string)
    requires ':' !in agent
    ensures Parse("agent:" + (agent + (":" + tail))) ==
            if agent == "" || Dropped(tail) == "" then None else Some(ParsedKey(agent, Dropped(tail)))
  {
    hide Pieces, Trim, LineEnd;
    var key := "agent:" + (agent + (":" + tail));
    assert key == "agent" + (":" + (agent + (":" + tail)));
    FirstPiece("agent", agent + (":" + tail));
    FirstPiece(agent, tail);
    SplitAndJoin(tail);
    var parts, more := Trim(Pieces(key, ':')), Trim(Pieces(tail, ':'));
    assert parts == ["agent"] + ([agent] + more);
    assert more != [] ==> parts[2..] == more;
  }

  // ---------------------------------------------------------------- normalizing again

  /** The agents a key may be wrapped with so that it can be read again. */
  predicate Readable(agent: string) {
    agent != "" && agent[0] != ':'
  }

  lemma CutAgent(agent: string) returns (first: string, more: Option<string>)
    ensures ':' !in first && agent == (if more.Some? then first + (":" + more.value) else first)
    ensures Readable(agent) <==> first != ""
  {
    var n := LineEnd(agent, ':');
    first := agent[..n];
    if n < |agent| {
      more := Some(agent[n + 1..]);
      assert agent == first + (":" + agent[n + 1..]);
    } else {
      more := None;
      assert agent == first;
    }
  }

  lemma LowerKeeps(s: string)
    ensures Lower(s) == "" <==> s == ""
    ensures s != "" ==> (Lower(s)[|s| - 1] == ':' <==> s[|s| - 1] == ':')
    ensures s != "" ==> (IsSpace(Lower(s)[|s| - 1]) <==> IsSpace(s[|s| - 1]))
    ensures Readable(Lower(s)) <==> Readable(s)
  {
  }

  lemma LowerParts(a: string, b: string)
    requires Lower(a + b) == a + b
    ensures Lower(a) == a && Lower(b) == b
  {
    forall i | 0 <= i < |b| ensures Lower(b)[i] == b[i] {
      assert (a + b)[|a| + i] == b[i];
    }
    forall i | 0 <= i < |a| ensures Lower(a)[i] == a[i] {
      assert (a + b)[i] == a[i];
    }
  }

  /** The two ways of seeing the first colon behind "agent:": the agent may hold it. */
  ghost predicate Cut(a: string, r: string, first: string, tail: string)
    requires r != ""
  {
    && a + (":" + r) == first + (":" + tail) && ':' !in first
    && (Lower(first), Lower(tail)) == (first, tail)
    && tail != "" && tail[|tail| - 1] == r[|r| - 1]
    && (Readable(a) <==> first != "")
  }

  lemma CutWrapped(a: string, r: string)
    requires r != "" && Lower(a) == a && Lower(r) == r
    ensures exists first, tail :: Cut(a, r, first, tail)
  {
    hide Lower, Readable, LineEnd;
    var first, more := CutAgent(a);
    var tail := if more.Some? then more.value + (":" + r) else r;
    assert first + (":" + tail) == a + (":" + r);
    LowerParts(first, ":" + tail);
    LowerParts(":", tail);
    assert Cut(a, r, first, tail);
  }

  /** Reading a normalized key that has no space at its end. */
  lemma ReadOnce(first: string, tail: string, n: string, default: string)
    requires n == "agent:" + (first + (":" + tail)) && ':' !in first && tail != ""
    requires Lower(first) == first && Lower(tail) == tail && Trimmed(n) == n
    ensures Normalized(n, default) == n <==> first != "" && tail[|tail| - 1] != ':'
  {
    hide Parse, Lower, Trimmed;
    ParseReads(first, tail);
    if first == "" || Dropped(tail) == "" {
      assert |Normalized(n, default)| == 7 + |Lower(default)| + |n|;
    } else {
    }
  }

  /** A wrapped key read once more, when it has no space at its end. */
  lemma WrappedAgain(agent: string, rest: string, default: string)
    requires rest != "" && !IsSpace(rest[|rest| - 1])
    ensures Normalized(Wrapped(agent, rest), default) == Wrapped(agent, rest) <==>
            Readable(agent) && rest[|rest| - 1] != ':'
  {
    hide Parse, LineEnd, Lower, Readable, Normalized, Trimmed;
    var a, r, n := Lower(agent), Lower(rest), Wrapped(agent, rest);
    LowerKeeps(agent);
    LowerKeeps(rest);
    NothingToTrim(n);
    CutWrapped(a, r);
    var first, tail :| Cut(a, r, first, tail);
    ReadOnce(first, tail, n, default);
  }

  lemma NothingToTrim(n: string)
    ensures n != "" && !IsSpace(n[0]) && !IsSpace(n[|n| - 1]) ==> Trimmed(n) == n
  {
  }

  /** When a normalized key ends in a space, the second time takes the space away. */
  lemma SpaceIsLost(agent: string, rest: string, default: string)
    requires rest != "" && IsSpace(rest[|rest| - 1])
    ensures Normalized(Wrapped(agent, rest), default) != Wrapped(agent, rest)
  {
    hide Parse, Lower, TrimRight, TrimLeft;
    var n := Wrapped(agent, rest);
    LowerKeeps(rest);
    assert n[|n| - 1] == Lower(rest)[|rest| - 1];
    assert TrimLeft(n) == n by { Unspaced(n); }
    var t := Trimmed(n);
    assert |t| < |n|;
    var again := Normalized(n, default);
    if t != "" && Parse(t).None? {
      LowerKeeps(t);
      assert again[|again| - 1] == Lower(t)[|t| - 1];
    } else if t != "" {
      ParsedIsShorter(t);
      assert |again| <= |t|;
    } else {
      assert again[|again| - 1] == Lower("main")[3];
      LowerKeeps("main");
    }
  }

  lemma Unspaced(n: string)
    ensures n != "" && !IsSpace(n[0]) ==> TrimLeft(n) == n
  {
  }

  /** A parsed key is a key of the agent form; a colon at the end may be lost. */
  lemma ParsedIsShorter(key: string)
    requires Parse(key).Some?
    ensures var p := Parse(key).value;
            p.agent != "" && ':' !in p.agent && p.rest != "" &&
            exists tail :: key == "agent:" + (p.agent + (":" + tail)) && p.rest == Dropped(tail)
    ensures 7 + |Parse(key).value.agent| + |Parse(key).value.rest| <= |key|
  {
    hide Dropped, Parse;
    var first, more := CutAgent(key);
    NeedsThreeParts(first, more, key);
    var second, tail := CutAgent(more.value);
    NeedsTail(first, second, tail, more.value);
    assert key == "agent:" + (second + (":" + tail.value));
    ParseReads(second, tail.value);
    DroppedShorter(tail.value);
  }

  lemma NeedsThreeParts(first: string, more: Option<string>, key: string)
    requires ':' !in first && key == (if more.Some? then first + (":" + more.value) else first)
    requires Parse(key).Some?
    ensures more.Some? && first == "agent"
  {
    hide Pieces, Trim, LineEnd, JoinColon;
    OneOf(first, more, key);
    if more.Some? {
      FirstPiece(first, more.value);
    }
  }

  lemma NeedsTail(first: string, second: string, tail: Option<string>, more: string)
    requires ':' !in first && ':' !in second
    requires more == (if tail.Some? then second + (":" + tail.value) else second)
    requires Parse(first + (":" + more)).Some?
    ensures tail.Some?
  {
    hide Pieces, Trim, LineEnd, JoinColon;
    FirstPiece(first, more);
    OneOf(second, tail, more);
  }

  lemma DroppedShorter(s: string)
    ensures |Dropped(s)| <= |s|
  {
  }

  /** A key without a colon is one piece. */
  lemma OneOf(first: string, more: Option<string>, key: string)
    ensures (':' !in first && key == (if more.Some? then first + (":" + more.value) else first)) ==>
              (more.None? ==> |Trim(Pieces(key, ':'))| <= 1)
  {
  }

  /** Normalizing a key twice is normalizing it once exactly when the normalized key can be read again: its
      agent does not start with a colon, and it ends neither in a colon nor in a space. */
  lemma NormalizeTwice(key: string, default: string)
    ensures var n := Normalized(key, default);
            Normalized(n, default) == n <==>
            n[6] != ':' && n[|n| - 1] != ':' && !IsSpace(n[|n| - 1])
  {
    hide Parse, Lower, TrimRight, TrimLeft, Readable;
    var t := Trimmed(key);
    var agent := if t != "" && Parse(t).Some? then Parse(t).value.agent else default;
    var rest := if t == "" then "main" else if Parse(t).Some? then Parse(t).value.rest else t;
    var n := Normalized(key, default);
    assert n == Wrapped(agent, rest);
    if t != "" && Parse(t).Some? {
      ParsedIsShorter(t);
    }
    WrappedEnds(agent, rest);
    if IsSpace(rest[|rest| - 1]) {
      SpaceIsLost(agent, rest, default);
    } else {
      WrappedAgain(agent, rest, default);
    }
  }

  lemma WrappedEnds(agent: string, rest: string)
    requires rest != ""
    ensures var n := Wrapped(agent, rest);
            && |n| > 7 && (n[6] != ':' <==> Readable(agent))
            && (n[|n| - 1] == ':' <==> rest[|rest| - 1] == ':')
            && (IsSpace(n[|n| - 1]) <==> IsSpace(rest[|rest| - 1]))
  {
  }

  /** In terms of the key itself: one of the agent form must not end in two colons, or in a space and a colon;
      any other must not end in a colon at all, and needs a default agent that can be read again. */
  lemma StableExactly(key: string, default: string)
    ensures Normalized(Normalized(key, default), default) == Normalized(key, default) <==>
            var t := Trimmed(key);
            if t != "" && Parse(t).Some? then
              Dropped(t) != "" && Dropped(t)[|Dropped(t)| - 1] != ':' && !IsSpace(Dropped(t)[|Dropped(t)| - 1])
            else Readable(default) && (t == "" || t[|t| - 1] != ':')
  {
    hide Parse, Lower, TrimRight, TrimLeft, Readable, Wrapped;
    var t := Trimmed(key);
    NormalizeTwice(key, default);
    if t != "" && Parse(t).Some? {
      DroppedEnd(t);
      var p := Parse(t).value;
      WrappedEnds(p.agent, p.rest);
    } else {
      WrappedEnds(default, if t == "" then "main" else t);
    }
  }

  /** The rest of a parsed key ends as the key does without one colon at its end. */
  lemma DroppedEnd(key: string)
    requires Parse(key).Some?
    ensures var p, d := Parse(key).value, Dropped(key);
            Readable(p.agent) && p.rest != "" && d != "" && p.rest[|p.rest| - 1] == d[|d| - 1]
  {
    hide Parse;
    ParsedIsShorter(key);
    var p := Parse(key).value;
    var tail :| key == "agent:" + (p.agent + (":" + tail)) && p.rest == Dropped(tail);
    assert tail != "" && key[|key| - 1] == tail[|tail| - 1];
    assert |tail| > 1 ==> key[|key| - 2] == tail[|tail| - 2];
  }

  /** In particular for every key that does not end in a colon, white space aside. */
  lemma PlainKeysAreStable(key: string, default: string)
    requires Readable(default)
    requires Trimmed(key) != "" ==> Trimmed(key)[|Trimmed(key)| - 1] != ':'
    ensures Normalized(Normalized(key, default), default) == Normalized(key, default)
  {
    hide Parse, Lower, TrimRight, TrimLeft, Readable, Normalized;
    var t := Trimmed(key);
    StableExactly(key, default);
    if t != "" && Parse(t).Some? {
      DroppedEnd(t);
    }
  }

  /** A key that is normalized to one session by its handle, and to another when the handle is used. */
  lemma TwoSessions()
    ensures Normalized("notes:", "main") == "agent:main:notes:"
    ensures Normalized("agent:main:notes:", "main") == "agent:main:notes"
  {
    hide Lower, Parse, Pieces, Trim, LineEnd;
    NothingToTrim("notes:");
    NothingToTrim("agent:main:notes:");
    NoAgent();
    ParseReads("main", "notes:");
    assert "agent:" + ("main" + (":" + "notes:")) == "agent:main:notes:";
    assert Dropped("notes:") == "notes";
  }

  lemma NoAgent()
    ensures Parse("notes:").None?
  {
  }

  // ---------------------------------------------------------------- keys as they are written

  ghost predicate Blank(s: string) {
    forall i :: 0 <= i < |s| ==> IsSpace(s[i])
  }

  /** White space around a key does not belong to it. */
  lemma {:induction false} TrimmedReads(left: string, core: string, right: string)
    requires Blank(left) && Blank(right)
    requires core != "" ==> !IsSpace(core[0]) && !IsSpace(core[|core| - 1])
    ensures Trimmed(left + core + right) == core
    decreases |left| + |right|
  {
    hide IsSpace;
    if left != "" {
      assert (left + core + right)[1..] == left[1..] + core + right;
      TrimmedReads(left[1..], core, right);
    } else if right != "" {
      var n := |right| - 1;
      TrimmedReads(left, core, right[..n]);
      RightLonger(core, right);
    } else {
      assert left + core + right == core;
      if core != "" {
        NothingToTrim(core);
      }
    }
  }

  lemma {:induction false} RightLonger(core: string, right: string)
    requires Blank(right) && right != ""
    requires core != "" ==> !IsSpace(core[0])
    ensures Trimmed("" + core + right) == Trimmed("" + core + right[..|right| - 1])
  {
    hide IsSpace;
    var n := |right| - 1;
    assert "" + core + right == core + right && "" + core + right[..n] == core + right[..n];
    if core == "" {
      AllBlank(right);
      AllBlank(right[..n]);
      assert core + right == right && core + right[..n] == right[..n];
    } else {
      Unspaced(core + right);
      Unspaced(core + right[..n]);
      assert (core + right)[..|core + right| - 1] == core + right[..n];
    }
  }

  lemma {:induction false} AllBlank(s: string)
    requires Blank(s)
    ensures TrimLeft(s) == ""
  {
    if s != "" {
      AllBlank(s[1..]);
    }
  }

  /** Letters are made small, one by one. */
  lemma LowerReads(s: string)
    ensures |Lower(s)| == |s|
    ensures forall i :: 0 <= i < |s| ==>
              Lower(s)[i] as int == s[i] as int + if 'A' <= s[i] <= 'Z' then 'a' as int - 'A' as int else 0
  {
  }

  /** How any key is normalized. One that names an agent and a rest keeps both, but for one colon at its end; any
      other becomes the rest of a key of the default agent; and no key at all is its main session. */
  lemma NormalReads(left: string, core: string, right: string, default: string, agent: string, rest: string)
    requires Blank(left) && Blank(right)
    requires core != "" ==> !IsSpace(core[0]) && !IsSpace(core[|core| - 1])
    ensures var n := Normalized(left + core + right, default);
            if core == "" then n == "agent:" + Lower(default) + ":main"
            else
              && (':' !in agent && agent != "" && rest != "" &&
                  (core == "agent:" + agent + ":" + rest + ":"
                   || (core == "agent:" + agent + ":" + rest && rest[|rest| - 1] != ':')) ==>
                    n == "agent:" + Lower(agent) + ":" + Lower(rest))
              && (!AgentForm(core) ==> n == "agent:" + Lower(default) + ":" + Lower(core))
  {
    hide Parse, Lower, Trimmed, IsSpace, Dropped;
    TrimmedReads(left, core, right);
    if core == "" {
      MainIsSmall();
      Colons(Lower(default), "main");
    } else {
      if Parse(core).Some? {
        ParsedForm(core);
      }
      Colons(Lower(default), Lower(core));
      Colons(Lower(agent), Lower(rest));
      if ':' !in agent && agent != "" && rest != "" {
        AgentFormReads(core, agent, rest);
      }
    }
  }

  /** The key names an agent and a rest. */
  ghost predicate AgentForm(core: string) {
    exists agent, rest ::
      && ':' !in agent && agent != "" && rest != "" && rest != ":" && core == "agent:" + agent + (":" + rest)
  }

  lemma ParsedForm(core: string)
    requires Parse(core).Some?
    ensures AgentForm(core)
  {
    hide Parse;
    ParsedIsShorter(core);
    var p := Parse(core).value;
    var tail :| core == "agent:" + (p.agent + (":" + tail)) && p.rest == Dropped(tail);
    assert core == "agent:" + p.agent + (":" + tail);
  }

  lemma AgentFormReads(core: string, agent: string, rest: string)
    requires ':' !in agent && agent != "" && rest != ""
    ensures core == "agent:" + agent + ":" + rest + ":" ==> Parse(core) == Some(ParsedKey(agent, rest))
    ensures core == "agent:" + agent + ":" + rest && rest[|rest| - 1] != ':' ==>
              Parse(core) == Some(ParsedKey(agent, rest))
  {
    hide Parse;
    ParseReads(agent, rest);
    ParseReads(agent, rest + ":");
    assert "agent:" + (agent + (":" + (rest + ":"))) == "agent:" + agent + ":" + rest + ":";
    assert "agent:" + (agent + (":" + rest)) == "agent:" + agent + ":" + rest;
    assert (rest + ":")[..|rest|] == rest;
  }

  lemma Colons(a: string, b: string)
    ensures "agent:" + (a + (":" + b)) == "agent:" + a + ":" + b
    ensures b == "main" ==> "agent:" + a + ":" + b == "agent:" + a + ":main"
  {
  }

  lemma MainIsSmall()
    ensures Lower("main") == "main"
  {
  }
}
