/** The allowlist glob matcher of `src/security/exec_approval.cpp`. */
module Glob {
  // `Matches` is the meaning the allowlist promises. The loop tries a literal match before it looks at a star, so a
  // star of the pattern that faces a star of the text is consumed as an ordinary character; `Decides` is the meaning
  // with that rule. The loop, which remembers only the last star, is proved to decide `Decides` for every input, and
  // the two meanings are compared exactly.

  /** A pattern character and a text character that the first branch of the loop accepts. */
  predicate Agrees(pc: char, tc: char) {
    pc == tc || pc == '?'
  }

  /** The promised meaning: `*` stands for any text, `?` for any one character. */
  ghost predicate Matches(pattern: string, text: string)
    decreases |pattern|
  {
    if pattern == "" then text == ""
    else if pattern[0] == '*' then exists k :: 0 <= k <= |text| && Matches(pattern[1..], text[k..])
    else text != "" && Agrees(pattern[0], text[0]) && Matches(pattern[1..], text[1..])
  }

  /** The same, except that a star facing a star is an ordinary character. */
  ghost predicate Decides(pattern: string, text: string)
    decreases |pattern|
  {
    if pattern == "" then text == ""
    else if text != "" && Agrees(pattern[0], text[0]) then Decides(pattern[1..], text[1..])
    else pattern[0] == '*' && exists k :: 0 <= k <= |text| && Decides(pattern[1..], text[k..])
  }

  /** The pattern matches some suffix of the text. */
  ghost predicate SomeSuffix(pattern: string, text: string) {
    exists k :: 0 <= k <= |text| && Decides(pattern, text[k..])
  }

  /** The pattern `a` agrees with `s` one character at a time. */
  predicate Fits(a: string, s: string) {
    |a| == |s| && forall j :: 0 <= j < |a| ==> Agrees(a[j], s[j])
  }

  /** Taking away a segment that fits changes nothing for the loop. */
  lemma {:induction false} FittingPrefix(a: string, q: string, s: string, t: string)
    requires Fits(a, s)
    ensures Decides(a + q, s + t) <==> Decides(q, t)
    decreases |a|
  {
    if a == "" {
      assert a + q == q && s + t == t;
    } else {
      FittingPrefix(a[1..], q, s[1..], t);
      assert (a + q)[1..] == a[1..] + q && (s + t)[1..] == s[1..] + t;
    }
  }

  /** Why the last star is enough: once the pattern segment `a` fits the text segment `s`, starting
      `a` anywhere later leaves for the rest of the pattern no more than what follows `s`. */
  lemma {:induction false} NeverBehind(a: string, q: string, s: string, t: string, k: nat)
    requires Fits(a, s) && k <= |s + t|
    requires Decides(a + q, (s + t)[k..])
    ensures SomeSuffix(q, t)
    decreases |a|
  {
    var u := (s + t)[k..];
    if a == "" {
      assert a + q == q && s + t == t;
    } else {
      assert (a + q)[1..] == a[1..] + q;
      if u != "" && Agrees(a[0], u[0]) {
        assert u[1..] == (s[1..] + t)[k..];
        NeverBehind(a[1..], q, s[1..], t, k);
      } else {
        var d :| 0 <= d <= |u| && Decides((a + q)[1..], u[d..]);
        assert k > 0;
        assert u[d..] == (s[1..] + t)[k - 1 + d..];
        NeverBehind(a[1..], q, s[1..], t, k - 1 + d);
      }
    }
  }

  /** The same when the next pattern character is a star: everything is left to that star. */
  lemma LastStarIsEnough(a: string, q: string, s: string, t: string)
    requires Fits(a, s) && q != "" && q[0] == '*'
    requires SomeSuffix(a + q, s + t)
    ensures SomeSuffix(q[1..], t)
  {
    var k :| 0 <= k <= |s + t| && Decides(a + q, (s + t)[k..]);
    NeverBehind(a, q, s, t, k);
    var m :| 0 <= m <= |t| && Decides(q, t[m..]);
    if t[m..] != "" && Agrees(q[0], t[m..][0]) {
      assert t[m..][1..] == t[m + 1..];
    } else {
      var d :| 0 <= d <= |t[m..]| && Decides(q[1..], t[m..][d..]);
      assert t[m..][d..] == t[m + d..];
    }
  }

  /** At the end of the text only stars may be left of the pattern. */
  lemma {:induction false} OnlyStarsLeft(pattern: string)
    ensures Decides(pattern, "") <==> forall j :: 0 <= j < |pattern| ==> pattern[j] == '*'
  {
    if pattern == "" {
    } else {
      OnlyStarsLeft(pattern[1..]);
      assert forall k :: 0 <= k <= |""| ==> ""[k..] == "";
      if forall j :: 0 <= j < |pattern[1..]| ==> pattern[1..][j] == '*' {
        assert Decides(pattern[1..], ""[0..]);
        assert pattern[0] == '*' ==> forall j :: 0 <= j < |pattern| ==> j == 0 || pattern[j] == pattern[1..][j - 1];
      } else {
        var j :| 0 <= j < |pattern[1..]| && pattern[1..][j] != '*';
        assert pattern[j + 1] != '*';
      }
    }
  }

  /** When the suffix at `u` itself fails, the search goes on with the shorter ones. */
  lemma DropOne(q: string, text: string, u: nat)
    requires u < |text| && !Decides(q, text[u..])
    ensures SomeSuffix(q, text[u..]) <==> SomeSuffix(q, text[u + 1..])
  {
    assert text[u..][0..] == text[u..];
    if SomeSuffix(q, text[u..]) {
      var k :| 0 <= k <= |text[u..]| && Decides(q, text[u..][k..]);
      assert text[u..][k..] == text[u + 1..][k - 1..];
    }
    if SomeSuffix(q, text[u + 1..]) {
      var k :| 0 <= k <= |text[u + 1..]| && Decides(q, text[u + 1..][k..]);
      assert text[u..][k + 1..] == text[u + 1..][k..];
    }
  }

  /** What the loop knows at every iteration: the question still to be answered, and, once a star is
      remembered, that the pattern since that star fits the text since its mark. */
  ghost predicate OnTrack(pattern: string, text: string, pi: int, ti: int, starP: int, starT: int) {
    && 0 <= pi <= |pattern| && 0 <= ti <= |text|
    && -1 <= starP < pi && 0 <= starT <= ti
    && (starP < 0 ==> (Decides(pattern, text) <==> Decides(pattern[pi..], text[ti..])))
    && (starP >= 0 ==>
          && Fits(pattern[starP + 1..pi], text[starT..ti])
          && (Decides(pattern, text) <==> SomeSuffix(pattern[starP + 1..], text[starT..])))
  }

  lemma StepCharacter(pattern: string, text: string, pi: int, ti: int, starP: int, starT: int)
    requires OnTrack(pattern, text, pi, ti, starP, starT)
    requires pi < |pattern| && ti < |text| && Agrees(pattern[pi], text[ti])
    ensures OnTrack(pattern, text, pi + 1, ti + 1, starP, starT)
  {
    assert pattern[pi..][1..] == pattern[pi + 1..] && text[ti..][1..] == text[ti + 1..];
    if starP >= 0 {
      assert pattern[starP + 1..pi + 1] == pattern[starP + 1..pi] + [pattern[pi]];
      assert text[starT..ti + 1] == text[starT..ti] + [text[ti]];
    }
  }

  lemma StepStar(pattern: string, text: string, pi: int, ti: int, starP: int, starT: int)
    requires OnTrack(pattern, text, pi, ti, starP, starT)
    requires pi < |pattern| && ti < |text| && pattern[pi] == '*' && text[ti] != '*'
    ensures OnTrack(pattern, text, pi + 1, ti, pi, ti)
  {
    var q, t := pattern[pi..], text[ti..];
    assert q[1..] == pattern[pi + 1..];
    assert Decides(q, t) <==> SomeSuffix(q[1..], t);
    if starP >= 0 {
      var a, s := pattern[starP + 1..pi], text[starT..ti];
      assert a + q == pattern[starP + 1..] && s + t == text[starT..];
      if SomeSuffix(a + q, s + t) {
        LastStarIsEnough(a, q, s, t);
      } else {
        FittingPrefix(a, q, s, t);
        assert (s + t)[0..] == s + t;
      }
    }
  }

  lemma StepBack(pattern: string, text: string, pi: int, ti: int, starP: int, starT: int)
    requires OnTrack(pattern, text, pi, ti, starP, starT)
    requires starP >= 0 && ti < |text|
    requires pi == |pattern| || !(Agrees(pattern[pi], text[ti]) || pattern[pi] == '*')
    ensures OnTrack(pattern, text, starP + 1, starT + 1, starP, starT + 1)
  {
    var a, q, s, t := pattern[starP + 1..pi], pattern[pi..], text[starT..ti], text[ti..];
    assert a + q == pattern[starP + 1..] && s + t == text[starT..];
    FittingPrefix(a, q, s, t);
    DropOne(a + q, text, starT);
  }

  lemma StepEnd(pattern: string, text: string, pi: int, ti: int, starP: int, starT: int)
    requires OnTrack(pattern, text, pi, ti, starP, starT)
    requires ti == |text|
    ensures Decides(pattern, text) <==> Decides(pattern[pi..], "")
  {
    var q, t := pattern[pi..], text[ti..];
    assert t == "";
    if starP >= 0 {
      var a, s := pattern[starP + 1..pi], text[starT..ti];
      assert a + q == pattern[starP + 1..] && s + t == text[starT..];
      FittingPrefix(a, q, s, t);
      assert (s + t)[0..] == s + t;
      if SomeSuffix(a + q, s + t) {
        var k :| 0 <= k <= |s + t| && Decides(a + q, (s + t)[k..]);
        NeverBehind(a, q, s, t, k);
      }
    }
  }

  lemma StepFail(pattern: string, text: string, pi: int, ti: int, starT: int)
    requires OnTrack(pattern, text, pi, ti, -1, starT)
    requires ti < |text| && (pi == |pattern| || !(Agrees(pattern[pi], text[ti]) || pattern[pi] == '*'))
    ensures !Decides(pattern, text)
  {
  }

  /** ExecAllowlist::glob_match: the loop with one remembered star (`starP` is -1 for npos). */
  method GlobMatch(pattern: string, text: string) returns (matched: bool)
    ensures matched <==> Decides(pattern, text)
  {
    hide Decides, SomeSuffix, Fits;
    var pi, ti := 0, 0;
    var starP, starT := -1, 0;
    while ti < |text|
      invariant OnTrack(pattern, text, pi, ti, starP, starT)
      decreases |pattern| - starP, |text| - starT, |text| - ti
    {
      if pi < |pattern| && (pattern[pi] == text[ti] || pattern[pi] == '?') {
        StepCharacter(pattern, text, pi, ti, starP, starT);
        pi := pi + 1;
        ti := ti + 1;
      } else if pi < |pattern| && pattern[pi] == '*' {
        StepStar(pattern, text, pi, ti, starP, starT);
        starP := pi;
        starT := ti;
        pi := pi + 1;
      } else if starP >= 0 {
        StepBack(pattern, text, pi, ti, starP, starT);
        pi := starP + 1;
        starT := starT + 1;
        ti := starT;
      } else {
        StepFail(pattern, text, pi, ti, starT);
        return false;
      }
    }
    StepEnd(pattern, text, pi, ti, starP, starT);
    OnlyStarsLeft(pattern[pi..]);
    ghost var stop := pi;
    while pi < |pattern| && pattern[pi] == '*'
      invariant stop <= pi <= |pattern|
      invariant forall j :: stop <= j < pi ==> pattern[j] == '*'
    {
      pi := pi + 1;
    }
    assert pi < |pattern| ==> pattern[stop..][pi - stop] != '*';
    matched := pi == |pattern|;
  }

  /** Whatever the loop accepts, the promised meaning accepts. */
  lemma {:induction false} DecidesIsSound(pattern: string, text: string)
    requires Decides(pattern, text)
    ensures Matches(pattern, text)
    decreases |pattern|
  {
    if pattern == "" {
    } else {
      if text != "" && Agrees(pattern[0], text[0]) {
        DecidesIsSound(pattern[1..], text[1..]);
        if pattern[0] == '*' {
          assert Matches(pattern[1..], text[1..]);
        }
      } else {
        var k :| 0 <= k <= |text| && Decides(pattern[1..], text[k..]);
        DecidesIsSound(pattern[1..], text[k..]);
      }
    }
  }

  /** Where no star of the pattern can face a star of the text, nothing is missed. */
  lemma {:induction false} MatchesIsDecided(pattern: string, text: string)
    requires '*' !in text || '*' !in pattern
    requires Matches(pattern, text)
    ensures Decides(pattern, text)
    decreases |pattern|
  {
    if pattern == "" {
    } else {
      if pattern[0] == '*' {
        var k :| 0 <= k <= |text| && Matches(pattern[1..], text[k..]);
        MatchesIsDecided(pattern[1..], text[k..]);
      } else {
        MatchesIsDecided(pattern[1..], text[1..]);
      }
    }
  }

  /** The loop's answer is the promised one. */
  ghost predicate Right(pattern: string, text: string) {
    Decides(pattern, text) <==> Matches(pattern, text)
  }

  function Questions(n: nat): (s: string)
    ensures |s| == n && forall j :: 0 <= j < n ==> s[j] == '?'
  {
    seq(n, _ => '?')
  }

  /** A pattern without stars matches exactly the texts it fits. */
  lemma {:induction false} StarlessFits(pattern: string, text: string)
    requires '*' !in pattern
    ensures Matches(pattern, text) <==> Fits(pattern, text)
    decreases |pattern|
  {
    if pattern == "" || text == "" {
    } else {
      StarlessFits(pattern[1..], text[1..]);
      assert pattern == [pattern[0]] + pattern[1..] && text == [text[0]] + text[1..];
    }
  }

  /** A prefix of the pattern and a prefix of the text that match may be put in front of any match. */
  lemma {:induction false} MatchesAppend(p: string, q: string, s: string, t: string)
    requires Matches(p, s) && Matches(q, t)
    ensures Matches(p + q, s + t)
    decreases |p|
  {
    if p == "" {
      assert p + q == q && s + t == t;
    } else {
      assert (p + q)[1..] == p[1..] + q;
      if p[0] == '*' {
        var k :| 0 <= k <= |s| && Matches(p[1..], s[k..]);
        MatchesAppend(p[1..], q, s[k..], t);
        assert (s + t)[k..] == s[k..] + t;
      } else {
        MatchesAppend(p[1..], q, s[1..], t);
        assert (s + t)[1..] == s[1..] + t;
      }
    }
  }

  /** A text with a star, and a pattern whose star it shadows: question marks up to the star, then
      a star, then one question mark for every remaining character. */
  lemma ShadowingPattern(u: string, v: string) returns (pattern: string)
    ensures !Right(pattern, u + ("*" + v))
  {
    var head, tail := Questions(|u|), Questions(|v| + 1);
    pattern := head + ("*" + tail);
    StarlessFits(head, u);
    StarlessFits(tail, "*" + v);
    assert ("*" + tail)[1..] == tail && ("*" + v)[0..] == "*" + v;
    MatchesAppend(head, "*" + tail, u, "*" + v);

    FittingPrefix(head, "*" + tail, u, "*" + v);
    FittingPrefix("*", tail, "*", v);
    if Decides(tail, v) {
      DecidesIsSound(tail, v);
      StarlessFits(tail, v);
    }
  }

  /** A pattern with a star always has a text that shadows it: the pattern itself up to its last
      star, one more character, and the rest of the pattern. */
  lemma ShadowedText(head: string, rest: string)
    requires '*' !in rest
    ensures !Right(head + ("*" + rest), head + ("*" + ("x" + rest)))
  {
    MatchesItself(head);
    MatchesItself(rest);
    assert ("*" + rest)[1..] == rest && ("*" + ("x" + rest))[2..] == rest;
    assert Matches("*" + rest, "*" + ("x" + rest));
    MatchesAppend(head, "*" + rest, head, "*" + ("x" + rest));

    FittingPrefix(head, "*" + rest, head, "*" + ("x" + rest));
    FittingPrefix("*", rest, "*", "x" + rest);
    if Decides(rest, "x" + rest) {
      DecidesIsSound(rest, "x" + rest);
      StarlessFits(rest, "x" + rest);
    }
  }

  lemma {:induction false} MatchesItself(s: string)
    ensures Matches(s, s)
    decreases |s|
  {
    if s == "" {
    } else {
      MatchesItself(s[1..]);
    }
  }

  /** The place of the last star. */
  ghost function LastStar(pattern: string): (at: nat)
    requires '*' in pattern
    ensures at < |pattern| && pattern[at] == '*' && '*' !in pattern[at + 1..]
    decreases |pattern|
  {
    var n := |pattern| - 1;
    if pattern[n] == '*' then n
    else
      assert pattern == pattern[..n] + [pattern[n]];
      LastStar(pattern[..n])
  }

  /** For a text, the loop is right about every pattern exactly when the text has no star. */
  lemma ExactForText(text: string)
    ensures (forall pattern :: Right(pattern, text)) <==> '*' !in text
  {
    if '*' in text {
      var at :| 0 <= at < |text| && text[at] == '*';
      assert text == text[..at] + ("*" + text[at + 1..]);
      var pattern := ShadowingPattern(text[..at], text[at + 1..]);
      assert !Right(pattern, text);
    } else {
      forall pattern ensures Right(pattern, text) {
        if Decides(pattern, text) { DecidesIsSound(pattern, text); }
        if Matches(pattern, text) { MatchesIsDecided(pattern, text); }
      }
    }
  }

  /** For a pattern, the loop is right about every text exactly when the pattern has no star. */
  lemma ExactForPattern(pattern: string)
    ensures (forall text :: Right(pattern, text)) <==> '*' !in pattern
  {
    if '*' in pattern {
      var at := LastStar(pattern);
      var head, rest := pattern[..at], pattern[at + 1..];
      assert pattern == head + ("*" + rest);
      ShadowedText(head, rest);
    } else {
      forall text ensures Right(pattern, text) {
        if Decides(pattern, text) { DecidesIsSound(pattern, text); }
        if Matches(pattern, text) { MatchesIsDecided(pattern, text); }
      }
    }
  }

  /** One allowlist pattern and a command it wrongly refuses. */
  lemma GitStarRefused()
    ensures Matches("git *", "git *x") && !Decides("git *", "git *x")
  {
    hide Matches, Decides;
    ShadowedText("git ", "");
    assert "git " + ("*" + "") == "git *" && "git " + ("*" + ("x" + "")) == "git *x";
    if Decides("git *", "git *x") {
      DecidesIsSound("git *", "git *x");
    }
  }

  /** ExecAllowlist: an ordered list of patterns. */
  class ExecAllowlist {
    var patterns: seq<string>

    constructor ()
      ensures patterns == []
    {
      patterns := [];
    }

    method AddPattern(pattern: string)
      modifies this
      ensures patterns == old(patterns) + [pattern]
    {
      patterns := patterns + [pattern];
    }

    /** ExecAllowlist::Matches. An accepted command always has the promised meaning of some pattern;
        a command without a star is accepted exactly when it has. */
    method Accepts(command: string) returns (accepted: bool)
      ensures accepted <==> exists i :: 0 <= i < |patterns| && Decides(patterns[i], command)
      ensures accepted ==> exists i :: 0 <= i < |patterns| && Matches(patterns[i], command)
      ensures '*' !in command ==>
                (accepted <==> exists i :: 0 <= i < |patterns| && Matches(patterns[i], command))
    {
      ExactForText(command);
      for i := 0 to |patterns|
        invariant forall j :: 0 <= j < i ==> !Decides(patterns[j], command)
        invariant '*' !in command ==> forall j :: 0 <= j < i ==> !Matches(patterns[j], command)
      {
        assert '*' !in command ==> Right(patterns[i], command);
        var hit := GlobMatch(patterns[i], command);
        if hit {
          DecidesIsSound(patterns[i], command);
          return true;
        }
      }
      return false;
    }
  }

  // ---------------------------------------------------------------- patterns, piece by piece

  /** What a pattern means: a piece without stars is read off character by character, and the first star behind it
      stands for any text. */
  lemma {:induction false} MatchesReads(front: string, rest: string, text: string)
    requires '*' !in front
    ensures Matches(front, text) <==>
            |front| == |text| && forall i :: 0 <= i < |front| ==> front[i] == '?' || front[i] == text[i]
    ensures Matches(front + "*" + rest, text) <==>
            && |front| <= |text| && (forall i :: 0 <= i < |front| ==> front[i] == '?' || front[i] == text[i])
            && exists k :: |front| <= k <= |text| && Matches(rest, text[k..])
    decreases |front|
  {
    var p := front + "*" + rest;
    if front == "" {
      assert p[0] == '*' && p[1..] == rest;
    } else {
      assert p[0] == front[0] && p[1..] == front[1..] + "*" + rest;
      if text != "" {
        MatchesReads(front[1..], rest, text[1..]);
        if |front| <= |text| {
          Shift(front[1..], text[1..], front, text);
        }
        Further(rest, front, text);
      }
    }
  }

  lemma Shift(a: string, s: string, front: string, text: string)
    requires front != "" && text != "" && a == front[1..] && s == text[1..] && |a| <= |s|
    ensures (forall i :: 0 <= i < |front| ==> front[i] == '?' || front[i] == text[i]) <==>
            (front[0] == '?' || front[0] == text[0]) &&
            forall i :: 0 <= i < |a| ==> a[i] == '?' || a[i] == s[i]
  {
    assert forall i :: 0 < i < |front| ==> front[i] == a[i - 1] && text[i] == s[i - 1];
    assert forall i :: 0 <= i < |a| ==> front[i + 1] == a[i] && text[i + 1] == s[i];
  }

  lemma Further(rest: string, front: string, text: string)
    requires front != "" && text != ""
    ensures (exists k :: |front| <= k <= |text| && Matches(rest, text[k..])) <==>
            exists k :: |front[1..]| <= k <= |text[1..]| && Matches(rest, text[1..][k..])
  {
    if k :| |front| <= k <= |text| && Matches(rest, text[k..]) {
      assert text[1..][k - 1..] == text[k..];
    }
    if k :| |front[1..]| <= k <= |text[1..]| && Matches(rest, text[1..][k..]) {
      assert text[1..][k..] == text[k + 1..];
    }
  }
}
