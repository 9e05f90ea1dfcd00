/** Shortening long tool results: truncate_tool_result of `src/core/agent_loop.cpp`, a single pass with
    a circular buffer of offsets, and soft_prune of `src/core/context_pruner.cpp`, the plain
    split-and-join form.
 */
module ToolResult {
  import opened Text

  function LinesMarker(omitted: nat): string {
    "\n... [" + ToString(omitted) + " lines omitted] ...\n\n"
  }

  function BytesMarker(omitted: nat): string {
    "\n... [" + ToString(omitted) + " characters omitted] ...\n\n"
  }

  /** What truncate_tool_result is meant to return, in terms of lines (a newline at the end of the
      text starts one more, empty, line). */
  function Truncated(s: string, maxChars: nat, keep: nat): string {
    var lines := Pieces(s);
    if |s| <= maxChars then s
    else if |lines| <= keep * 2 then
      var half := maxChars / 2;
      s[..half] + BytesMarker(|s| - 2 * half) + s[|s| - half..]
    else Trimmed(lines, keep)
  }

  /** The first and the last `keep` lines, with the number of the others between them. */
  function Trimmed(lines: seq<string>, keep: nat): string
    requires |lines| > keep * 2
  {
    Terminated(lines[..keep]) + LinesMarker(|lines| - keep * 2) + Joined(lines[|lines| - keep..])
  }

  /** What soft_prune is meant to return (a newline at the end of the text starts no line). */
  function SoftPruned(s: string, keep: int): string {
    var lines := Lines(s);
    if |lines| <= keep * 2 then s
    else if keep >= 0 then Trimmed(lines, keep)
    else LinesMarker(|lines| - keep * 2)
  }

  // ---------------------------------------------------------------- the circular buffer

  /** Within one turn of the buffer no two lines share a slot. */
  lemma SlotsDiffer(j: nat, n: nat, k: nat)
    requires k > 0 && j < n < j + k
    ensures j % k != n % k
  {
    var d := n / k - j / k;
    assert d * k == n - j + j % k - n % k;
  }

  lemma ModUnique(n: nat, k: nat, q: nat, r: nat)
    requires k > 0 && n == q * k + r && r < k
    ensures n % k == r
  {
    var d := n / k - q;
    assert d * k == r - n % k;
  }

  lemma SameSlot(n: nat, k: nat)
    requires k > 0 && n >= k
    ensures n % k == (n - k) % k
  {
    var q := (n - k) / k;
    assert (q + 1) * k == q * k + k;
    ModUnique(n, k, q + 1, (n - k) % k);
  }

  /** `at` is where line `j` of the text starts. */
  ghost predicate StartsLine(s: string, lines: seq<string>, at: nat, j: nat) {
    at <= |s| && j < |lines| && s[at..] == Joined(lines[j..])
  }

  /** Every slot of the last turn holds the start of its line. */
  ghost predicate Remembers(s: string, lines: seq<string>, slots: seq<nat>, n: nat) {
    |slots| > 0 && forall j :: 0 <= j < n <= j + |slots| ==> StartsLine(s, lines, slots[j % |slots|], j)
  }

  lemma RemembersNext(s: string, lines: seq<string>, slots: seq<nat>, n: nat, pos: nat)
    requires Remembers(s, lines, slots, n) && StartsLine(s, lines, pos, n)
    ensures Remembers(s, lines, slots[n % |slots| := pos], n + 1)
  {
    var slots' := slots[n % |slots| := pos];
    forall j | 0 <= j < n + 1 <= j + |slots|
      ensures StartsLine(s, lines, slots'[j % |slots|], j)
    {
      if j < n {
        SlotsDiffer(j, n, |slots|);
      }
    }
  }

  /** `pos` is the start of line `n`, just behind the newline of the line before it. */
  ghost predicate AtLine(s: string, lines: seq<string>, pos: nat, n: nat) {
    StartsLine(s, lines, pos, n) && s[..pos] == Terminated(lines[..n])
  }

  /** From the start of one line to the next: the search finds the end of the line, or of the text. */
  lemma AtLineNext(s: string, lines: seq<string>, pos: nat, n: nat)
    requires AtLine(s, lines, pos, n) && '\n' !in lines[n]
    ensures LineEnd(s[pos..]) == |lines[n]|
    ensures n + 1 == |lines| <==> pos + |lines[n]| == |s|
    ensures n + 1 < |lines| ==> AtLine(s, lines, pos + |lines[n]| + 1, n + 1)
  {
    var t, line := s[pos..], lines[n];
    if n + 1 == |lines| {
      assert lines[n..] == [line] && t == line;
      assert t[..|line|] == line;
    } else {
      assert lines[n..][1..] == lines[n + 1..];
      assert t == line + "\n" + Joined(lines[n + 1..]);
      assert t[..|line|] == line && t[|line| + 1..] == s[pos + |line| + 1..];
      assert lines[..n + 1] == lines[..n] + [line];
      TerminatedSnoc(lines[..n], line);
      assert s[..pos + |line| + 1] == s[..pos] + line + "\n";
    }
    LineEndUnique(t, |line|);
  }

  /** What the scan knows after `n` lines, while another one follows. */
  ghost predicate Scanning(s: string, lines: seq<string>, slots: seq<nat>, pos: nat, n: nat, headEnd: nat) {
    && AtLine(s, lines, pos, n)
    && Remembers(s, lines, slots, n)
    && (|slots| <= n ==> AtLine(s, lines, headEnd, |slots|))
  }

  /** What it knows after the last line. */
  ghost predicate Scanned(s: string, lines: seq<string>, slots: seq<nat>, n: nat, headEnd: nat) {
    && n == |lines|
    && Remembers(s, lines, slots, n)
    && (|slots| < n ==> AtLine(s, lines, headEnd, |slots|))
  }

  lemma ScanStart(s: string, slots: seq<nat>)
    requires slots != []
    ensures Scanning(s, Pieces(s), slots, 0, 0, 0)
  {
    JoinedPieces(s);
    assert s[0..] == s && Pieces(s)[0..] == Pieces(s);
  }

  /** One round of the scan, whose search found `nl` (the length of the text for npos). */
  lemma ScanNext(s: string, slots: seq<nat>, pos: nat, n: nat, headEnd: nat, nl: nat, headEnd': nat)
    requires Scanning(s, Pieces(s), slots, pos, n, headEnd)
    requires nl == match Find(s, "\n", pos) case None => |s| case Some(at) => at
    requires headEnd' == if n + 1 == |slots| then nl + 1 else headEnd
    ensures nl <= |s| && n < |Pieces(s)|
    ensures nl < |s| ==> Scanning(s, Pieces(s), slots[n % |slots| := pos], nl + 1, n + 1, headEnd')
    ensures nl == |s| ==> Scanned(s, Pieces(s), slots[n % |slots| := pos], n + 1, headEnd')
  {
    hide Pieces, LineEnd, Joined, Terminated;
    PiecesHaveNoNewline(s);
    FindNewline(s, pos);
    AtLineNext(s, Pieces(s), pos, n);
    RemembersNext(s, Pieces(s), slots, n, pos);
  }

  /** The slot read at the end holds the start of the first line of the tail window. */
  lemma TailSlot(s: string, lines: seq<string>, slots: seq<nat>, n: nat, headEnd: nat)
    requires Scanned(s, lines, slots, n, headEnd)
    ensures n == |lines|
    ensures n > |slots| ==> AtLine(s, lines, headEnd, |slots|)
    ensures n >= |slots| ==> StartsLine(s, lines, slots[n % |slots|], n - |slots|)
  {
    if n >= |slots| {
      SameSlot(n, |slots|);
    }
  }

  /** The scanning pass: the number of lines, the end of the head and the start of the tail window. */
  method ScanLines(result: string, keepLines: nat) returns (totalLines: nat, headEnd: nat, tailStart: nat)
    requires keepLines > 0
    ensures totalLines == |Pieces(result)|
    ensures totalLines > keepLines ==> AtLine(result, Pieces(result), headEnd, keepLines)
    ensures totalLines >= keepLines ==> StartsLine(result, Pieces(result), tailStart, totalLines - keepLines)
  {
    hide *;
    var tailOffsets := new nat[keepLines](_ => 0);
    var pos: nat := 0;
    totalLines, headEnd := 0, 0;
    ScanStart(result, tailOffsets[..]);
    while pos <= |result|
      invariant pos <= |result|
      invariant Scanning(result, Pieces(result), tailOffsets[..], pos, totalLines, headEnd)
      decreases |result| - pos
    {
      var found := Find(result, "\n", pos);
      var nl := if found.Some? then found.value else |result|;
      var end := if totalLines + 1 == keepLines then nl + 1 else headEnd;
      ScanNext(result, tailOffsets[..], pos, totalLines, headEnd, nl, end);
      ghost var slots := tailOffsets[..];
      tailOffsets[totalLines % keepLines] := pos;
      assert tailOffsets[..] == slots[totalLines % keepLines := pos];
      totalLines := totalLines + 1;
      headEnd := end;
      pos := nl + 1;
      if nl == |result| {
        break;
      }
    }
    TailSlot(result, Pieces(result), tailOffsets[..], totalLines, headEnd);
    tailStart := tailOffsets[totalLines % keepLines];
  }

  lemma EndsAreTrimmed(s: string, lines: seq<string>, keep: nat, headEnd: nat, tailStart: nat)
    requires |lines| > keep * 2
    requires AtLine(s, lines, headEnd, keep) && StartsLine(s, lines, tailStart, |lines| - keep)
    ensures headEnd <= |s| && tailStart <= |s|
    ensures s[..headEnd] + LinesMarker(|lines| - keep * 2) + s[tailStart..] == Trimmed(lines, keep)
  {
  }

  /** truncate_tool_result. */
  method TruncateToolResult(result: string, maxChars: nat, keepLines: nat) returns (out: string)
    requires keepLines > 0
    ensures out == Truncated(result, maxChars, keepLines)
  {
    hide LinesMarker, BytesMarker, Trimmed, Pieces, AtLine, StartsLine;
    if |result| <= maxChars {
      return result;
    }
    var totalLines, headEnd, tailStart := ScanLines(result, keepLines);
    if totalLines <= keepLines * 2 {
      var half := maxChars / 2;
      var omittedBytes := |result| - 2 * half;
      out := result[..half];
      out := out + BytesMarker(omittedBytes);
      out := out + result[|result| - half..];
      return;
    }
    var omitted := totalLines - keepLines * 2;
    EndsAreTrimmed(result, Pieces(result), keepLines, headEnd, tailStart);
    out := result[..headEnd];
    out := out + LinesMarker(omitted);
    out := out + result[tailStart..];
  }

  // ---------------------------------------------------------------- what is kept and what is counted

  function Breaks(s: string): nat {
    multiset(s)['\n']
  }

  lemma NoBreak(s: string)
    ensures Breaks(s) == 0 <==> '\n' !in s
  {
    assert forall c :: c in multiset(s) <==> c in s;
  }

  lemma {:induction false} JoinedBreaks(p: seq<string>)
    requires forall i :: 0 <= i < |p| ==> '\n' !in p[i]
    ensures Breaks(Terminated(p)) == |p|
    ensures p != [] ==> Breaks(Joined(p)) == |p| - 1
    ensures p != [] ==> Terminated(p) != "" && Last(Terminated(p)) == '\n'
  {
    hide Breaks;
    if p == [] {
      LineBreaks("", "");
    } else {
      NoBreak(p[0]);
      JoinedBreaks(p[1..]);
      LineBreaks(p[0], Terminated(p[1..]));
      LineBreaks(p[0], Joined(p[1..]));
    }
  }

  lemma LineBreaks(line: string, rest: string)
    ensures Breaks(line + "\n" + rest) == Breaks(line) + 1 + Breaks(rest)
    ensures Breaks("") == 0
  {
  }

  lemma {:induction false} JoinedAppend(p: seq<string>, q: seq<string>)
    requires q != []
    ensures Joined(p + q) == Terminated(p) + Joined(q)
  {
    if p == [] {
      assert p + q == q;
    } else {
      assert (p + q)[0] == p[0] && (p + q)[1..] == p[1..] + q;
      JoinedAppend(p[1..], q);
      Grouped(p[0] + "\n", Terminated(p[1..]), Joined(q));
    }
  }

  lemma PiecesBreaks(s: string)
    ensures |Pieces(s)| == Breaks(s) + 1
  {
    hide Pieces;
    PiecesHaveNoNewline(s);
    JoinedPieces(s);
    JoinedBreaks(Pieces(s));
  }

  /** What is kept of a text that is cut at lines: a head of `keep` lines and a tail of as many, each cut behind the
      end of a line, and between them the number of lines in the middle. */
  ghost predicate LineCut(s: string, keep: nat, cut: string, head: string, omitted: string, tail: string) {
    && s == head + omitted + tail
    && Breaks(head) == keep && head != "" && Last(head) == '\n' && Breaks(tail) == keep - 1
    && omitted != "" && Last(omitted) == '\n'
    && cut == head + "\n... [" + ToString(Breaks(omitted)) + " lines omitted] ...\n\n" + tail
  }

  ghost predicate CutAtLines(s: string, keep: nat, cut: string) {
    exists head, omitted, tail :: LineCut(s, keep, cut, head, omitted, tail)
  }

  lemma LinesConserve(lines: seq<string>, keep: nat)
    requires keep > 0 && |lines| > keep * 2 && forall i :: 0 <= i < |lines| ==> '\n' !in lines[i]
    ensures CutAtLines(Joined(lines), keep, Trimmed(lines, keep))
  {
    hide *;
    var n := |lines| - keep;
    var head, omitted, tail := Terminated(lines[..keep]), Terminated(lines[keep..n]), Joined(lines[n..]);
    ThreeParts(lines, keep);
    JoinedBreaks(lines[..keep]);
    JoinedBreaks(lines[keep..n]);
    JoinedBreaks(lines[n..]);
    TrimmedReads(lines, keep);
    LineCutOf(Joined(lines), keep, Trimmed(lines, keep), head, omitted, tail);
  }

  lemma ThreeParts(lines: seq<string>, keep: nat)
    requires keep > 0 && |lines| > keep * 2
    ensures var n := |lines| - keep;
            Joined(lines) == Terminated(lines[..keep]) + Terminated(lines[keep..n]) + Joined(lines[n..])
  {
    hide *;
    var n := |lines| - keep;
    var p, q, r := lines[..keep], lines[keep..n], lines[n..];
    Slices(lines, keep, n);
    JoinedThree(p, q, r);
  }

  lemma JoinedThree(p: seq<string>, q: seq<string>, r: seq<string>)
    requires r != []
    ensures Joined(p + (q + r)) == Terminated(p) + Terminated(q) + Joined(r)
  {
    hide *;
    JoinedAppend(p, q + r);
    JoinedAppend(q, r);
    Grouped(Terminated(p), Terminated(q), Joined(r));
  }

  lemma Slices<T>(s: seq<T>, k: nat, n: nat)
    ensures k <= n <= |s| ==> s == s[..k] + (s[k..n] + s[n..])
  {
  }

  lemma Grouped(a: string, b: string, c: string)
    ensures a + (b + c) == a + b + c
  {
  }

  lemma LineCutOf(s: string, keep: nat, cut: string, head: string, omitted: string, tail: string)
    requires s == head + omitted + tail && keep > 0
    requires Breaks(head) == keep && head != "" && Last(head) == '\n' && Breaks(tail) == keep - 1
    requires omitted != "" && Last(omitted) == '\n'
    requires cut == head + "\n... [" + ToString(Breaks(omitted)) + " lines omitted] ...\n\n" + tail
    ensures CutAtLines(s, keep, cut)
  {
    hide Breaks, Last, ToString;
    assert LineCut(s, keep, cut, head, omitted, tail);
  }

  lemma TrimmedReads(lines: seq<string>, keep: nat)
    requires |lines| > keep * 2
    ensures var n := |lines| - keep;
            Trimmed(lines, keep) ==
            Terminated(lines[..keep]) + "\n... [" + ToString(n - keep) + " lines omitted] ...\n\n" + Joined(lines[n..])
  {
    hide Terminated, Joined, ToString, LinesMarker;
    LinesMarkerReads(Terminated(lines[..keep]), |lines| - keep * 2, Joined(lines[|lines| - keep..]));
  }

  lemma LinesMarkerReads(head: string, n: nat, tail: string)
    ensures head + LinesMarker(n) + tail == head + "\n... [" + ToString(n) + " lines omitted] ...\n\n" + tail
  {
    hide ToString;
  }

  lemma BytesMarkerReads(head: string, n: nat, tail: string)
    ensures head + BytesMarker(n) + tail == head + "\n... [" + ToString(n) + " characters omitted] ...\n\n" + tail
  {
    hide ToString;
  }

  /** A text over the limit with more than twice `keep` lines is cut so. */
  lemma TruncatedConserves(s: string, maxChars: nat, keep: nat)
    requires keep > 0 && |s| > maxChars && Breaks(s) + 1 > keep * 2
    ensures CutAtLines(s, keep, Truncated(s, maxChars, keep))
  {
    hide Pieces, Breaks, Trimmed, BytesMarker, CutAtLines;
    PiecesBreaks(s);
    PiecesHaveNoNewline(s);
    JoinedPieces(s);
    LinesConserve(Pieces(s), keep);
  }

  /** In the byte fallback nothing is lost count of: the text is the two ends that are kept, each half the limit,
      and, between them, just as much as the printed number says. */
  ghost predicate ByteCut(s: string, half: nat, cut: string, head: string, omitted: string, tail: string) {
    && s == head + omitted + tail && |head| == |tail| == half
    && cut == head + "\n... [" + ToString(|omitted|) + " characters omitted] ...\n\n" + tail
  }

  lemma FallbackConserves(s: string, maxChars: nat, keep: nat)
    requires |s| > maxChars && Breaks(s) + 1 <= keep * 2
    ensures exists head, omitted, tail ::
              ByteCut(s, maxChars / 2, Truncated(s, maxChars, keep), head, omitted, tail)
  {
    hide Pieces, BytesMarker, Trimmed, Breaks, ToString;
    PiecesBreaks(s);
    var half := maxChars / 2;
    var head, omitted, tail := s[..half], s[half..|s| - half], s[|s| - half..];
    BytesMarkerReads(head, |omitted|, tail);
    assert ByteCut(s, half, Truncated(s, maxChars, keep), head, omitted, tail);
  }

  lemma ShortKept(s: string, maxChars: nat, keep: nat)
    ensures |s| <= maxChars ==> Truncated(s, maxChars, keep) == s
  {
    hide Pieces, Trimmed, BytesMarker;
  }

  /** The text without a newline at its end. */
  ghost predicate Unended(s: string, t: string) {
    t != "" && (s == t + "\n" || (s == t && Last(t) != '\n'))
  }

  /** soft_prune cuts in the same way, whatever the length, once the text is rid of a newline at its end. */
  lemma SoftConserves(s: string, t: string, keep: nat)
    requires Unended(s, t) && keep > 0 && Breaks(t) + 1 > keep * 2
    ensures CutAtLines(t, keep, SoftPruned(s, keep))
  {
    hide Pieces, Breaks, Trimmed, Last, Lines, LinesMarker, CutAtLines;
    SoftLines(s, t);
    PiecesBreaks(t);
    PiecesHaveNoNewline(t);
    JoinedPieces(t);
    LinesConserve(Pieces(t), keep);
  }

  lemma SoftLines(s: string, t: string)
    requires Unended(s, t)
    ensures Lines(s) == Pieces(t)
  {
    hide Pieces;
    if s == t {
      LastPieceEmpty(t);
    } else {
      PiecesConcat(t, "\n");
      assert "" + "\n" + "" == "\n";
      PiecesOfLine("", "");
      assert Last(Pieces(t)) + "" == Last(Pieces(t));
      assert Pieces(s) == Pieces(t) + [""];
    }
  }

  /** A text with few lines is left alone. */
  lemma FewLinesKept(s: string, t: string, keep: nat)
    requires Unended(s, t) && Breaks(t) < keep * 2
    ensures SoftPruned(s, keep) == s
  {
    hide Pieces, Trimmed, Breaks, LinesMarker, Lines;
    SoftLines(s, t);
    PiecesBreaks(t);
  }

  /** Asked to keep no lines it keeps none, and of a negative number it counts more than there were. */
  lemma NothingKept(s: string, t: string, keep: int)
    requires Unended(s, t) && keep <= 0
    ensures SoftPruned(s, keep) == "\n... [" + ToString(Breaks(t) + 1 - keep * 2) + " lines omitted] ...\n\n"
  {
    hide Pieces, Breaks, ToString, Lines, Trimmed;
    SoftLines(s, t);
    PiecesBreaks(t);
    Bare(LinesMarker(Breaks(t) + 1 - keep * 2));
    if keep == 0 {
      TrimmedToNothing(Lines(s));
    }
  }

  lemma Bare(text: string)
    ensures "" + text + "" == text
  {
  }

  lemma TrimmedToNothing(lines: seq<string>)
    requires lines != []
    ensures Trimmed(lines, 0) == "" + LinesMarker(|lines|) + ""
  {
    assert lines[..0] == [] && lines[|lines|..] == [];
  }

  // ---------------------------------------------------------------- soft_prune

  /** ContextPruner::soft_prune. */
  method SoftPrune(content: string, keepLines: int) returns (result: string)
    ensures result == SoftPruned(content, keepLines)
  {
    hide Terminated, Joined, LinesMarker, Lines;
    var lines := Lines(content);
    var total := |lines|;
    if total <= keepLines * 2 {
      return content;
    }
    var head := KeepHead(lines, keepLines);
    var omitted := total - keepLines * 2;
    var tail := KeepTail(lines, keepLines);
    if keepLines < 0 {
      assert head + LinesMarker(omitted) + tail == LinesMarker(omitted);
    }
    return head + LinesMarker(omitted) + tail;
  }

  method KeepHead(lines: seq<string>, keep: int) returns (head: string)
    requires keep <= |lines|
    ensures head == if keep >= 0 then Terminated(lines[..keep]) else ""
  {
    head := "";
    var i := 0;
    while i < keep
      invariant 0 <= i <= |lines| && (keep > 0 ==> i <= keep)
      invariant head == Terminated(lines[..i])
      invariant keep <= 0 ==> i == 0
    {
      TerminatedNext(lines, i);
      head := head + lines[i] + "\n";
      i := i + 1;
    }
  }

  method KeepTail(lines: seq<string>, keep: int) returns (tail: string)
    requires keep <= |lines|
    ensures tail == if keep >= 0 then Joined(lines[|lines| - keep..]) else ""
  {
    tail := "";
    var i := |lines| - keep;
    while i < |lines|
      invariant 0 <= i
      invariant keep >= 0 ==> i <= |lines| && tail + Joined(lines[i..]) == Joined(lines[|lines| - keep..])
      invariant keep < 0 ==> i > |lines| && tail == ""
    {
      tail := tail + lines[i];
      if i < |lines| - 1 {
        tail := tail + "\n";
      }
      i := i + 1;
    }
  }

  /** The two forms agree on a text that is long enough to be cut at lines exactly when it does not end in a
      newline. */
  lemma AgreesWithSoftPrune(s: string, maxChars: nat, keep: nat)
    requires keep > 0 && |s| > maxChars && |Pieces(s)| > keep * 2
    ensures Truncated(s, maxChars, keep) == SoftPruned(s, keep) <==> s[|s| - 1] != '\n'
  {
    hide Trimmed, Pieces;
    LastPieceEmpty(s);
    var p, l := Pieces(s), Lines(s);
    if s[|s| - 1] == '\n' {
      assert p == l + [""];
      if |l| > keep * 2 {
        OneMoreLine(l, "", keep);
      } else {
        CutShows(s, keep);
      }
    } else {
      assert p == l;
    }
  }

  /** Leaving out one line always shows: the marker starts with a newline, and is longer than an empty line. */
  lemma CutShows(s: string, keep: nat)
    requires keep > 0 && |Pieces(s)| == keep * 2 + 1
    ensures Trimmed(Pieces(s), keep) != s
  {
    hide Pieces, LinesMarker;
    var p := Pieces(s);
    var head, line, tail := Terminated(p[..keep]), p[keep], Joined(p[keep + 1..]);
    PiecesHaveNoNewline(s);
    JoinedPieces(s);
    MiddleLine(p, keep);
    MarkerStarts();
    assert s == head + (line + "\n" + tail);
    assert Trimmed(p, keep) == head + (LinesMarker(1) + tail);
    if line != "" {
      assert s[|head|] == line[0] && Trimmed(p, keep)[|head|] == LinesMarker(1)[0];
    }
  }

  lemma MarkerStarts()
    ensures |LinesMarker(1)| > 1 && LinesMarker(1)[0] == '\n'
  {
  }

  /** A text cut in three at a line: the lines before it, the line, the lines after. */
  lemma {:induction false} MiddleLine(p: seq<string>, n: nat)
    requires n + 1 < |p|
    ensures Joined(p) == Terminated(p[..n]) + (p[n] + "\n" + Joined(p[n + 1..]))
  {
    if n == 0 {
    } else {
      MiddleLine(p[1..], n - 1);
      assert p[1..][..n - 1] == p[..n][1..] && p[1..][n..] == p[n + 1..];
    }
  }

  /** One more line always shows: the printed number is another one. */
  lemma OneMoreLine(lines: seq<string>, more: string, keep: nat)
    requires |lines| > keep * 2
    ensures Trimmed(lines + [more], keep) != Trimmed(lines, keep)
  {
    var p := lines + [more];
    assert p[..keep] == lines[..keep];
    MarkersDiffer(Terminated(p[..keep]), |p| - keep * 2, Joined(p[|p| - keep..]),
                  |lines| - keep * 2, Joined(lines[|lines| - keep..]));
  }

  lemma MarkersDiffer(head: string, a: nat, t: string, b: nat, u: string)
    requires a != b
    ensures head + LinesMarker(a) + t != head + LinesMarker(b) + u
  {
    hide ToString;
    var open, close := "\n... [", " lines omitted] ...\n\n";
    var x, y := head + LinesMarker(a) + t, head + LinesMarker(b) + u;
    assert x == (head + open) + (ToString(a) + (close + t));
    assert y == (head + open) + (ToString(b) + (close + u));
    if x == y {
      var n := |head + open|;
      assert ToString(a) + (close + t) == x[n..] == y[n..] == ToString(b) + (close + u);
      PrintedNumberIsRead(a, close + t, b, close + u);
      assert false;
    }
  }
}
