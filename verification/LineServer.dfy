/** Line framing of the plugin host's RPC connection: processBuffer of `sidecar/src/rpc-server.ts`.

    What is done with a line (handleLine) is modelled as appending it to `handled`.
 */
module LineServer {
  import opened Text

  /** White space and line ends, as String.prototype.trim removes them. */
  predicate IsBlank(c: char) {
    '\t' <= c <= '\r' || c == ' ' || c == '\U{00A0}' || c == '\U{1680}' || '\U{2000}' <= c <= '\U{200A}' ||
    c == '\U{2028}' || c == '\U{2029}' || c == '\U{202F}' || c == '\U{205F}' || c == '\U{3000}' || c == '\U{FEFF}'
  }

  function TrimBlanks(s: string): string {
    if s == "" then ""
    else if IsBlank(s[0]) then TrimBlanks(s[1..])
    else if IsBlank(s[|s| - 1]) then TrimBlanks(s[..|s| - 1])
    else s
  }

  /** The lines that are handed on: trimmed, and not empty then. */
  function Handed(lines: seq<string>): seq<string> {
    if lines == [] then []
    else
      var line := TrimBlanks(lines[|lines| - 1]);
      Handed(lines[..|lines| - 1]) + if |line| > 0 then [line] else []
  }

  lemma {:induction false} HandedConcat(a: seq<string>, b: seq<string>)
    ensures Handed(a + b) == Handed(a) + Handed(b)
  {
    if b == [] {
      assert a + b == a;
    } else {
      assert (a + b)[..|a + b| - 1] == a + b[..|b| - 1];
      HandedConcat(a, b[..|b| - 1]);
    }
  }

  /** The complete lines of a text. */
  function Complete(s: string): seq<string> {
    Pieces(s)[..|Pieces(s)| - 1]
  }

  class RpcServer {
    var buffer: string
    var handled: seq<string>

    constructor ()
      ensures buffer == "" && handled == []
    {
      buffer, handled := "", [];
    }

    method ProcessBuffer()
      modifies this
      ensures buffer == Last(Pieces(old(buffer)))
      ensures handled == old(handled) + Handed(Complete(old(buffer)))
    {
      hide *;
      ghost var before := handled;
      NoLines(buffer);
      while true
        invariant Last(Pieces(buffer)) == Last(Pieces(old(buffer)))
        invariant handled + Handed(Complete(buffer)) == before + Handed(Complete(old(buffer)))
        decreases |buffer|
      {
        assert buffer[0..] == buffer;
        FindNewline(buffer, 0);
        var newlineIdx := Find(buffer, "\n", 0);
        if newlineIdx.None? {
          NoLines(buffer);
          break;
        }
        NextLine(buffer, newlineIdx.value);
        var line := TrimBlanks(buffer[..newlineIdx.value]);
        buffer := buffer[newlineIdx.value + 1..];
        if |line| > 0 {
          handled := handled + [line];
        }
      }
    }

    /** The data callback. */
    method OnData(chunk: string)
      modifies this
      ensures buffer == Last(Pieces(old(buffer) + chunk))
      ensures handled == old(handled) + Handed(Complete(old(buffer) + chunk))
    {
      buffer := buffer + chunk;
      ProcessBuffer();
    }

    /** Any sequence of chunks: what has been handled and what waits in the buffer depend only on the
        text, not on how it was cut. */
    method Receive(chunks: seq<string>)
      requires buffer == "" && handled == []
      modifies this
      ensures handled == Handed(Complete(Whole(chunks)))
      ensures buffer == Last(Pieces(Whole(chunks)))
    {
      hide Pieces, TrimBlanks;
      NoText();
      for i := 0 to |chunks|
        invariant handled == Handed(Complete(Whole(chunks[..i])))
        invariant buffer == Last(Pieces(Whole(chunks[..i])))
      {
        assert chunks[..i + 1][..i] == chunks[..i];
        CompleteConcat(Whole(chunks[..i]), chunks[i]);
        OnData(chunks[i]);
      }
      assert chunks[..|chunks|] == chunks;
    }
  }

  function Whole(chunks: seq<string>): string {
    if chunks == [] then "" else Whole(chunks[..|chunks| - 1]) + chunks[|chunks| - 1]
  }

  lemma NoText()
    ensures Complete("") == [] && Last(Pieces("")) == ""
  {
    PiecesOfLine("", "");
  }

  lemma NoLines(s: string)
    ensures LineEnd(s) == |s| ==> Complete(s) == [] && Handed(Complete(s)) == [] && Last(Pieces(s)) == s
  {
  }

  lemma NextLine(s: string, n: nat)
    requires n < |s| && n == LineEnd(s)
    ensures Last(Pieces(s)) == Last(Pieces(s[n + 1..]))
    ensures var line := TrimBlanks(s[..n]);
            Handed(Complete(s)) == (if |line| > 0 then [line] else []) + Handed(Complete(s[n + 1..]))
  {
    hide TrimBlanks, Pieces, Handed;
    FirstLine(s, n);
    var rest := Pieces(s[n + 1..]);
    assert Complete(s) == [s[..n]] + rest[..|rest| - 1];
    HandedConcat([s[..n]], rest[..|rest| - 1]);
    HandedOne(s[..n]);
  }

  lemma FirstLine(s: string, n: nat)
    ensures n < |s| && n == LineEnd(s) ==> Pieces(s) == [s[..n]] + Pieces(s[n + 1..])
  {
    hide Pieces, LineEnd;
    assert s[0..] == s && (n <= |s| ==> s[0..n] == s[..n]);
    if n < |s| && n == LineEnd(s) {
      Text.NextPiece(s, '\n', 0, n);
    }
  }

  lemma HandedOne(line: string)
    ensures Handed([line]) == var l := TrimBlanks(line); if |l| > 0 then [l] else []
  {
    hide TrimBlanks;
    assert ([line])[..0] == [];
  }

  /** What a chunk adds to the complete lines is what it completes together with the unfinished one. */
  lemma CompleteConcat(s: string, chunk: string)
    ensures Last(Pieces(s + chunk)) == Last(Pieces(Last(Pieces(s)) + chunk))
    ensures Handed(Complete(s + chunk)) == Handed(Complete(s)) + Handed(Complete(Last(Pieces(s)) + chunk))
  {
    hide TrimBlanks, LineEnd, Pieces;
    var p, q, last := Pieces(s), Pieces(chunk), Last(Pieces(s));
    PiecesConcat(s, chunk);
    PiecesHaveNoNewline(s);
    GlueLine(last, chunk);
    var together := Glue([last], q);
    assert Glue(p, q) == p[..|p| - 1] + together;
    assert Complete(s + chunk) == Complete(s) + together[..|together| - 1];
    HandedConcat(Complete(s), together[..|together| - 1]);
  }

  /** The text from `i` to `j`, with blanks around it and none at its own ends. */
  ghost predicate Core(s: string, t: string, i: nat, j: nat) {
    && i <= j <= |s| && t == s[i..j]
    && (forall k :: 0 <= k < |s| && (k < i || k >= j) ==> IsBlank(s[k]))
    && (i < j ==> !IsBlank(s[i]) && !IsBlank(s[j - 1]))
  }

  /** Trimming takes blanks off both ends, and nothing else. */
  lemma {:induction false} TrimReads(s: string)
    ensures exists i, j :: Core(s, TrimBlanks(s), i, j)
    decreases |s|
  {
    hide IsBlank;
    if s == "" {
      assert Core(s, TrimBlanks(s), 0, 0);
    } else if IsBlank(s[0]) {
      TrimReads(s[1..]);
      var i: nat, j: nat :| Core(s[1..], TrimBlanks(s[1..]), i, j);
      assert s[1..][i..j] == s[i + 1..j + 1];
      assert forall k :: 0 < k < |s| ==> s[k] == s[1..][k - 1];
      assert Core(s, TrimBlanks(s), i + 1, j + 1);
    } else if IsBlank(s[|s| - 1]) {
      var n := |s| - 1;
      TrimReads(s[..n]);
      var i: nat, j: nat :| Core(s[..n], TrimBlanks(s[..n]), i, j);
      assert s[..n][i..j] == s[i..j];
      assert Core(s, TrimBlanks(s), i, j);
    } else {
      assert s[0..|s|] == s;
      assert Core(s, TrimBlanks(s), 0, |s|);
    }
  }

  /** Line by line: the server hands on the trimmed line, unless nothing is left of it, and keeps what has no line
      end yet. */
  lemma LineByLine(line: string, rest: string)
    requires '\n' !in line
    ensures Handed(Complete(line)) == [] && Last(Pieces(line)) == line
    ensures Last(Pieces(line + "\n" + rest)) == Last(Pieces(rest))
    ensures Handed(Complete(line + "\n" + rest)) ==
            (if TrimBlanks(line) == "" then [] else [TrimBlanks(line)]) + Handed(Complete(rest))
  {
    hide TrimBlanks, Pieces, Handed;
    var s := line + "\n" + rest;
    LineEndUnique(line, |line|);
    NoLines(line);
    assert s[..|line|] == line && s[|line| + 1..] == rest;
    LineEndUnique(s, |line|);
    NextLine(s, |line|);
  }
}
