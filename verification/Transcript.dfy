/** Reading the tail of a session transcript: tail_lines and GetHistory of
    `src/session/session_manager.cpp`, against the full scan they replace.
 */
module Transcript {
  import opened Text

  const CHUNK: nat := 64 * 1024

  function CountNewlines(s: string): nat {
    if s == "" then 0 else (if s[0] == '\n' then 1 else 0) + CountNewlines(s[1..])
  }

  lemma {:induction false} NewlinesCounted(s: string)
    ensures CountNewlines(s) == Newlines(s)
  {
    if s == "" {
    } else {
      NewlinesCounted(s[1..]);
      if s[0] == '\n' {
        assert s == "" + "\n" + s[1..];
        PiecesOfLine("", s[1..]);
      } else {
        assert s == s[..1] + s[1..];
        PiecesOfLine(s[..1], "");
        PiecesConcat(s[..1], s[1..]);
      }
    }
  }

  lemma NoText()
    ensures Newlines("") == 0 && Lines("") == []
  {
    PiecesOfLine("", "");
  }

  lemma NewlinesAdd(a: string, b: string)
    ensures Newlines(a + b) == Newlines(a) + Newlines(b)
  {
    PiecesConcat(a, b);
  }

  lemma LastLine(t: string)
    ensures LineEnd(t) == |t| ==> Lines(t) == if t == "" then [] else [t]
  {
  }

  lemma NextLine(s: string, pos: nat, nl: nat)
    requires pos <= nl < |s| && nl == pos + LineEnd(s[pos..])
    ensures Lines(s[pos..]) == [s[pos..nl]] + Lines(s[nl + 1..])
  {
    var t := s[pos..];
    assert t[..nl - pos] == s[pos..nl];
    assert t == s[pos..nl] + "\n" + s[nl + 1..];
    LinesOfLine(s[pos..nl], s[nl + 1..]);
  }

  /** The splitting loop shared by the tail reader and the full scan. */
  method SplitLines(buf: string) returns (lines: seq<string>)
    ensures lines == Lines(buf)
  {
    hide *;
    lines := [];
    var pos := 0;
    assert buf[0..] == buf;
    while pos <= |buf|
      invariant 0 <= pos <= |buf|
      invariant lines + Lines(buf[pos..]) == Lines(buf)
      decreases |buf| - pos
    {
      FindNewline(buf, pos);
      var found := Find(buf, "\n", pos);
      if found.None? {
        LastLine(buf[pos..]);
        if pos < |buf| {
          lines := lines + [buf[pos..]];
        }
        break;
      }
      NextLine(buf, pos, found.value);
      lines := lines + [buf[pos..found.value]];
      pos := found.value + 1;
    }
  }

  /** Why stopping early is safe: with more newlines than lines wanted, dropping the first line read,
      which may be the end of a longer one, loses nothing. */
  lemma TailEnough(unread: string, buf: string, want: nat)
    requires Newlines(buf) > want
    ensures Lines(buf) != []
    ensures LastN(Lines(unread + buf), want) == LastN(Lines(buf)[1..], want)
  {
    hide Pieces, LastN, Last;
    var p, q := Pieces(unread), Pieces(buf);
    var front, rest := p[..|p| - 1] + [Last(p) + q[0]], q[1..];
    PiecesConcat(unread, buf);
    assert Pieces(unread + buf) == front + rest && q == [q[0]] + rest;
    TrimBehind(front, rest);
    TrimBehind([q[0]], rest);
    LastNBehind(front, Trim(rest), want);
    assert Lines(buf)[1..] == Trim(rest);
  }

  /** tail_lines: exactly the last lines of a full split, whatever the size of the file. */
  method TailLines(file: string, wantLines: nat) returns (lines: seq<string>)
    ensures lines == LastN(Lines(file), wantLines)
  {
    hide Lines, Pieces, CountNewlines, Newlines;
    NoText();
    if |file| == 0 {
      return [];
    }
    var buf := "";
    var readFrom := |file|;
    var newlines := 0;
    while readFrom > 0 && newlines <= wantLines
      invariant 0 <= readFrom <= |file|
      invariant buf == file[readFrom..]
      invariant newlines == Newlines(buf)
    {
      var start := if readFrom > CHUNK then readFrom - CHUNK else 0;
      var chunk := file[start..readFrom];
      NewlinesCounted(chunk);
      NewlinesAdd(chunk, buf);
      newlines := newlines + CountNewlines(chunk);
      assert file[start..] == file[start..readFrom] + file[readFrom..];
      buf := chunk + buf;
      readFrom := start;
    }
    lines := SplitLines(buf);
    if readFrom > 0 {
      TailEnough(file[..readFrom], buf, wantLines);
      assert file[..readFrom] + buf == file;
    } else {
      assert buf == file;
    }
    if readFrom > 0 && lines != [] {
      lines := lines[1..];
    }
    if |lines| > wantLines {
      lines := lines[|lines| - wantLines..];
    }
  }

  // ---------------------------------------------------------------- messages

  /** What one line contributes: nothing when it is empty, malformed or not a message record. The JSON
      reading itself is the parameter `parse`. */
  function Records<M>(parse: string -> Option<M>, lines: seq<string>): seq<M> {
    if lines == [] then []
    else
      var last := lines[|lines| - 1];
      Records(parse, lines[..|lines| - 1]) +
      if last != "" && parse(last).Some? then [parse(last).value] else []
  }

  lemma {:induction false} RecordsConcat<M>(parse: string -> Option<M>, a: seq<string>, b: seq<string>)
    ensures Records(parse, a + b) == Records(parse, a) + Records(parse, b)
  {
    if b == [] {
      assert a + b == a;
    } else {
      assert (a + b)[..|a + b| - 1] == a + b[..|b| - 1];
      RecordsConcat(parse, a, b[..|b| - 1]);
    }
  }

  /** One line gives its message, once, or nothing. */
  lemma RecordsOfLine<M>(parse: string -> Option<M>, line: string)
    ensures Records(parse, [line]) == if line == "" || parse(line) == None then [] else [parse(line).value]
    ensures Records(parse, []) == []
  {
    assert [line][..0] == [];
  }

  method ParseLines<M>(parse: string -> Option<M>, lines: seq<string>) returns (out: seq<M>)
    ensures out == Records(parse, lines)
  {
    out := [];
    for i := 0 to |lines|
      invariant out == Records(parse, lines[..i])
    {
      assert lines[..i + 1][..i] == lines[..i];
      if lines[i] == "" {
        continue;
      }
      match parse(lines[i])
      case None =>
      case Some(m) => out := out + [m];
    }
    assert lines[..|lines|] == lines;
  }

  /** A window of lines that holds enough messages holds the last ones. */
  lemma WindowEnough<M>(parse: string -> Option<M>, lines: seq<string>, window: nat, want: nat)
    requires |Records(parse, LastN(lines, window))| >= want || |lines| < window
    ensures LastN(Records(parse, lines), want) == LastN(Records(parse, LastN(lines, window)), want)
  {
    hide Records;
    if |lines| > window {
      var k := |lines| - window;
      assert lines == lines[..k] + lines[k..];
      RecordsConcat(parse, lines[..k], lines[k..]);
      LastNBehind(Records(parse, lines[..k]), Records(parse, lines[k..]), want);
    }
  }

  /** GetHistory: the last `maxMessages` messages of the full scan, or all of them when the limit is
      not positive; a session without a transcript file has no history. */
  method GetHistory<M>(parse: string -> Option<M>, transcript: Option<string>, maxMessages: int)
    returns (messages: seq<M>)
    ensures transcript.None? ==> messages == []
    ensures transcript.Some? && maxMessages <= 0 ==> messages == Records(parse, Lines(transcript.value))
    ensures transcript.Some? && maxMessages > 0 ==>
              messages == LastN(Records(parse, Lines(transcript.value)), maxMessages)
  {
    if transcript.None? {
      return [];
    }
    var file := transcript.value;
    if maxMessages <= 0 {
      var all := SplitLines(file);
      messages := ParseLines(parse, all);
      return;
    }
    var want := maxMessages;
    var window := want * 2 + 16;
    while true
      invariant window > 0
      decreases |Lines(file)| - window
    {
      var lines := TailLines(file, window);
      messages := ParseLines(parse, lines);
      var readWholeFile := |lines| < window;
      if |messages| >= want || readWholeFile {
        WindowEnough(parse, Lines(file), window, want);
        if |messages| > want {
          messages := messages[|messages| - want..];
        }
        return;
      }
      window := window * 4;
    }
  }
}
