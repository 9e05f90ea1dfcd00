/** Shared text helpers of all sources: searching as std::string::find does it, decimal numbers as they are
    printed and read, and the ways in which the sources take a text apart.

    Pieces are what stands between separators, as many as there are separators and one more. Lines are the
    pieces at newlines, but a newline at the end of the text starts no line. Putting pieces together again,
    with a newline between them or behind each, gives back the text they were cut from.
 */
module Text {

  datatype Option<+T> = None | Some(value: T)

  // ---------------------------------------------------------------- searching

  predicate OccursAt(hay: string, needle: string, at: nat) {
    at + |needle| <= |hay| && hay[at..at + |needle|] == needle
  }

  /** std::string::find: the least place at or after `from`. */
  function Find(hay: string, needle: string, from: nat): (r: Option<nat>)
    ensures r.Some? ==> from <= r.value && OccursAt(hay, needle, r.value)
    ensures r.Some? ==> forall j :: from <= j < r.value ==> !OccursAt(hay, needle, j)
    ensures r.None? ==> forall j :: from <= j ==> !OccursAt(hay, needle, j)
    decreases |hay| - from
  {
    if from + |needle| > |hay| then None
    else if hay[from..from + |needle|] == needle then Some(from)
    else Find(hay, needle, from + 1)
  }

  // ---------------------------------------------------------------- decimal numbers

  predicate IsDigit(c: char) {
    '0' <= c <= '9'
  }

  function DigitValue(c: char): nat
    requires IsDigit(c)
  {
    (c as int) - ('0' as int)
  }

  function DigitChar(d: nat): (c: char)
    requires d < 10
    ensures IsDigit(c) && DigitValue(c) == d
  {
    (d + ('0' as int)) as char
  }

  /** std::to_string of a non-negative number. */
  function ToString(n: nat): (s: string)
    ensures s != "" && forall i :: 0 <= i < |s| ==> IsDigit(s[i])
  {
    if n < 10 then [DigitChar(n)] else ToString(n / 10) + [DigitChar(n % 10)]
  }

  /** The value of a string of digits. */
  function Value(s: string): nat
    requires forall i :: 0 <= i < |s| ==> IsDigit(s[i])
  {
    if s == "" then 0 else 10 * Value(s[..|s| - 1]) + DigitValue(s[|s| - 1])
  }

  lemma {:induction false} ValueOfToString(n: nat)
    ensures Value(ToString(n)) == n
  {
    var s := ToString(n);
    if n < 10 {
      assert s[..|s| - 1] == "";
    } else {
      ValueOfToString(n / 10);
      assert s[..|s| - 1] == ToString(n / 10);
    }
  }

  /** How many leading characters are digits. */
  function DigitRun(s: string): (n: nat)
    ensures n <= |s| && (forall i :: 0 <= i < n ==> IsDigit(s[i])) && (n < |s| ==> !IsDigit(s[n]))
  {
    if s == "" || !IsDigit(s[0]) then 0 else 1 + DigitRun(s[1..])
  }

  lemma {:induction false} DigitRunOf(digits: string, rest: string)
    requires forall i :: 0 <= i < |digits| ==> IsDigit(digits[i])
    requires rest == "" || !IsDigit(rest[0])
    ensures DigitRun(digits + rest) == |digits|
  {
    if digits == "" {
      assert digits + rest == rest;
    } else {
      assert (digits + rest)[1..] == digits[1..] + rest;
      DigitRunOf(digits[1..], rest);
    }
  }

  /** A printed number can be read back from in front of any text that does not start with a digit. */
  lemma PrintedNumberIsRead(a: nat, s: string, b: nat, t: string)
    requires s != "" && !IsDigit(s[0]) && t != "" && !IsDigit(t[0])
    requires ToString(a) + s == ToString(b) + t
    ensures a == b && s == t
  {
    DigitRunOf(ToString(a), s);
    DigitRunOf(ToString(b), t);
    assert ToString(a) == (ToString(a) + s)[..|ToString(a)|];
    assert ToString(b) == (ToString(b) + t)[..|ToString(b)|];
    assert s == (ToString(a) + s)[|ToString(a)|..];
    assert t == (ToString(b) + t)[|ToString(b)|..];
    ValueOfToString(a);
    ValueOfToString(b);
  }

  // ---------------------------------------------------------------- newlines

  /** The place of the first separator (a newline unless said otherwise), or the length when there is
      none. */
  function LineEnd(s: string, sep: char := '\n'): (n: nat)
    ensures n <= |s| && sep !in s[..n] && (n < |s| ==> s[n] == sep)
  {
    if s == "" || s[0] == sep then 0
    else
      var n := 1 + LineEnd(s[1..], sep);
      assert s[..n] == [s[0]] + s[1..][..n - 1];
      n
  }

  /** The pieces between separators, the one after the last separator included (it may be empty). */
  function Pieces(s: string, sep: char := '\n'): (p: seq<string>)
    ensures p != []
    decreases |s|
  {
    var n := LineEnd(s, sep);
    if n == |s| then [s] else [s[..n]] + Pieces(s[n + 1..], sep)
  }

  /** What repeated std::getline reads: the pieces, without an empty last one. */
  function Lines(s: string): seq<string> {
    Trim(Pieces(s))
  }

  function Trim(p: seq<string>): seq<string>
    requires p != []
  {
    if Last(p) == "" then p[..|p| - 1] else p
  }

  lemma TrimBehind(front: seq<string>, p: seq<string>)
    ensures p != [] ==> Trim(front + p) == front + Trim(p)
  {
  }

  lemma LinesOfLine(line: string, rest: string)
    requires '\n' !in line
    ensures Lines(line) == if line == "" then [] else [line]
    ensures Lines(line + "\n" + rest) == [line] + Lines(rest)
  {
    PiecesOfLine(line, rest);
    TrimBehind([line], Pieces(rest));
  }

  /** The last `n` elements, or all of them. */
  function LastN<T>(s: seq<T>, n: nat): seq<T> {
    if |s| <= n then s else s[|s| - n..]
  }

  lemma LastNReads<T>(s: seq<T>, n: nat)
    ensures |LastN(s, n)| == if n <= |s| then n else |s|
    ensures forall i :: 0 <= i < |LastN(s, n)| ==> LastN(s, n)[i] == s[|s| - |LastN(s, n)| + i]
  {
  }

  lemma LastNBehind<T>(front: seq<T>, rest: seq<T>, n: nat)
    ensures |rest| >= n ==> LastN(front + rest, n) == LastN(rest, n)
  {
  }

  function Last<T>(s: seq<T>): T
    requires s != []
  {
    s[|s| - 1]
  }

  /** Searching for the separator finds the end of the line. */
  lemma {:induction false} FindNewline(s: string, pos: nat, sep: char := '\n')
    requires pos <= |s|
    ensures var n := LineEnd(s[pos..], sep);
            Find(s, [sep], pos) == if pos + n < |s| then Some(pos + n) else None
    decreases |s| - pos
  {
    if pos == |s| {
    } else {
      assert s[pos..pos + 1] == [s[pos]];
      assert s[pos..][1..] == s[pos + 1..];
      FindNewline(s, pos + 1, sep);
    }
  }

  lemma LineEndUnique(s: string, n: nat, sep: char := '\n')
    ensures (n <= |s| && sep !in s[..n] && (n < |s| ==> s[n] == sep)) ==> LineEnd(s, sep) == n
  {
  }

  lemma PiecesOfLine(line: string, rest: string)
    requires '\n' !in line
    ensures Pieces(line) == [line]
    ensures Pieces(line + "\n" + rest) == [line] + Pieces(rest)
  {
    assert line[..|line|] == line;
    LineEndUnique(line, |line|);
    var s := line + "\n" + rest;
    assert s[..|line|] == line && s[|line| + 1..] == rest;
    LineEndUnique(s, |line|);
  }

  /** A text is a line, or a line, a newline and more text. */
  lemma CutLine(s: string) returns (line: string, rest: Option<string>)
    ensures '\n' !in line
    ensures s == if rest.Some? then line + "\n" + rest.value else line
  {
    var n := LineEnd(s);
    line := s[..n];
    rest := if n < |s| then Some(s[n + 1..]) else None;
  }

  /** Two lists of pieces with the last of the first and the first of the second made one. */
  function Glue(p: seq<string>, q: seq<string>): seq<string>
    requires p != [] && q != []
  {
    p[..|p| - 1] + [Last(p) + q[0]] + q[1..]
  }

  lemma GlueLineMore(line: string, first: string, rest: string)
    requires '\n' !in line && '\n' !in first
    ensures Pieces(line + (first + "\n" + rest)) == Glue([line], Pieces(first + "\n" + rest))
  {
    hide Pieces, LineEnd;
    assert line + (first + "\n" + rest) == (line + first) + "\n" + rest;
    assert '\n' !in line + first;
    PiecesOfLine(first, rest);
    PiecesOfLine(line + first, rest);
  }

  lemma GlueLine(line: string, b: string)
    requires '\n' !in line
    ensures Pieces(line + b) == Glue([line], Pieces(b))
  {
    var first, rest := CutLine(b);
    if rest.Some? {
      GlueLineMore(line, first, rest.value);
    } else {
      PiecesOfLine(b, "");
      PiecesOfLine(line + b, "");
    }
  }

  /** Splitting a text put together from two parts. */
  lemma {:induction false} PiecesConcat(a: string, b: string)
    ensures Pieces(a + b) == Glue(Pieces(a), Pieces(b))
    decreases |a|
  {
    var line, rest := CutLine(a);
    if rest.Some? {
      var r := rest.value;
      assert a + b == line + "\n" + (r + b);
      PiecesOfLine(line, r);
      PiecesOfLine(line, r + b);
      PiecesConcat(r, b);
      GlueCons(line, Pieces(r), Pieces(b));
    } else {
      PiecesOfLine(line, "");
      GlueLine(line, b);
    }
  }

  lemma GlueCons(x: string, p: seq<string>, q: seq<string>)
    requires p != [] && q != []
    ensures Glue([x] + p, q) == [x] + Glue(p, q)
  {
    assert ([x] + p)[..|p|] == [x] + p[..|p| - 1];
  }

  function Newlines(s: string): nat {
    |Pieces(s)| - 1
  }

  lemma {:induction false} PiecesHaveNoNewline(s: string)
    ensures forall i :: 0 <= i < |Pieces(s)| ==> '\n' !in Pieces(s)[i]
    decreases |s|
  {
    var n := LineEnd(s);
    if n < |s| {
      PiecesHaveNoNewline(s[n + 1..]);
    } else {
      assert s[..n] == s;
    }
  }

  /** A text ends in the separator, or is empty, exactly when its last piece is empty. */
  lemma {:induction false} LastPieceEmpty(s: string, sep: char := '\n')
    ensures Last(Pieces(s, sep)) == "" <==> s == "" || s[|s| - 1] == sep
    decreases |s|
  {
    var n := LineEnd(s, sep);
    if n < |s| {
      LastPieceEmpty(s[n + 1..], sep);
    } else if s != "" {
      assert s[..n] == s && s[|s| - 1] in s;
    }
  }

  /** Put pieces together again, with a newline between them. */
  function Joined(pieces: seq<string>): string {
    if pieces == [] then ""
    else if |pieces| == 1 then pieces[0]
    else pieces[0] + "\n" + Joined(pieces[1..])
  }

  /** Every piece with a newline after it. */
  function Terminated(pieces: seq<string>): string {
    if pieces == [] then "" else pieces[0] + "\n" + Terminated(pieces[1..])
  }

  lemma {:induction false} TerminatedSnoc(pieces: seq<string>, last: string)
    ensures Terminated(pieces + [last]) == Terminated(pieces) + last + "\n"
  {
    if pieces == [] {
      assert pieces + [last] == [last];
    } else {
      assert (pieces + [last])[0] == pieces[0] && (pieces + [last])[1..] == pieces[1..] + [last];
      TerminatedSnoc(pieces[1..], last);
    }
  }

  lemma TerminatedNext(pieces: seq<string>, i: nat)
    requires i < |pieces|
    ensures Terminated(pieces[..i + 1]) == Terminated(pieces[..i]) + pieces[i] + "\n"
  {
    assert pieces[..i + 1] == pieces[..i] + [pieces[i]];
    TerminatedSnoc(pieces[..i], pieces[i]);
  }

  lemma {:induction false} JoinedPieces(s: string)
    ensures Joined(Pieces(s)) == s
    decreases |s|
  {
    hide Pieces, LineEnd, Joined;
    var line, rest := CutLine(s);
    if rest.Some? {
      PiecesOfLine(line, rest.value);
      JoinedPieces(rest.value);
      JoinedCons(line, Pieces(rest.value));
    } else {
      PiecesOfLine(line, "");
      assert [line] + [] == [line];
      JoinedCons(line, []);
    }
  }

  lemma JoinedCons(line: string, pieces: seq<string>)
    ensures Joined([line] + pieces) == if pieces == [] then line else line + "\n" + Joined(pieces)
  {
    assert ([line] + pieces)[1..] == pieces;
  }

  // ---------------------------------------------------------------- splitting at a separator

  /** The splitting loop of paths and keys: an empty piece at the end is dropped. */
  method SplitAt(s: string, sep: char) returns (parts: seq<string>)
    ensures parts == Trim(Pieces(s, sep))
  {
    hide Rest, LineEnd, Find;
    parts := [];
    var start := 0;
    AllRest(s, sep);
    while start < |s|
      invariant 0 <= start <= |s|
      invariant parts + Rest(s, sep, start) == Rest(s, sep, 0)
      decreases |s| - start
    {
      SplitRound(s, sep, start);
      var at := Find(s, [sep], start);
      if at.None? {
        parts := parts + [s[start..]];
        return;
      }
      parts := parts + [s[start..at.value]];
      start := at.value + 1;
    }
    LastRest(s, sep, |s|);
  }

  /** The pieces still to come. */
  function Rest(s: string, sep: char, start: nat): seq<string>
    requires start <= |s|
  {
    Trim(Pieces(s[start..], sep))
  }

  lemma AllRest(s: string, sep: char)
    ensures Rest(s, sep, 0) == Trim(Pieces(s, sep))
    ensures LineEnd(s[|s|..], sep) == 0
  {
    assert s[0..] == s;
  }

  lemma SplitRound(s: string, sep: char, start: nat)
    requires start < |s|
    ensures match Find(s, [sep], start)
            case None => Rest(s, sep, start) == [s[start..]]
            case Some(at) => start <= at < |s| && Rest(s, sep, start) == [s[start..at]] + Rest(s, sep, at + 1)
  {
    hide Rest, LineEnd, Find;
    FindNewline(s, start, sep);
    var n := LineEnd(s[start..], sep);
    if start + n == |s| {
      LastRest(s, sep, start);
    } else {
      NextRest(s, sep, start, start + n);
    }
  }

  lemma LastRest(s: string, sep: char, start: nat)
    ensures start <= |s| && LineEnd(s[start..], sep) == |s| - start ==>
              Rest(s, sep, start) == if start < |s| then [s[start..]] else []
  {
  }

  lemma NextRest(s: string, sep: char, start: nat, at: nat)
    requires start <= at < |s| && at == start + LineEnd(s[start..], sep)
    ensures Rest(s, sep, start) == [s[start..at]] + Rest(s, sep, at + 1)
  {
    hide Trim, Pieces, LineEnd;
    NextPiece(s, sep, start, at);
  }

  lemma NextPiece(s: string, sep: char, start: nat, at: nat)
    requires start <= at < |s| && at == start + LineEnd(s[start..], sep)
    ensures Pieces(s[start..], sep) == [s[start..at]] + Pieces(s[at + 1..], sep)
    ensures Trim(Pieces(s[start..], sep)) == [s[start..at]] + Trim(Pieces(s[at + 1..], sep))
  {
    assert s[start..][..at - start] == s[start..at];
    assert s[start..][at - start + 1..] == s[at + 1..];
    TrimBehind([s[start..at]], Pieces(s[at + 1..], sep));
  }

  /** White space as std::isspace knows it. */
  predicate IsSpace(c: char) {
    c == ' ' || '\t' <= c <= '\r'
  }
}
