/** Bounded capture of a child's output: the loop of exec_capture in `src/platform/process_unix.cpp`.
    Polling, waiting and the process are not modelled; its reads are a parameter.
 */
module OutputCapture {
  import opened Text

  function Stream(received: seq<string>): string {
    if received == [] then "" else Stream(received[..|received| - 1]) + received[|received| - 1]
  }

  function Marker(cap: nat): string {
    "\n... [output truncated: exceeded " + ToString(cap) + " bytes] ...\n"
  }

  /** What is kept of a stream: all of it, or its first half and its last half of the cap. */
  function Captured(stream: string, cap: nat): string {
    if cap == 0 || |stream| <= cap then stream
    else
      var head := cap / 2;
      stream[..head] + Marker(cap) + stream[|stream| - (cap - head)..]
  }

  function FirstN(s: string, n: nat): string {
    if |s| <= n then s else s[..n]
  }

  /** The loop's two buffers after the stream so far: the head is full before the tail begins, and the
      tail is the end of what followed the head. */
  ghost predicate Holds(stream: string, head: nat, room: nat, output: string, tail: string, truncated: bool) {
    && output == FirstN(stream, head)
    && tail == LastN(stream[|output|..], room)
    && (truncated <==> |stream| > head + room)
  }

  /** A read while the head is filling: it tops the head up, and what is left of it starts the tail. */
  lemma ReadHead(stream: string, head: nat, room: nat, tail: string, truncated: bool, top: string, left: string)
    requires Holds(stream, head, room, stream, tail, truncated) && |stream| < head && |stream| + |top| <= head
    requires left == "" || |stream| + |top| == head
    ensures tail == "" && !truncated
    ensures Holds(stream + (top + left), head, room, stream + top, LastN(tail + left, room), |tail + left| > room)
  {
    var s := stream + (top + left);
    assert s[..|stream + top|] == stream + top && s[|stream + top|..] == left == "" + left;
  }

  /** A read behind a full head goes to the tail, which drops its front. */
  lemma ReadTail(stream: string, head: nat, room: nat, output: string, tail: string, truncated: bool, chunk: string)
    requires Holds(stream, head, room, output, tail, truncated) && |output| >= head
    ensures |tail| <= room
    ensures Holds(stream + chunk, head, room, output, LastN(tail + chunk, room), truncated || |tail + chunk| > room)
  {
    hide LastN;
    assert (stream + chunk)[|output|..] == stream[|output|..] + chunk;
    TailGrows(stream[|output|..], chunk, room);
  }

  lemma TailGrows(a: string, b: string, room: nat)
    ensures |LastN(a, room)| <= room && LastN(LastN(a, room) + b, room) == LastN(a + b, room)
    ensures |LastN(a, room) + b| > room || |a| > room <==> |a + b| > room
  {
  }

  lemma HoldsAtEnd(stream: string, cap: nat, output: string, tail: string, truncated: bool)
    requires cap > 0 && Holds(stream, cap / 2, cap - cap / 2, output, tail, truncated)
    ensures truncated <==> |stream| > cap
    ensures (if truncated then output + Marker(cap) else output) + tail == Captured(stream, cap)
  {
  }

  /** A head that is not full holds the whole stream. */
  lemma HeadIsAll(stream: string, head: nat, room: nat, output: string, tail: string, truncated: bool)
    ensures Holds(stream, head, room, output, tail, truncated) && |output| < head ==>
              output == stream && tail == "" && !truncated
  {
  }

  /** The tail's share of a read: it drops its front when it grows too long. */
  method KeepTail(tail0: string, truncated0: bool, chunk: string, room: nat) returns (tail: string, truncated: bool)
    requires |tail0| <= room
    ensures tail == LastN(tail0 + chunk, room)
    ensures truncated <==> truncated0 || |tail0 + chunk| > room
  {
    tail, truncated := tail0, truncated0;
    if chunk != "" {
      tail := tail + chunk;
      if |tail| > room {
        tail := tail[|tail| - room..];
        truncated := true;
      }
    } else {
      assert tail + chunk == tail;
    }
  }

  /** The loop of exec_capture, with the marker and the tail put behind the head at the end: the way the
      stream was cut into reads does not matter. */
  method ExecCapture(received: seq<string>, cap: nat) returns (output: string, truncated: bool)
    ensures output == Captured(Stream(received), cap)
    ensures truncated <==> cap > 0 && |Stream(received)| > cap
  {
    hide Captured, Holds, Marker, LastN;
    output, truncated := "", false;
    var tail := "";
    var headCap := cap / 2;
    Ends(Stream(received), headCap, cap - headCap);
    for i := 0 to |received|
      invariant cap == 0 ==> output == Stream(received[..i]) && tail == "" && !truncated
      invariant cap > 0 ==> Holds(Stream(received[..i]), headCap, cap - headCap, output, tail, truncated)
    {
      var chunk := received[i];
      assert received[..i + 1][..i] == received[..i];
      if cap == 0 {
        output := output + chunk;
        continue;
      }
      ghost var before := Stream(received[..i]);
      if |output| < headCap {
        var take := if |chunk| < headCap - |output| then |chunk| else headCap - |output|;
        assert chunk == chunk[..take] + chunk[take..];
        HeadIsAll(before, headCap, cap - headCap, output, tail, truncated);
        ReadHead(before, headCap, cap - headCap, tail, truncated, chunk[..take], chunk[take..]);
        output := output + chunk[..take];
        chunk := chunk[take..];
      } else {
        ReadTail(before, headCap, cap - headCap, output, tail, truncated, chunk);
      }
      tail, truncated := KeepTail(tail, truncated, chunk, cap - headCap);
    }
    assert received[..|received|] == received;
    if cap > 0 {
      HoldsAtEnd(Stream(received), cap, output, tail, truncated);
    }
    if truncated {
      output := output + Marker(cap);
    }
    output := output + tail;
  }

  lemma Ends(stream: string, head: nat, room: nat)
    ensures Holds("", head, room, "", "", false)
    ensures Captured(stream, 0) == stream && stream + "" == stream
  {
  }

  /** A stream cut in three, of which the ends make up the cap and the first is half of it, with a note between. */
  ghost predicate CutTo(stream: string, cap: nat, kept: string, head: string, omitted: string, tail: string) {
    && stream == head + omitted + tail && |head| == cap / 2 && |head| + |tail| == cap
    && kept == head + "\n... [output truncated: exceeded " + ToString(cap) + " bytes] ...\n" + tail
  }

  /** What is kept, told in full: everything within the cap, and the two ends beyond it. */
  lemma CapturedReads(stream: string, cap: nat)
    ensures if cap == 0 || |stream| <= cap then Captured(stream, cap) == stream
            else exists head, omitted, tail :: CutTo(stream, cap, Captured(stream, cap), head, omitted, tail)
  {
    hide ToString;
    if cap > 0 && |stream| > cap {
      var half, rest := cap / 2, |stream| - (cap - cap / 2);
      assert CutTo(stream, cap, Captured(stream, cap), stream[..half], stream[half..rest], stream[rest..]);
    }
  }

  lemma {:induction false} StreamConcat(a: seq<string>, b: seq<string>, chunk: string)
    ensures Stream(a + b) == Stream(a) + Stream(b)
    ensures Stream([chunk]) == chunk
  {
    assert [chunk][..0] == [];
    if b == [] {
      assert a + b == a;
    } else {
      var n := |b| - 1;
      assert (a + b)[..|a| + n] == a + b[..n];
      StreamConcat(a, b[..n], chunk);
    }
  }
}
