/** The text of an overflow summary: `src/gateway/command_queue.cpp`, the summarize branch of
    ApplyCapOverflow. The queue keeps no count of folded messages; it reads the count and the content
    back from the text it printed last time.
 */
module QueueSummary {
  import opened Text

  const PREFIX: string := "[Queue summary:"
  const SUFFIX: string := " messages]"
  const INT_MAX: int := 0x7fff_ffff
  const INT_MIN: int := -0x8000_0000

  // ---------------------------------------------------------------- numbers as the code reads them

  function IntToString(n: int): string {
    if n >= 0 then ToString(n) else "-" + ToString(-n)
  }

  function SkipSpaces(s: string): string {
    if s != "" && IsSpace(s[0]) then SkipSpaces(s[1..]) else s
  }

  /** std::stoi: leading space, an optional sign, at least one digit, and a value that fits an int;
      None where it throws. */
  function Stoi(s: string): Option<int> {
    var t := SkipSpaces(s);
    var signed := t != "" && (t[0] == '-' || t[0] == '+');
    var u := if signed then t[1..] else t;
    var digits := u[..DigitRun(u)];
    var magnitude: int := Value(digits);
    var v := if t != "" && t[0] == '-' then -magnitude else magnitude;
    if digits == "" || v < INT_MIN || v > INT_MAX then None else Some(v)
  }

  // ---------------------------------------------------------------- the code's printer and parser

  function Snippet(message: string): string {
    if |message| <= 150 then message else message[..150]
  }

  /** How many messages the code takes the oldest entry to stand for. A failed search gives the start
      1 (npos + 2), and a start behind the end makes the length wrap to "the rest". */
  function ReadCount(message: string): int {
    if !OccursAt(message, PREFIX, 0) then 1
    else match Find(message, SUFFIX, 0)
      case None => 1
      case Some(pos) =>
        var colon := Find(message, ": ", 0);
        var start := if colon.Some? then colon.value + 2 else 1;
        var number := if start <= pos then message[start..pos] else message[start..];
        var n := Stoi(number);
        if n.Some? then n.value else 1
  }

  /** What the code keeps of the oldest entry. */
  function ReadContent(message: string): string {
    if !OccursAt(message, PREFIX, 0) then Snippet(message)
    else match Find(message, "] ", 0)
      case None => ""
      case Some(at) => message[at + 2..]
  }

  function Header(count: int): string {
    PREFIX + (" " + IntToString(count) + (SUFFIX + " "))
  }

  /** The text that replaces the two oldest entries. */
  function Merge(oldest: string, second: string): string {
    Header(ReadCount(oldest) + 1) + (ReadContent(oldest) + (" | " + Snippet(second)))
  }

  // ---------------------------------------------------------------- reading back what was printed

  lemma OccursChars(hay: string, needle: string, at: nat, i: nat)
    requires OccursAt(hay, needle, at) && i < |needle|
    ensures hay[at + i] == needle[i]
  {
    assert hay[at..at + |needle|][i] == hay[at + i];
  }

  lemma FindByFirstChar(hay: string, needle: string, at: nat)
    requires needle != "" && OccursAt(hay, needle, at)
    requires forall j :: 0 <= j < at ==> hay[j] != needle[0]
    ensures Find(hay, needle, 0) == Some(at)
  {
    hide Find;
    forall j | 0 <= j < at ensures !OccursAt(hay, needle, j) {
      if OccursAt(hay, needle, j) { OccursChars(hay, needle, j, 0); }
    }
  }

  /** Where the parts of a header with text behind it lie. */
  ghost predicate Laid(m: string, digits: string, rest: string) {
    && |m| == 27 + |digits| + |rest|
    && m[..15] == PREFIX && m[15] == ' '
    && m[16..16 + |digits|] == digits
    && m[16 + |digits|..26 + |digits|] == SUFFIX && m[26 + |digits|] == ' '
    && m[27 + |digits|..] == rest
  }

  /** The characters of a printed number. */
  predicate IsNumeral(digits: string) {
    digits != "" && forall i :: 0 <= i < |digits| ==> IsDigit(digits[i]) || digits[i] == '-'
  }

  lemma LaidChars(m: string, digits: string, rest: string)
    requires Laid(m, digits, rest) && IsNumeral(digits)
    ensures var d := |digits|;
            && m[7] == 's' && (forall i :: 16 <= i < 16 + d ==> IsDigit(m[i]) || m[i] == '-')
            && (forall j :: 0 <= j < 14 ==> m[j] != ':')
            && (forall j :: 0 <= j < 25 + d ==> m[j] != ']')
            && (forall j :: 0 <= j < 16 + d && m[j] == ' ' ==> j == 6 || j == 15)
  {
  }

  lemma LaidFinds(m: string, digits: string, rest: string)
    requires Laid(m, digits, rest) && IsNumeral(digits)
    ensures OccursAt(m, PREFIX, 0)
    ensures Find(m, ": ", 0) == Some(14)
    ensures Find(m, SUFFIX, 0) == Some(16 + |digits|)
    ensures Find(m, "] ", 0) == Some(25 + |digits|)
  {
    hide Find;
    var d := |digits|;
    LaidChars(m, digits, rest);
    assert m[14] == m[..15][14] && m[25 + d] == m[16 + d..26 + d][9];
    assert m[14..16] == ": " && m[25 + d..27 + d] == "] ";
    HeaderFinds(m, d);
  }

  /** The code's parser undoes its printer: count and content of its own text are read back, the
      count exactly when it fits the int the parser reads into. */
  lemma {:induction false} ReadBack(n: int, rest: string)
    ensures ReadCount(Header(n) + rest) == n <==> INT_MIN <= n <= INT_MAX
    ensures ReadContent(Header(n) + rest) == rest
  {
    hide Find, OccursAt, ToString, Stoi;
    var digits := IntToString(n);
    LaidFinds(Header(n) + rest, digits, rest);
    StoiPrinted(n);
  }

  lemma HeaderFinds(m: string, d: nat)
    requires d > 0 && |m| >= 27 + d && m[7] == 's'
    requires forall i :: 16 <= i < 16 + d ==> IsDigit(m[i]) || m[i] == '-'
    requires OccursAt(m, ": ", 14) && OccursAt(m, SUFFIX, 16 + d) && OccursAt(m, "] ", 25 + d)
    requires forall j :: 0 <= j < 14 ==> m[j] != ':'
    requires forall j :: 0 <= j < 25 + d ==> m[j] != ']'
    requires forall j :: 0 <= j < 16 + d && m[j] == ' ' ==> j == 6 || j == 15
    ensures Find(m, ": ", 0) == Some(14)
    ensures Find(m, SUFFIX, 0) == Some(16 + d)
    ensures Find(m, "] ", 0) == Some(25 + d)
  {
    hide Find, OccursAt;
    FindByFirstChar(m, ": ", 14);
    FindByFirstChar(m, "] ", 25 + d);
    forall j | 0 <= j < 16 + d ensures !OccursAt(m, SUFFIX, j) {
      if OccursAt(m, SUFFIX, j) {
        OccursChars(m, SUFFIX, j, 0);
        OccursChars(m, SUFFIX, j, 1);
        assert false;
      }
    }
  }

  lemma StoiPrinted(n: int)
    ensures Stoi(IntToString(n)) == if INT_MIN <= n <= INT_MAX then Some(n) else None
  {
    hide ToString, Value, DigitRun;
    var s := ToString(if n >= 0 then n else -n);
    assert IsDigit(s[0]);
    DigitRunOf(s, "");
    assert s + "" == s && s[..|s|] == s && ("-" + s)[1..] == s;
    ValueOfToString(if n >= 0 then n else -n);
  }

  // ---------------------------------------------------------------- any number of overflows

  /** The head text after the messages have been folded into it one after the other. */
  function Folded(messages: seq<string>): string
    requires messages != []
  {
    var n := |messages| - 1;
    if n == 0 then messages[0] else Merge(Folded(messages[..n]), messages[n])
  }

  function Snippets(messages: seq<string>): string
    requires messages != []
  {
    var n := |messages| - 1;
    if n == 0 then Snippet(messages[0]) else Snippets(messages[..n]) + (" | " + Snippet(messages[n]))
  }

  /** Overflows add up: folding more messages into a text that was folded before is folding them all. */
  lemma {:induction false} FoldedTwice(a: seq<string>, b: seq<string>)
    requires a != []
    ensures Folded([Folded(a)] + b) == Folded(a + b)
  {
    hide Merge;
    if b == [] {
      assert a + b == a;
      assert [Folded(a)] + b == [Folded(a)];
    } else {
      var n := |b| - 1;
      FoldedTwice(a, b[..n]);
      assert ([Folded(a)] + b)[..n + 1] == [Folded(a)] + b[..n];
      assert (a + b)[..|a| + n] == a + b[..n];
    }
  }

  /** The snippets of the messages that were folded in, each behind a bar. */
  function Listed(messages: seq<string>): string {
    if messages == [] then ""
    else Listed(messages[..|messages| - 1]) + (" | " + Snippet(messages[|messages| - 1]))
  }

  lemma {:induction false} SnippetsListed(messages: seq<string>)
    requires messages != []
    ensures Snippets(messages) == Snippet(messages[0]) + Listed(messages[1..])
  {
    hide Snippet;
    var n := |messages| - 1;
    if n == 0 {
    } else {
      SnippetsListed(messages[..n]);
      assert messages[1..][..n - 1] == messages[..n][1..];
    }
  }

  /** After any number of overflows, whatever the first message was: its count and content, as the code
      reads them, stand for it, and every message folded in has been counted and listed, in order. */
  lemma {:induction false} FoldedAlways(messages: seq<string>)
    requires |messages| >= 2 && ReadCount(messages[0]) + |messages| - 1 <= INT_MAX
    ensures Folded(messages) ==
            Header(ReadCount(messages[0]) + |messages| - 1) + (ReadContent(messages[0]) + Listed(messages[1..]))
  {
    hide Header, Snippet, ReadCount, ReadContent, Find;
    var n := |messages| - 1;
    var before, first := messages[..n], messages[0];
    assert before[0] == first && messages[1..][..n - 1] == before[1..];
    if n == 1 {
      assert Folded(before) == first && Listed(before[1..]) == "";
      assert Listed(messages[1..]) == " | " + Snippet(messages[1]);
    } else {
      FoldedAlways(before);
      CountInRange(first);
      ReadBack(ReadCount(first) + n - 1, ReadContent(first) + Listed(before[1..]));
    }
  }

  lemma CountInRange(message: string)
    ensures INT_MIN <= ReadCount(message) <= INT_MAX
  {
    hide Find, OccursAt;
  }

  /** The head text is the header with the number of folded messages and a snippet of each exactly when
      the code reads the first message as one message and as its own snippet. */
  lemma {:induction false} SummaryExact(messages: seq<string>)
    requires |messages| >= 2 && ReadCount(messages[0]) + |messages| - 1 <= INT_MAX && |messages| <= INT_MAX
    ensures Folded(messages) == Header(|messages|) + Snippets(messages) <==>
            ReadCount(messages[0]) == 1 && ReadContent(messages[0]) == Snippet(messages[0])
  {
    hide Header, Snippet, ReadCount, ReadContent, Find, Folded, Snippets, Listed;
    var first, more := messages[0], Listed(messages[1..]);
    FoldedAlways(messages);
    SnippetsListed(messages);
    CountInRange(first);
    HeadersDiffer(ReadCount(first) + |messages| - 1, ReadContent(first) + more, |messages|, Snippet(first) + more);
    SameEnd(ReadContent(first), Snippet(first), more);
  }

  lemma HeadersDiffer(a: int, x: string, b: int, y: string)
    requires INT_MIN <= a <= INT_MAX && INT_MIN <= b <= INT_MAX
    ensures Header(a) + x == Header(b) + y <==> a == b && x == y
  {
    hide Header, ReadCount, ReadContent;
    ReadBack(a, x);
    ReadBack(b, y);
  }

  lemma SameEnd(a: string, b: string, end: string)
    ensures a + end == b + end <==> a == b
  {
    assert a + end == b + end ==> (a + end)[..|a|] == (b + end)[..|a|];
  }

  /** A first message that does not start like a header is read so. */
  lemma {:induction false} FoldedIsSummary(messages: seq<string>)
    requires 2 <= |messages| <= INT_MAX
    requires !OccursAt(messages[0], PREFIX, 0)
    ensures Folded(messages) == Header(|messages|) + Snippets(messages)
  {
    hide Header, Folded, Snippets;
    SummaryExact(messages);
  }

  /** A first message that happens to start like a header is not a snippet of itself: one that is cut
      short vanishes, one that is complete has its number believed. */
  lemma {:induction false} HeaderLikeFirstMessage(rest: string, second: string)
    ensures Merge(PREFIX, second) == Header(2) + ("" + (" | " + Snippet(second)))
    ensures Merge(Header(7) + rest, second) == Header(8) + (rest + (" | " + Snippet(second)))
  {
    hide Header, Snippet;
    assert OccursAt(PREFIX, PREFIX, 0);
    assert forall j :: 0 <= j < |PREFIX| ==> PREFIX[j] != ']';
    assert Find(PREFIX, SUFFIX, 0).None? by {
      if Find(PREFIX, SUFFIX, 0).Some? {
        OccursChars(PREFIX, SUFFIX, Find(PREFIX, SUFFIX, 0).value, 9);
      }
    }
    assert Find(PREFIX, "] ", 0).None? by {
      if Find(PREFIX, "] ", 0).Some? {
        OccursChars(PREFIX, "] ", Find(PREFIX, "] ", 0).value, 0);
      }
    }
    ReadBack(7, rest);
  }

  /** The two texts a merge writes, told in full. */
  lemma {:induction false} MergeWrites(first: string, n: nat, rest: string, second: string)
    requires !("[Queue summary:" <= first) && 1 <= n < INT_MAX
    ensures var shown := if |second| <= 150 then second else second[..150];
            && Merge(first, second) ==
               "[Queue summary: 2 messages] " + (if |first| <= 150 then first else first[..150]) + " | " + shown
            && Merge("[Queue summary: " + ToString(n) + " messages] " + rest, second) ==
               "[Queue summary: " + ToString(n + 1) + " messages] " + rest + " | " + shown
  {
    hide ToString, Merge, Snippet, Header, PREFIX;
    SnippetReads(first);
    SnippetReads(second);
    MergePlain(first, second);
    MergeAgain(n, rest, second);
    HeaderReads(n);
    HeaderReads(n + 1);
    HeaderReads(2);
    TwoPrinted();
    Chained(Header(2), Snippet(first), " | ", Snippet(second));
    Chained(Header(n + 1), rest, " | ", Snippet(second));
  }

  lemma SnippetReads(message: string)
    ensures Snippet(message) == if |message| <= 150 then message else message[..150]
  {
  }

  lemma MergePlain(first: string, second: string)
    requires !("[Queue summary:" <= first)
    ensures Merge(first, second) == Header(2) + (Snippet(first) + (" | " + Snippet(second)))
  {
    hide Header, Snippet;
  }

  lemma MergeAgain(n: nat, rest: string, second: string)
    requires 1 <= n < INT_MAX
    ensures Merge(Header(n) + rest, second) == Header(n + 1) + (rest + (" | " + Snippet(second)))
  {
    hide Header, Snippet, ReadCount, ReadContent;
    ReadBack(n, rest);
  }

  lemma Chained(a: string, b: string, c: string, d: string)
    ensures a + (b + (c + d)) == a + b + c + d
  {
  }

  lemma HeaderReads(n: nat)
    ensures Header(n) == "[Queue summary: " + ToString(n) + " messages] "
  {
    hide ToString;
  }

  lemma TwoPrinted()
    ensures ToString(2) == "2"
  {
  }
}
