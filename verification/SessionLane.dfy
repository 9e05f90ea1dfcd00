/** One session's lane of the command queue: class SessionLane of `src/gateway/command_queue.cpp`.

    Every method is proved against a function on the lane's value (`LaneState`), about which the
    lemmas speak.
 */
module SessionLanes {
  import opened Text
  import QueueSummary

  const NANOS_PER_MS: nat := 1_000_000

  datatype Mode = Collect | Followup | Steer | SteerBacklog | Interrupt

  datatype Policy = Summarize | DropOldest | Reject

  datatype Progress = Pending | Active | Complete

  /** A submitted message. `collected` is the one entry of the JSON params the queue itself writes. */
  datatype Command = Command(id: string, session: string, message: string, collected: Option<string>,
                             connection: string, rpcRequest: string, mode: Mode, enqueuedAt: int,
                             progress: Progress)

  datatype LaneState = LaneState(key: string, mode: Mode, debounceMs: int, cap: int, drop: Policy,
                                 pending: seq<Command>, active: Option<Command>)
  {
    predicate IsIdle() {
      active.None? && pending == []
    }
  }

  // ---------------------------------------------------------------- functions on values

  /** duration_cast from nanoseconds: toward zero. */
  function ElapsedMs(from: int, now: int): int {
    if now >= from then (now - from) / NANOS_PER_MS else -((from - now) / NANOS_PER_MS)
  }

  predicate Ready(lane: LaneState, now: int) {
    lane.pending != [] && lane.active.None? && ElapsedMs(lane.pending[0].enqueuedAt, now) >= lane.debounceMs
  }

  function Activated(lane: LaneState): LaneState
    requires lane.pending != []
  {
    lane.(pending := lane.pending[1..], active := Some(lane.pending[0].(progress := Active)))
  }

  function Interrupted(lane: LaneState): LaneState {
    lane.(pending := LastN(lane.pending, 1), active := None)
  }

  function RemoveFirst(pending: seq<Command>, id: string): seq<Command> {
    if pending == [] then []
    else if pending[0].id == id then pending[1..]
    else [pending[0]] + RemoveFirst(pending[1..], id)
  }

  /** Pending messages as one text: a separator only goes in once the text so far is not empty. */
  function SteeringText(pending: seq<Command>): string {
    if pending == [] then ""
    else
      var n := |pending| - 1;
      var before := SteeringText(pending[..n]);
      before + (if before != "" then "\n\n" else "") + pending[n].message
  }

  /** One round of the overflow loop: what stays and which command is given up. */
  function DropOne(pending: seq<Command>, drop: Policy): (seq<Command>, seq<string>)
    requires pending != []
  {
    var n := |pending| - 1;
    match drop
    case Summarize =>
      if n == 0 then (pending, [])
      else
        var merged := pending[0].(message := QueueSummary.Merge(pending[0].message, pending[1].message));
        ([merged] + pending[2..], [pending[1].id])
    case DropOldest => (pending[1..], [pending[0].id])
    case Reject => (pending[..n], [pending[n].id])
  }

  /** The overflow loop: a cap of zero or less allows one round only. */
  function Overflow(pending: seq<Command>, cap: int, drop: Policy): (seq<Command>, seq<string>)
    requires cap >= 0 || pending != []
    decreases |pending|
  {
    if |pending| <= cap then (pending, [])
    else
      var (kept, gone) := DropOne(pending, drop);
      if cap <= 0 then (kept, gone)
      else
        var (kept', gone') := Overflow(kept, cap, drop);
        (kept', gone + gone')
  }

  /** The outcome of an overflow that had given up `gone` already. */
  function Before(gone: seq<string>, rest: (seq<Command>, seq<string>)): (seq<Command>, seq<string>) {
    (rest.0, gone + rest.1)
  }

  lemma LoopRound(gone: seq<string>, pending: seq<Command>, cap: int, drop: Policy)
    requires pending != [] && |pending| > cap
    ensures var (kept, one) := DropOne(pending, drop);
            Before(gone, Overflow(pending, cap, drop)) ==
            if cap <= 0 then (kept, gone + one) else Before(gone + one, Overflow(kept, cap, drop))
    ensures cap > 0 ==> |DropOne(pending, drop).0| < |pending|
  {
    hide DropOne, Overflow;
    var (kept, one) := DropOne(pending, drop);
    if cap > 0 {
      OverflowRound(pending, cap, drop);
      var rest := Overflow(kept, cap, drop).1;
      assert gone + (one + rest) == (gone + one) + rest;
    } else {
      OnlyRound(pending, cap, drop);
    }
  }

  lemma OnlyRound(pending: seq<Command>, cap: int, drop: Policy)
    ensures pending != [] && cap <= 0 ==> Overflow(pending, cap, drop) == DropOne(pending, drop)
  {
    hide DropOne;
  }

  lemma OverflowDone(gone: seq<string>, pending: seq<Command>, cap: int, drop: Policy)
    requires |pending| <= cap
    ensures Before(gone, Overflow(pending, cap, drop)) == (pending, gone)
  {
    assert gone + [] == gone;
  }

  // ---------------------------------------------------------------- what the policies keep

  function Ids(commands: seq<Command>): (ids: seq<string>)
    ensures |ids| == |commands| && forall i :: 0 <= i < |ids| ==> ids[i] == commands[i].id
  {
    seq(|commands|, i requires 0 <= i < |commands| => commands[i].id)
  }

  function Messages(commands: seq<Command>): (texts: seq<string>)
    ensures |texts| == |commands| && forall i :: 0 <= i < |texts| ==> texts[i] == commands[i].message
  {
    seq(|commands|, i requires 0 <= i < |commands| => commands[i].message)
  }

  function Reversed<T>(s: seq<T>): seq<T> {
    if s == [] then [] else [s[|s| - 1]] + Reversed(s[..|s| - 1])
  }

  /** drop-oldest keeps the newest `cap`, and gives up the others oldest first. */
  lemma {:induction false} DropOldestKeeps(pending: seq<Command>, cap: int)
    requires cap >= 1 && |pending| > cap
    ensures Overflow(pending, cap, DropOldest) == (pending[|pending| - cap..], Ids(pending[..|pending| - cap]))
    decreases |pending|
  {
    var rest := pending[1..];
    if |rest| > cap {
      DropOldestKeeps(rest, cap);
    }
    assert rest[|rest| - cap..] == pending[|pending| - cap..];
    assert [pending[0].id] + Ids(rest[..|rest| - cap]) == Ids(pending[..|pending| - cap]);
    assert |rest| == cap ==> rest[|rest| - cap..] == rest;
  }

  /** reject keeps the oldest `cap`, and gives up the others newest first. */
  lemma {:induction false} RejectKeeps(pending: seq<Command>, cap: int)
    requires cap >= 1 && |pending| > cap
    ensures Overflow(pending, cap, Reject) == (pending[..cap], Reversed(Ids(pending[cap..])))
    decreases |pending|
  {
    var n := |pending| - 1;
    var rest := pending[..n];
    assert Ids(pending[cap..])[..n - cap] == Ids(rest[cap..]);
    assert rest[..cap] == pending[..cap];
    if |rest| > cap {
      RejectKeeps(rest, cap);
    } else {
      assert Ids(rest[cap..]) == [];
      assert [pending[n].id] + [] == [pending[n].id];
    }
  }

  /** summarize folds the oldest messages into the oldest entry, which keeps its place and identity,
      and keeps the newest `cap` - 1 as they are. */
  lemma {:induction false} SummarizeKeeps(pending: seq<Command>, cap: int)
    requires cap >= 1 && |pending| > cap
    ensures var k := |pending| - cap + 1;
            Overflow(pending, cap, Summarize) ==
            ([pending[0].(message := QueueSummary.Folded(Messages(pending[..k])))] + pending[k..],
             Ids(pending[1..k]))
    decreases |pending|
  {
    hide QueueSummary.Merge, QueueSummary.Folded, Overflow;
    var k := |pending| - cap + 1;
    var head := pending[0].(message := QueueSummary.Merge(pending[0].message, pending[1].message));
    var rest := [head] + pending[2..];
    OverflowRound(pending, cap, Summarize);
    assert DropOne(pending, Summarize) == (rest, [pending[1].id]);
    var texts := Messages(pending[..k]);
    if |rest| > cap {
      SummarizeKeeps(rest, cap);
      FoldedFront(texts);
      OneFolded(pending, head, k);
      assert rest[0].(message := QueueSummary.Folded(Messages(rest[..k - 1]))) ==
             pending[0].(message := QueueSummary.Folded(texts));
    } else {
      assert Ids(pending[1..2]) == [pending[1].id] == [pending[1].id] + [];
      assert texts == [pending[0].message, pending[1].message];
      TwoFolded(pending[0].message, pending[1].message);
    }
  }

  /** The rest of a list when its first two commands have been made one. */
  lemma OneFolded(pending: seq<Command>, head: Command, k: nat)
    requires 2 <= k <= |pending|
    ensures var rest := [head] + pending[2..];
            && rest[k - 1..] == pending[k..]
            && Messages(rest[..k - 1]) == [head.message] + Messages(pending[..k])[2..]
            && [pending[1].id] + Ids(rest[1..k - 1]) == Ids(pending[1..k])
  {
    hide Ids, Messages;
    assert ([head] + pending[2..])[k - 1..] == pending[k..];
    assert ([head] + pending[2..])[1..k - 1] == pending[2..k];
    assert pending[1..k] == [pending[1]] + pending[2..k];
    assert ([head] + pending[2..])[..k - 1] == [head] + pending[2..k];
  }

  lemma OverflowRound(pending: seq<Command>, cap: int, drop: Policy)
    requires cap >= 1 && |pending| > cap
    ensures var (kept, gone) := DropOne(pending, drop);
            && |kept| == |pending| - 1
            && Overflow(pending, cap, drop) == (Overflow(kept, cap, drop).0, gone + Overflow(kept, cap, drop).1)
            && (|kept| <= cap ==> Overflow(kept, cap, drop) == (kept, []))
  {
    hide QueueSummary.Merge;
  }

  lemma TwoFolded(a: string, b: string)
    ensures QueueSummary.Folded([a, b]) == QueueSummary.Merge(a, b)
  {
  }

  /** Folding from the back and merging from the front come to the same text. */
  lemma {:induction false} FoldedFront(texts: seq<string>)
    requires |texts| >= 2
    ensures QueueSummary.Folded(texts) == QueueSummary.Folded([QueueSummary.Merge(texts[0], texts[1])] + texts[2..])
    decreases |texts|
  {
    hide QueueSummary.Merge;
    var n := |texts| - 1;
    var merged := QueueSummary.Merge(texts[0], texts[1]);
    if n == 1 {
      assert texts == [texts[0], texts[1]];
      TwoFolded(texts[0], texts[1]);
      assert [merged] + texts[2..] == [merged];
    } else {
      FoldedFront(texts[..n]);
      assert texts[..n][2..] == texts[2..n];
      assert ([merged] + texts[2..])[..n - 1] == [merged] + texts[2..n];
    }
  }

  /** Whatever the policy: with a positive cap the loop leaves as many as fit, and every command is
      either kept or given up. */
  lemma {:induction false} OverflowCounts(pending: seq<Command>, cap: int, drop: Policy)
    requires cap >= 1
    ensures |Overflow(pending, cap, drop).0| == if |pending| <= cap then |pending| else cap
    ensures |Overflow(pending, cap, drop).0| + |Overflow(pending, cap, drop).1| == |pending|
  {
    hide QueueSummary.Folded, QueueSummary.Merge;
    if |pending| > cap {
      match drop
      case Summarize => SummarizeKeeps(pending, cap);
      case DropOldest => DropOldestKeeps(pending, cap);
      case Reject =>
        RejectKeeps(pending, cap);
        ReversedSize(Ids(pending[cap..]));
    }
  }

  lemma {:induction false} ReversedSize<T>(s: seq<T>)
    ensures |Reversed(s)| == |s|
    ensures forall x :: x in Reversed(s) <==> x in s
  {
    if s == [] {
    } else {
      ReversedSize(s[..|s| - 1]);
      assert s == s[..|s| - 1] + [s[|s| - 1]];
    }
  }

  /** The text an agent sees in place of the folded messages. */
  lemma {:induction false} SummarizedHead(pending: seq<Command>, cap: int)
    requires cap >= 1 && |pending| > cap && |pending| - cap + 1 <= QueueSummary.INT_MAX
    requires !OccursAt(pending[0].message, QueueSummary.PREFIX, 0)
    ensures |Overflow(pending, cap, Summarize).0| == cap
    ensures var k := |pending| - cap + 1;
            Overflow(pending, cap, Summarize).0[0].message ==
            QueueSummary.Header(k) + QueueSummary.Snippets(Messages(pending[..k]))
  {
    hide QueueSummary.Header, QueueSummary.Snippets, QueueSummary.Folded, Overflow;
    SummarizeKeeps(pending, cap);
    QueueSummary.FoldedIsSummary(Messages(pending[..|pending| - cap + 1]));
  }

  /** One round of the search in CancelPending. */
  lemma RemoveRound(pending: seq<Command>, i: nat, id: string)
    requires i < |pending|
    ensures pending[i].id == id ==>
              id in Ids(pending[i..]) &&
              pending[..i] + RemoveFirst(pending[i..], id) == pending[..i] + pending[i + 1..]
    ensures pending[i].id != id ==>
              (id in Ids(pending[i..]) <==> id in Ids(pending[i + 1..])) &&
              pending[..i] + RemoveFirst(pending[i..], id) == pending[..i + 1] + RemoveFirst(pending[i + 1..], id)
  {
    hide RemoveFirst, Ids;
    var rest := pending[i..];
    assert rest == [pending[i]] + pending[i + 1..] && rest[1..] == pending[i + 1..];
    assert Ids(rest) == [pending[i].id] + Ids(pending[i + 1..]);
    RemoveHead(rest, id);
    assert pending[..i + 1] == pending[..i] + [pending[i]];
  }

  lemma RemoveHead(pending: seq<Command>, id: string)
    ensures pending != [] ==>
              RemoveFirst(pending, id) ==
              if pending[0].id == id then pending[1..] else [pending[0]] + RemoveFirst(pending[1..], id)
  {
  }

  lemma NothingToRemove(pending: seq<Command>, id: string)
    ensures pending[|pending|..] == [] && Ids([]) == [] && RemoveFirst([], id) == []
    ensures pending[..|pending|] + [] == pending
  {
  }

  // ---------------------------------------------------------------- the class

  class SessionLane {
    const key: string
    var mode: Mode
    var debounceMs: int
    var cap: int
    var drop: Policy
    var pending: seq<Command>
    var active: Option<Command>

    ghost function View(): LaneState
      reads this
    {
      LaneState(key, mode, debounceMs, cap, drop, pending, active)
    }

    constructor (key: string, mode: Mode, debounceMs: int, cap: int, drop: Policy)
      ensures View() == LaneState(key, mode, debounceMs, cap, drop, [], None)
    {
      this.key := key;
      this.mode := mode;
      this.debounceMs := debounceMs;
      this.cap := cap;
      this.drop := drop;
      pending := [];
      active := None;
    }

    method Enqueue(cmd: Command)
      modifies this
      ensures View() == old(View()).(pending := old(pending) + [cmd])
    {
      pending := pending + [cmd];
    }

    method TryActivate(now: int) returns (cmd: Option<Command>)
      modifies this
      ensures cmd.Some? <==> Ready(old(View()), now)
      ensures cmd.None? ==> View() == old(View())
      ensures cmd.Some? ==> View() == Activated(old(View())) && cmd == active
    {
      if pending == [] || active.Some? {
        return None;
      }
      var elapsed := ElapsedMs(pending[0].enqueuedAt, now);
      if elapsed < debounceMs {
        return None;
      }
      var front := pending[0];
      pending := pending[1..];
      active := Some(front.(progress := Active));
      return active;
    }

    method CompleteActive() returns (cmd: Option<Command>)
      modifies this
      ensures View() == old(View()).(active := None)
      ensures cmd == match old(active) case None => None case Some(c) => Some(c.(progress := Complete))
    {
      if active.None? {
        return None;
      }
      cmd := Some(active.value.(progress := Complete));
      active := None;
    }

    /** The queue calls this with at least one command waiting; front() of an empty deque under a
        negative cap is what the requires excludes. */
    method ApplyCapOverflow() returns (droppedIds: seq<string>)
      requires cap >= 0 || pending != []
      modifies this
      ensures var (kept, gone) := Overflow(old(pending), old(cap), old(drop));
              droppedIds == gone && View() == old(View()).(pending := kept)
    {
      hide DropOne, Overflow;
      droppedIds := [];
      var more := true;
      assert [] + Overflow(pending, cap, drop).1 == Overflow(pending, cap, drop).1;
      while more && |pending| > cap
        invariant View() == old(View()).(pending := pending)
        invariant more ==> cap >= 0 || pending != []
        invariant Overflow(old(pending), cap, drop) ==
                  if more then Before(droppedIds, Overflow(pending, cap, drop)) else (pending, droppedIds)
        decreases more, |pending|
      {
        LoopRound(droppedIds, pending, cap, drop);
        var gone := DropRound();
        droppedIds := droppedIds + gone;
        if cap <= 0 {
          more := false;
        }
      }
      if more {
        OverflowDone(droppedIds, pending, cap, drop);
      }
    }

    /** One round: which commands are given up, under the policy of the lane. */
    method DropRound() returns (gone: seq<string>)
      requires pending != []
      modifies this`pending
      ensures (pending, gone) == DropOne(old(pending), drop)
    {
      hide QueueSummary.Merge;
      gone := [];
      match drop {
        case Summarize =>
          if |pending| >= 2 {
            var oldest, second := pending[0], pending[1];
            var summary := QueueSummary.Merge(oldest.message, second.message);
            gone := [second.id];
            pending := [oldest.(message := summary)] + pending[2..];
          }
        case DropOldest =>
          gone := [pending[0].id];
          pending := pending[1..];
        case Reject =>
          gone := [pending[|pending| - 1].id];
          pending := pending[..|pending| - 1];
      }
    }

    method DrainPendingAsSteeringText() returns (text: string)
      modifies this
      ensures text == SteeringText(old(pending))
      ensures View() == old(View()).(pending := [])
    {
      text := "";
      for i := 0 to |pending|
        invariant View() == old(View())
        invariant text == SteeringText(pending[..i])
      {
        assert pending[..i + 1][..i] == pending[..i];
        if text != "" {
          text := text + "\n\n";
        }
        text := text + pending[i].message;
      }
      assert pending[..|pending|] == pending;
      pending := [];
    }

    method CancelPending(id: string) returns (found: bool)
      modifies this
      ensures found <==> id in Ids(old(pending))
      ensures View() == old(View()).(pending := RemoveFirst(old(pending), id))
    {
      hide RemoveFirst, Ids;
      var i := 0;
      assert pending[0..] == pending && pending[..0] == [];
      while i < |pending|
        invariant 0 <= i <= |pending|
        invariant View() == old(View())
        invariant id in Ids(pending) <==> id in Ids(pending[i..])
        invariant RemoveFirst(pending, id) == pending[..i] + RemoveFirst(pending[i..], id)
      {
        RemoveRound(pending, i, id);
        if pending[i].id == id {
          pending := pending[..i] + pending[i + 1..];
          return true;
        }
        i := i + 1;
      }
      NothingToRemove(pending, id);
      return false;
    }

    method InterruptActive() returns (activeId: Option<string>)
      modifies this
      ensures activeId == match old(active) case None => None case Some(c) => Some(c.id)
      ensures View() == Interrupted(old(View()))
    {
      activeId := None;
      if active.Some? {
        activeId := Some(active.value.id);
        active := None;
      }
      while |pending| > 1
        invariant View() == old(View()).(pending := pending, active := None)
        invariant LastN(pending, 1) == LastN(old(pending), 1)
      {
        pending := pending[1..];
      }
    }

    method Configure(mode: Mode, debounceMs: int, cap: int, drop: Option<Policy>)
      modifies this
      ensures View() == Configured(old(View()), mode, debounceMs, cap, drop)
    {
      this.mode := mode;
      if debounceMs >= 0 {
        this.debounceMs := debounceMs;
      }
      if cap >= 0 {
        this.cap := cap;
      }
      if drop.Some? {
        this.drop := drop.value;
      }
    }
  }

  function Configured(lane: LaneState, mode: Mode, debounceMs: int, cap: int, drop: Option<Policy>): LaneState {
    lane.(mode := mode,
          debounceMs := if debounceMs >= 0 then debounceMs else lane.debounceMs,
          cap := if cap >= 0 then cap else lane.cap,
          drop := if drop.Some? then drop.value else lane.drop)
  }

  /** Cancelling takes away the one command that carries the id and moves no other. */
  lemma {:induction false} RemoveFirstAt(pending: seq<Command>, i: nat)
    requires i < |pending| && forall j :: 0 <= j < i ==> pending[j].id != pending[i].id
    ensures RemoveFirst(pending, pending[i].id) == pending[..i] + pending[i + 1..]
  {
    hide RemoveFirst;
    RemoveHead(pending, pending[i].id);
    Shifted(pending, i);
    if i == 0 {
    } else {
      RemoveFirstAt(pending[1..], i - 1);
    }
  }

  lemma Shifted<T>(s: seq<T>, i: nat)
    ensures i < |s| ==> s[..i] + s[i + 1..] == if i == 0 then s[1..] else [s[0]] + (s[1..][..i - 1] + s[1..][i..])
  {
  }

  lemma {:induction false} RemoveFirstAbsent(pending: seq<Command>, id: string)
    requires id !in Ids(pending)
    ensures RemoveFirst(pending, id) == pending
  {
    if pending == [] {
    } else {
      assert Ids(pending)[0] in Ids(pending);
      assert forall j :: 0 <= j < |pending| - 1 ==> Ids(pending[1..])[j] == Ids(pending)[j + 1];
      RemoveFirstAbsent(pending[1..], id);
    }
  }
}
