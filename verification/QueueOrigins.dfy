/** Where the commands of a run of `src/gateway/command_queue.cpp` come from, and what text its workers carry:
    what was submitted, and in collect mode all of it in order.
 */
module QueueOrigins {
  import opened Text
  import opened SessionLanes
  import opened CommandQueues
  import opened QueueRuns
  import opened QueueEvents
  import opened SummaryRuns
  import QueueFates

  // ---------------------------------------------------------------- where a command comes from

  /** The mode of a submission: the one it asks for, or for collect the one of its lane at that moment. */
  function ModeAt(q: QueueState, e: Event): Mode
    requires e.Submit?
  {
    if e.mode != Collect then e.mode
    else if e.session in q.lanes then q.lanes[e.session].mode else q.config.defaultMode
  }

  /** The command is what this event submits to this queue, but that its text may have become a summary. */
  ghost predicate ComesFrom(c: Command, q: QueueState, e: Event) {
    && e.Submit? && c.id == e.id && c.session == e.session
    && c.connection == e.connection && c.rpcRequest == e.rpcRequest && c.enqueuedAt == e.now
    && c.mode == ModeAt(q, e)
    && (c.message == e.message || IsSummary(c.message))
  }

  ghost predicate IsSummary(text: string) {
    |text| >= 15 && text[..15] == "[Queue summary:"
  }

  /** The command waits. A waiting command has gathered no text yet. */
  ghost predicate InLane(q: QueueState, c: Command) {
    exists s :: s in q.lanes && c in q.lanes[s].pending
  }

  ghost predicate InUse(q: QueueState, c: Command) {
    c in q.workers || exists s :: s in q.lanes && q.lanes[s].active == Some(c)
  }

  /** The same submission, maybe summarized, started or with text gathered. */
  ghost predicate SameOrigin(a: Command, b: Command) {
    && a == b.(message := a.message, collected := a.collected, progress := a.progress)
    && (a.message == b.message || IsSummary(a.message))
  }

  lemma MergedIsSummary(a: string, b: string)
    ensures IsSummary(QueueSummary.Merge(a, b))
  {
    hide QueueSummary.ReadCount, QueueSummary.ReadContent, QueueSummary.IntToString;
  }

  /** What is left of a lane is what was there, the head maybe summarized. */
  ghost predicate LeftOf(all: seq<Command>, left: seq<Command>) {
    forall c :: c in left ==> exists b :: b in all && SameOrigin(c, b) && c.collected == b.collected
                                          && c.progress == b.progress
  }

  lemma DropOneLeaves(all: seq<Command>, drop: Policy)
    requires all != []
    ensures LeftOf(all, DropOne(all, drop).0)
  {
    hide QueueSummary.Merge;
    if drop == Summarize && |all| > 1 {
      MergedIsSummary(all[0].message, all[1].message);
      var merged := all[0].(message := QueueSummary.Merge(all[0].message, all[1].message));
      assert SameOrigin(merged, all[0]);
    }
    assert forall c :: SameOrigin(c, c);
  }

  lemma LeftTwice(a: seq<Command>, b: seq<Command>, c: seq<Command>)
    ensures LeftOf(a, b) && LeftOf(b, c) ==> LeftOf(a, c)
  {
  }

  lemma {:induction false} OverflowLeaves(all: seq<Command>, cap: int, drop: Policy)
    requires cap >= 0 || all != []
    ensures LeftOf(all, Overflow(all, cap, drop).0)
    decreases |all|
  {
    hide DropOne, LeftOf;
    if |all| <= cap {
      LeftAlone(all);
    } else {
      DropOneLeaves(all, drop);
      DropOneSmaller(all, cap, drop);
      if cap > 0 {
        var kept := DropOne(all, drop).0;
        OverflowLeaves(kept, cap, drop);
        LeftTwice(all, kept, Overflow(kept, cap, drop).0);
      }
    }
  }

  lemma LeftAlone(all: seq<Command>)
    ensures LeftOf(all, all)
  {
    assert forall c :: SameOrigin(c, c);
  }

  // ---------------------------------------------------------------- one event

  ghost predicate Plain(c: Command) {
    (c.collected, c.progress) == (None, Pending)
  }

  ghost predicate FromLane(q: QueueState, c: Command) {
    exists b :: InLane(q, b) && SameOrigin(c, b)
  }

  /** No command comes in: what waits waited, and what is in use was in use or waited. */
  ghost predicate Shrinks(q: QueueState, q': QueueState) {
    && (forall c :: InLane(q', c) ==> InLane(q, c))
    && (forall c :: InUse(q', c) ==> InUse(q, c) || FromLane(q, c))
  }

  lemma ShrinksTwice(a: QueueState, b: QueueState, c: QueueState)
    ensures Shrinks(a, b) && Shrinks(b, c) ==> Shrinks(a, c)
  {
    hide SameOrigin;
  }

  /** Lanes that only lose commands. */
  ghost predicate LanesLose(q: QueueState, q': QueueState) {
    forall s :: s in q'.lanes ==>
      && (q'.lanes[s].active.Some? ==> s in q.lanes && q'.lanes[s].active == q.lanes[s].active)
      && (forall c :: c in q'.lanes[s].pending ==> s in q.lanes && c in q.lanes[s].pending)
  }

  lemma LosingShrinks(q: QueueState, q': QueueState)
    ensures (LanesLose(q, q') && forall w :: w in q'.workers ==> w in q.workers) ==> Shrinks(q, q')
  {
  }

  lemma OthersShrink(q: QueueState, e: Event)
    requires !e.Submit? && !e.Pass?
    ensures Shrinks(q, Next(q, e))
  {
    hide RemoveFirst, LastN, Shrinks;
    if e.Cancel? && e.id in q.index {
      RemoveFirstWithin(LaneOf(q, q.index[e.id]).pending, e.id);
    } else if e.Abort? && e.session in q.lanes {
      LastIsIn(q.lanes[e.session].pending);
    }
    LosingShrinks(q, Next(q, e));
  }

  lemma {:induction false} RemoveFirstWithin(pending: seq<Command>, id: string)
    ensures forall c :: c in RemoveFirst(pending, id) ==> c in pending
  {
    if pending == [] {
    } else {
      RemoveFirstWithin(pending[1..], id);
    }
  }

  lemma DispatchShrinks(q: QueueState, s: string)
    requires s in q.lanes && q.lanes[s].pending != []
    ensures Shrinks(q, DispatchLane(q, s))
  {
    hide SameOrigin;
    var lane, q' := q.lanes[s], DispatchLane(q, s);
    HandedOrigin(lane);
    assert InLane(q, lane.pending[0]);
    forall c | InLane(q', c) ensures InLane(q, c) {
      var t :| t in q'.lanes && c in q'.lanes[t].pending;
      assert t in q.lanes && c in q.lanes[t].pending;
    }
    forall c | InUse(q', c) ensures InUse(q, c) || FromLane(q, c) {
      if c !in q'.workers {
        var t :| t in q'.lanes && q'.lanes[t].active == Some(c);
        assert t != s ==> q.lanes[t].active == Some(c);
      }
    }
  }

  lemma HandedOrigin(lane: LaneState)
    requires lane.pending != []
    ensures SameOrigin(DispatchOf(lane).command, lane.pending[0])
    ensures AfterDispatch(lane).active.Some? && SameOrigin(AfterDispatch(lane).active.value, lane.pending[0])
    ensures forall c :: c in AfterDispatch(lane).pending ==> c in lane.pending
  {
    hide SteeringText;
  }

  lemma {:induction false} WalkShrinksAll(q: QueueState, order: seq<string>, now: int)
    ensures Shrinks(q, Walk(q, order, now).0)
    decreases |order|
  {
    hide DispatchLane, DispatchOf, ElapsedMs, Shrinks;
    if order == [] {
      LosingShrinks(q, q);
    } else {
      var s := order[0];
      if s in q.lanes && q.lanes[s].active.None? {
        if q.activeCount >= q.config.maxConcurrent {
          LosingShrinks(q, q);
        } else if Ready(q.lanes[s], now) {
          DispatchShrinks(q, s);
          WalkShrinksAll(DispatchLane(q, s), order[1..], now);
          ShrinksTwice(q, DispatchLane(q, s), Walk(q, order, now).0);
        } else {
          WalkShrinksAll(q, order[1..], now);
        }
      } else {
        WalkShrinksAll(q, order[1..], now);
      }
    }
  }

  lemma PassShrinks(q: QueueState, e: Event)
    requires e.Pass?
    ensures Shrinks(q, Next(q, e))
  {
    hide Walk, Shrinks;
    var w := Walk(q, e.order, e.now).0;
    WalkShrinksAll(q, e.order, e.now);
    LosingShrinks(w, Next(q, e));
    ShrinksTwice(q, w, Next(q, e));
  }

  lemma SubmitLeft(q: QueueState, e: Event)
    requires e.Submit?
    ensures LeftOf(LaneOf(q, e.session).pending + [CommandOf(q, e)], Next(q, e).lanes[e.session].pending)
    ensures var active := Next(q, e).lanes[e.session].active;
            active.Some? ==> e.session in q.lanes && active == q.lanes[e.session].active
  {
    hide Overflow, LeftOf, NewCommand;
    var lane, cmd := LaneOf(q, e.session), CommandOf(q, e);
    var l, all := Enqueued(lane, cmd), lane.pending + [cmd];
    LastIsIn(lane.pending);
    LeftPart(all, l.pending);
    if !SkipsCap(lane, cmd) {
      OverflowLeaves(l.pending, l.cap, l.drop);
      LeftTwice(all, l.pending, Overflow(l.pending, l.cap, l.drop).0);
    }
  }

  lemma LeftPart(all: seq<Command>, left: seq<Command>)
    requires forall c :: c in left ==> c in all
    ensures LeftOf(all, left)
  {
    assert forall c :: SameOrigin(c, c);
  }

  /** A submission lets in the new command only. */
  lemma SubmitStems(q: QueueState, e: Event, c: Command)
    requires e.Submit?
    ensures InUse(Next(q, e), c) ==> InUse(q, c)
    ensures InLane(Next(q, e), c) ==>
              || (Plain(c) && ComesFrom(c, q, e))
              || exists b :: InLane(q, b) && SameOrigin(c, b) && (Plain(b) ==> Plain(c))
  {
    hide Next, LeftOf, LaneOf;
    var q', s := Next(q, e), e.session;
    SubmitLeft(q, e);
    LaneFound(q, s);
    SubmittedAs(q, e);
    SubmitElsewhere(q, e);
    if InLane(q', c) && !InLane(q, c) {
      assert c in q'.lanes[s].pending;
      LeftFrom(LaneOf(q, s).pending + [CommandOf(q, e)], q'.lanes[s].pending, c);
      var b :| b in LaneOf(q, s).pending + [CommandOf(q, e)] && SameOrigin(c, b) && Plain(c) == Plain(b);
      if b in LaneOf(q, s).pending {
        assert InLane(q, b);
      }
    } else if InLane(q, c) {
      assert SameOrigin(c, c);
    }
  }

  lemma LeftFrom(all: seq<Command>, left: seq<Command>, c: Command)
    ensures LeftOf(all, left) && c in left ==> exists b :: b in all && SameOrigin(c, b) && Plain(c) == Plain(b)
  {
  }

  // ---------------------------------------------------------------- the index

  /** What a submission leaves in the index: the new id and the old ones, but for those that were offered a place
      in the lane and did not get one. */
  lemma SubmitIndex(q: QueueState, used: set<string>, e: Event, id: string)
    requires Inv(q, used) && Possible(q, used, e) && e.Submit?
    ensures var waits := LaneOf(q, e.session).pending;
            var interrupts := IsActive(q, e.session) && ModeAt(q, e) == Interrupt;
            var offered := id == e.id || (if interrupts then waits != [] && id == Last(waits).id else id in Ids(waits));
            id in Next(q, e).index <==>
            (id == e.id || id in q.index) && (offered ==> id in Ids(Next(q, e).lanes[e.session].pending))
  {
    hide Overflow, DistinctIds, HasWorker, Ids, Enqueued, NewCommand;
    var lane, cmd := LaneOf(q, e.session), CommandOf(q, e);
    var l := Enqueued(lane, cmd);
    LaneOfOk(q, used, e.session);
    SubmittedAs(q, e);
    OfferedIds(lane, cmd, id);
    EnqueuedOk(lane, cmd, e.session, q.index);
    EnqueuedPending(lane, cmd);
    if !SkipsCap(lane, cmd) {
      GoneExactly(l.pending, l.cap, l.drop, e.session, id);
    }
  }

  lemma OfferedIds(lane: LaneState, cmd: Command, id: string)
    ensures id in Ids(Enqueued(lane, cmd).pending) <==>
            || id == cmd.id
            || (if cmd.mode == Interrupt && lane.active.Some? then lane.pending != [] && id == Last(lane.pending).id
                else id in Ids(lane.pending))
  {
    hide Ids;
    QueueFates.AppendedIds(lane.pending, cmd);
    QueueFates.AppendedIds(LastN(lane.pending, 1), cmd);
    OneId(lane.pending);
  }

  lemma OneId(pending: seq<Command>)
    ensures Ids(LastN(pending, 1)) == if pending == [] then [] else [Last(pending).id]
  {
  }

  /** The overflow loop gives up exactly the commands it does not keep. */
  lemma GoneExactly(pending: seq<Command>, cap: int, drop: Policy, session: string, id: string)
    requires pending != [] && DistinctIds(pending) && AllOf(pending, session)
    ensures id in Overflow(pending, cap, drop).1 <==>
            id in Ids(pending) && id !in Ids(Overflow(pending, cap, drop).0)
  {
    hide Overflow, Ids, DistinctIds, AllOf;
    OverflowCovers(pending, cap, drop, session);
    if id in Ids(pending) {
      QueueFates.OverflowLosesNone(pending, cap, drop, id);
    }
    if id in Ids(Overflow(pending, cap, drop).0) {
      var i := IdAt(Overflow(pending, cap, drop).0, id);
      assert Overflow(pending, cap, drop).0[i] in Overflow(pending, cap, drop).0;
    }
  }

  // ---------------------------------------------------------------- every run

  ghost predicate WasSubmitted(config: Config, run: seq<Event>, c: Command) {
    exists k :: 0 <= k < |run| && ComesFrom(c, After(config, run[..k]), run[k])
  }

  lemma SubmittedEarlier(config: Config, run: seq<Event>, b: Command, c: Command)
    requires run != [] && WasSubmitted(config, run[..|run| - 1], b) && SameOrigin(c, b)
    ensures WasSubmitted(config, run, c)
  {
    hide After;
    var before := run[..|run| - 1];
    var k :| 0 <= k < |before| && ComesFrom(b, After(config, before[..k]), before[k]);
    assert before[..k] == run[..k] && before[k] == run[k];
    assert ComesFrom(c, After(config, run[..k]), run[k]);
  }

  lemma StepOrigins(q: QueueState, e: Event, c: Command)
    ensures InUse(Next(q, e), c) ==> InUse(q, c) || FromLane(q, c)
    ensures InLane(Next(q, e), c) ==>
              || (Plain(c) && ComesFrom(c, q, e))
              || exists b :: InLane(q, b) && SameOrigin(c, b) && (Plain(b) ==> Plain(c))
  {
    hide Next, ComesFrom;
    if e.Submit? {
      SubmitStems(q, e, c);
    } else {
      if e.Pass? {
        PassShrinks(q, e);
      } else {
        OthersShrink(q, e);
      }
      assert SameOrigin(c, c);
    }
  }

  /** In every run every command that waits carries the id, session, connection, request and time of a submission
      of the run, the mode this asked for or its lane had then, and its text or a summary. */
  lemma {:induction false} WaitingWasSubmitted(config: Config, run: seq<Event>, c: Command)
    requires InLane(After(config, run), c)
    ensures c.collected == None && c.progress == Pending
    ensures exists k :: 0 <= k < |run| && ComesFrom(c, After(config, run[..k]), run[k])
  {
    hide After, ComesFrom, InLane, SameOrigin;
    if run == [] {
      NobodyThere(config, c);
    } else {
      var n := |run| - 1;
      var q, e := After(config, run[..n]), run[n];
      AfterLast(config, run);
      StepOrigins(q, e, c);
      if !(Plain(c) && ComesFrom(c, q, e)) {
        var b :| InLane(q, b) && SameOrigin(c, b) && (Plain(b) ==> Plain(c));
        WaitingWasSubmitted(config, run[..n], b);
        assert WasSubmitted(config, run[..n], b);
        SubmittedEarlier(config, run, b, c);
      }
    }
  }

  /** And so does every command that is active or at work. */
  lemma {:induction false} WorkerWasSubmitted(config: Config, run: seq<Event>, c: Command)
    requires InUse(After(config, run), c)
    ensures exists k :: 0 <= k < |run| && ComesFrom(c, After(config, run[..k]), run[k])
  {
    hide After, ComesFrom, InUse, InLane, SameOrigin;
    if run == [] {
      NobodyThere(config, c);
    } else {
      var n := |run| - 1;
      var q, e := After(config, run[..n]), run[n];
      AfterLast(config, run);
      StepOrigins(q, e, c);
      if InUse(q, c) {
        WorkerWasSubmitted(config, run[..n], c);
        SameItself(c);
        assert WasSubmitted(config, run[..n], c);
        SubmittedEarlier(config, run, c, c);
      } else {
        var b :| InLane(q, b) && SameOrigin(c, b);
        WaitingWasSubmitted(config, run[..n], b);
        assert WasSubmitted(config, run[..n], b);
        SubmittedEarlier(config, run, b, c);
      }
    }
  }

  lemma SameItself(c: Command)
    ensures SameOrigin(c, c)
  {
  }

  lemma NobodyThere(config: Config, c: Command)
    ensures !InLane(After(config, []), c) && !InUse(After(config, []), c)
  {
  }

  // ---------------------------------------------------------------- the texts workers carry

  function OfSession(workers: seq<Command>, session: string): seq<Command> {
    if workers == [] then []
    else (if workers[0].session == session then [workers[0]] else []) + OfSession(workers[1..], session)
  }

  /** The workers of the session that the passes of a run have started, in order. */
  function Started(config: Config, run: seq<Event>, session: string): seq<Command> {
    if run == [] then []
    else
      var before, e := run[..|run| - 1], run[|run| - 1];
      var q := After(config, before);
      Started(config, before, session) +
      if e.Pass? && |q.workers| <= |Next(q, e).workers| then OfSession(Next(q, e).workers[|q.workers|..], session)
      else []
  }

  /** The worker carries these texts: the first is its message, the others make up its collected text. */
  ghost predicate Carries(worker: Command, texts: seq<string>) {
    && texts != [] && worker.message == texts[0]
    && MakeUp(texts[1..], worker.collected, None)
  }

  function Flat(batches: seq<seq<string>>): seq<string> {
    if batches == [] then [] else Flat(batches[..|batches| - 1]) + batches[|batches| - 1]
  }

  lemma OneOfSession(workers: seq<Command>, i: nat, session: string)
    requires i < |workers| && workers[i].session == session
    requires forall j :: 0 <= j < |workers| && workers[j].session == session ==> j == i
    ensures OfSession(workers, session) == [workers[i]]
  {
    if i == 0 {
      NoneOfSession(workers[1..], session);
    } else {
      OneOfSession(workers[1..], i - 1, session);
    }
  }

  lemma NoneOfSession(workers: seq<Command>, session: string)
    ensures (forall j :: 0 <= j < |workers| ==> workers[j].session != session) ==> OfSession(workers, session) == []
  {
  }

  lemma CarriesAll(lane: LaneState, worker: Command, left: LaneState)
    requires HandsOut(lane, worker, left)
    requires forall c :: c in lane.pending ==> c.mode == Collect && c.collected == None
    ensures Carries(worker, Messages(lane.pending)) && left.pending == []
  {
    hide MakeUp;
    assert lane.pending[0] in lane.pending;
    assert Messages(lane.pending)[1..] == Messages(lane.pending[1..]);
  }

  /** Texts in order: those the workers carry, one worker after the other, and then those that wait. */
  ghost predicate InOrder(workers: seq<Command>, batches: seq<seq<string>>, waits: seq<string>, texts: seq<string>) {
    && |batches| == |workers| && (forall i :: 0 <= i < |workers| ==> Carries(workers[i], batches[i]))
    && Flat(batches) + waits == texts
  }

  /** What a pass gives the worker of a session, if it starts one: all the texts that wait. */
  lemma PassGives(q: QueueState, used: set<string>, e: Event, session: string)
    requires Inv(q, used) && Possible(q, used, e) && e.Pass?
    requires forall c :: c in PendingOf(q, session) ==> c.mode == Collect && c.collected == None
    ensures |q.workers| <= |Next(q, e).workers| && exists batches ::
              InOrder(OfSession(Next(q, e).workers[|q.workers|..], session), batches,
                      Messages(PendingOf(Next(q, e), session)), Messages(PendingOf(q, session)))
  {
    hide Next, Inv, Possible, HandsOut, Due, Carries, Messages, InOrder, Flat;
    PassEvent(q, used, e, session);
    var q', n := Next(q, e), |q.workers|;
    var more := OfSession(q'.workers[n..], session);
    var left, waits := Messages(PendingOf(q', session)), Messages(PendingOf(q, session));
    if i: nat :| OneWorker(q'.workers, n, i, session, LaneOf(q, session), LaneOf(q', session)) {
      OneOfSession(q'.workers[n..], i - n, session);
      CarriesAll(LaneOf(q, session), q'.workers[i], LaneOf(q', session));
      NoMessages();
      OneBatch(q'.workers[i], waits);
      assert InOrder(more, [waits], left, waits);
    } else {
      NoneOfSession(q'.workers[n..], session);
      NoBatch(waits);
      assert InOrder(more, [], left, waits);
    }
  }

  lemma OneBatch(worker: Command, texts: seq<string>)
    requires Carries(worker, texts)
    ensures InOrder([worker], [texts], [], texts)
  {
    hide Carries;
    assert [texts][..0] == [];
    assert Flat([texts]) == Flat([]) + texts;
  }

  lemma NoBatch(texts: seq<string>)
    ensures InOrder([], [], texts, texts)
  {
  }

  lemma NoMessages()
    ensures Messages([]) == []
  {
  }

  lemma {:induction false} FlatConcat(a: seq<seq<string>>, b: seq<seq<string>>)
    ensures Flat(a + b) == Flat(a) + Flat(b)
  {
    if b == [] {
      assert a + b == a;
    } else {
      var n := |b| - 1;
      FlatConcat(a, b[..n]);
      assert (a + b)[..|a| + n] == a + b[..n];
    }
  }

  function TextsOf(items: seq<Item>): (texts: seq<string>)
    ensures |texts| == |items| && forall i :: 0 <= i < |items| ==> texts[i] == items[i].message
  {
    seq(|items|, i requires 0 <= i < |items| => items[i].message)
  }

  lemma ItemTexts(commands: seq<Command>)
    ensures TextsOf(Items(commands)) == Messages(commands)
  {
  }

  /** For a session in collect mode throughout, with no overflow and nothing taken back: the texts that its workers
      carry, as message and as collected text, one worker after the other, followed by the texts that still wait,
      are exactly the texts submitted, in order. */
  lemma {:induction false} CollectedTexts(config: Config, run: seq<Event>, session: string)
    requires Legal(config, run) && config.defaultMode == Collect
    requires forall k :: 0 <= k < |run| ==> Gentle(After(config, run[..k]), run[k], session)
    ensures exists batches ::
              InOrder(Started(config, run, session), batches, Messages(PendingOf(After(config, run), session)),
                      Said(run, session))
  {
    hide After, Started, Gentle, InOrder, OfSession, Collecting, Said, PendingOf, Messages, Possible, Used;
    if run == [] {
      NothingSaid(config, session);
    } else {
      var n := |run| - 1;
      var before := run[..n];
      assert forall k :: 0 <= k < n ==> before[..k] == run[..k];
      CollectedTexts(config, before, session);
      CollectRunsInOrder(config, before, session);
      var earlier :| InOrder(Started(config, before, session), earlier,
                             Messages(PendingOf(After(config, before), session)), Said(before, session));
      TextsNext(config, run, session, earlier);
    }
  }

  /** The last event of a run adds the texts it hands to a worker of the session, if any. */
  lemma TextsNext(config: Config, run: seq<Event>, session: string, earlier: seq<seq<string>>)
    requires Legal(config, run) && run != []
    requires var before := run[..|run| - 1]; var q := After(config, before);
             && Gentle(q, run[|run| - 1], session) && Collecting(q, session)
             && InOrder(Started(config, before, session), earlier, Messages(PendingOf(q, session)),
                        Said(before, session))
    ensures exists batches ::
              InOrder(Started(config, run, session), batches, Messages(PendingOf(After(config, run), session)),
                      Said(run, session))
  {
    hide Next, Gentle, Messages, PendingOf, Inv, Possible, InOrder, OfSession, Collecting;
    var before, e := run[..|run| - 1], run[|run| - 1];
    var q := After(config, before);
    RunsKeepInv(config, before);
    AfterLast(config, run);
    QueueFates.LastPossible(config, run);
    var was, waits := Started(config, before, session), Messages(PendingOf(q, session));
    var left := Messages(PendingOf(Next(q, e), session));
    assert Said(run, session) == Said(before, session) + SaidBy(e, session);
    if e.Pass? {
      NoTextYet(config, before, session);
      PassGives(q, Used(before), e, session);
      var more := OfSession(Next(q, e).workers[|q.workers|..], session);
      var batches :| InOrder(more, batches, left, waits);
      InOrderTwice(was, earlier, more, batches, left, waits, Said(before, session));
      assert Said(before, session) + [] == Said(before, session);
      assert Started(config, run, session) == was + more;
    } else {
      WaitsOn(q, Used(before), e, session);
      InOrderLater(was, earlier, waits, Said(before, session), SaidBy(e, session));
      assert Started(config, run, session) == was + [] == was;
    }
  }

  lemma InOrderTwice(a: seq<Command>, x: seq<seq<string>>, b: seq<Command>, y: seq<seq<string>>, left: seq<string>,
                     waits: seq<string>, texts: seq<string>)
    requires InOrder(a, x, waits, texts) && InOrder(b, y, left, waits)
    ensures InOrder(a + b, x + y, left, texts)
  {
    hide Carries, Flat;
    FlatConcat(x, y);
    Regroup(Flat(x), Flat(y), left, waits, []);
    assert waits + [] == waits && Flat(x) + waits + [] == Flat(x) + waits;
  }

  lemma InOrderLater(a: seq<Command>, x: seq<seq<string>>, waits: seq<string>, texts: seq<string>, more: seq<string>)
    requires InOrder(a, x, waits, texts)
    ensures InOrder(a, x, waits + more, texts + more)
  {
    hide Carries, Flat;
    assert Flat(x) + (waits + more) == Flat(x) + waits + more;
  }

  function SaidBy(e: Event, session: string): seq<string> {
    if e.Submit? && e.session == session then [e.message] else []
  }

  lemma NothingSaid(config: Config, session: string)
    ensures InOrder(Started(config, [], session), [], Messages(PendingOf(After(config, []), session)),
                    Said([], session))
  {
  }

  lemma WaitsOn(q: QueueState, used: set<string>, e: Event, session: string)
    requires Inv(q, used) && !e.Pass? && Gentle(q, e, session) && Collecting(q, session)
    ensures Messages(PendingOf(Next(q, e), session)) == Messages(PendingOf(q, session)) + SaidBy(e, session)
  {
    hide Next, Inv, Gentle, Collecting, Items, PendingOf, Messages;
    ItemTexts(PendingOf(q, session));
    ItemTexts(PendingOf(Next(q, e), session));
    if e.Submit? {
      SubmitMoves(q, e, session);
    } else {
      OthersMove(q, used, e, session);
    }
  }

  /** What waits for a collecting session has gathered no text. */
  lemma NoTextYet(config: Config, run: seq<Event>, session: string)
    requires Collecting(After(config, run), session)
    ensures forall c :: c in PendingOf(After(config, run), session) ==> c.mode == Collect && c.collected == None
  {
    hide After, ComesFrom;
    var q := After(config, run);
    forall c | c in PendingOf(q, session) ensures c.collected == None {
      assert InLane(q, c);
      WaitingWasSubmitted(config, run, c);
    }
  }
}
