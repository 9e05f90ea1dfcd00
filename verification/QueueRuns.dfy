/** What every run of the command queue keeps: `src/gateway/command_queue.cpp`.

    A run is any interleaving of submissions, cancellations, aborts, reconfigurations, dispatcher
    passes and worker completions, with ids never used twice.
 */
module QueueRuns {
  import opened Text
  import opened SessionLanes
  import opened CommandQueues

  datatype Event =
    | Submit(id: string, session: string, message: string, connection: string, rpcRequest: string, mode: Mode, now: int)
    | Cancel(id: string)
    | Abort(session: string)
    | Configure(session: string, mode: Mode, debounceMs: int, cap: int, drop: Option<Policy>)
    | SetConfig(config: Config)
    | Pass(order: seq<string>, now: int)
    | Complete(worker: nat)

  ghost predicate Possible(q: QueueState, used: set<string>, e: Event) {
    match e
    case Submit(id, _, _, _, _, _, _) => id !in used
    case Pass(order, _) => Enumerates(order, q.lanes.Keys)
    case Complete(i) => i < |q.workers|
    case _ => true
  }

  function CommandOf(q: QueueState, e: Event): Command
    requires e.Submit?
  {
    NewCommand(LaneOf(q, e.session), e.id, e.session, e.message, e.connection, e.rpcRequest, e.mode, e.now)
  }

  function Next(q: QueueState, e: Event): QueueState {
    match e
    case Submit(_, session, _, _, _, _, _) => Submitted(q, session, CommandOf(q, e)).0
    case Cancel(id) => Cancelled(q, id).0
    case Abort(session) => Aborted(q, session).0
    case Configure(session, mode, debounceMs, cap, drop) => Reconfigured(q, session, mode, debounceMs, cap, drop)
    case SetConfig(config) => q.(config := config)
    case Pass(order, now) => Passed(q, order, now).0
    case Complete(i) => if i < |q.workers| then Completed(q, i) else q
  }

  // ---------------------------------------------------------------- runs

  function Start(config: Config): QueueState {
    QueueState(config, map[], map[], 0, [])
  }

  function Used(run: seq<Event>): set<string> {
    if run == [] then {}
    else
      var e := run[|run| - 1];
      Used(run[..|run| - 1]) + if e.Submit? then {e.id} else {}
  }

  /** The queue after a run. */
  function After(config: Config, run: seq<Event>): QueueState {
    if run == [] then Start(config) else Next(After(config, run[..|run| - 1]), run[|run| - 1])
  }

  /** Every event of the run was possible when it came. */
  ghost predicate Legal(config: Config, run: seq<Event>) {
    || run == []
    || (var before, e := run[..|run| - 1], run[|run| - 1];
        Legal(config, before) && Possible(After(config, before), Used(before), e))
  }

  // ---------------------------------------------------------------- the invariant

  ghost predicate DistinctIds(pending: seq<Command>) {
    forall i, j :: 0 <= i < j < |pending| ==> pending[i].id != pending[j].id
  }

  /** A lane whose waiting commands are its own, are different, and are found under its session. */
  ghost predicate LaneOk(lane: LaneState, session: string, index: map<string, string>) {
    && lane.key == session
    && DistinctIds(lane.pending)
    && (forall c :: c in lane.pending ==> c.session == session && c.id in index && index[c.id] == session)
  }

  ghost predicate HasWorker(workers: seq<Command>, session: string, id: string) {
    exists w :: w in workers && w.session == session && w.id == id
  }

  /** What a lane runs has a worker, and is no longer in the index. */
  ghost predicate ActiveOk(lane: LaneState, session: string, q: QueueState, used: set<string>) {
    lane.active.Some? ==>
      && lane.active.value.id in used && lane.active.value.id !in q.index
      && HasWorker(q.workers, session, lane.active.value.id)
  }

  ghost predicate Inv(q: QueueState, used: set<string>) {
    && q.activeCount == |q.workers|
    && q.index.Keys <= used
    && (forall s :: s in q.lanes ==> LaneOk(q.lanes[s], s, q.index) && ActiveOk(q.lanes[s], s, q, used))
  }

  // ---------------------------------------------------------------- overflow and the index

  ghost predicate AllOf(pending: seq<Command>, session: string) {
    forall c :: c in pending ==> c.session == session
  }

  /** What the overflow loop may make of a lane: different commands of the same session, none of them
      given up, and only waiting commands given up. */
  ghost predicate Covers(pending: seq<Command>, kept: seq<Command>, gone: seq<string>, session: string) {
    && DistinctIds(kept) && AllOf(kept, session)
    && (forall c :: c in kept ==> c.id in Ids(pending) && c.id !in gone)
    && (forall id :: id in gone ==> id in Ids(pending))
  }

  lemma IdAt(pending: seq<Command>, id: string) returns (i: nat)
    requires id in Ids(pending)
    ensures i < |pending| && pending[i].id == id
  {
    i :| 0 <= i < |Ids(pending)| && Ids(pending)[i] == id;
  }

  lemma InIds(pending: seq<Command>, c: Command)
    ensures c in pending ==> c.id in Ids(pending)
  {
  }

  lemma DropOneCovers(pending: seq<Command>, drop: Policy, session: string)
    requires pending != [] && DistinctIds(pending) && AllOf(pending, session)
    ensures Covers(pending, DropOne(pending, drop).0, DropOne(pending, drop).1, session)
  {
    hide QueueSummary.Merge, Covers, DistinctIds, AllOf;
    var n := |pending| - 1;
    match drop
    case Summarize =>
      if n == 0 {
        OthersCover(pending, pending, [], 0, session);
      } else {
        var merged := pending[0].(message := QueueSummary.Merge(pending[0].message, pending[1].message));
        OthersCover(pending, [merged] + pending[2..], [pending[1].id], 1, session);
      }
    case DropOldest => OthersCover(pending, pending[1..], [pending[0].id], 0, session);
    case Reject => OthersCover(pending, pending[..n], [pending[n].id], n, session);
  }

  /** The commands but the one at this place are kept, in order. */
  predicate StaysBut(pending: seq<Command>, kept: seq<Command>, gone: seq<string>, at: nat) {
    && |gone| <= 1 && |kept| + |gone| == |pending|
    && (gone != [] ==> at < |pending| && gone[0] == pending[at].id)
    && forall i :: 0 <= i < |kept| ==> SameCommand(kept[i], pending[if i < at then i else i + |gone|])
  }

  predicate SameCommand(a: Command, b: Command) {
    a.id == b.id && a.session == b.session
  }

  /** Giving up one command, or none, when all others stay, maybe with another text. */
  lemma OthersCover(pending: seq<Command>, kept: seq<Command>, gone: seq<string>, at: nat, session: string)
    requires DistinctIds(pending) && AllOf(pending, session)
    requires StaysBut(pending, kept, gone, at)
    ensures Covers(pending, kept, gone, session)
  {
    forall i | 0 <= i < |kept|
      ensures kept[i].id in Ids(pending) && kept[i].id !in gone && kept[i].session == session
    {
      var j := if i < at then i else i + |gone|;
      assert pending[j] in pending && Ids(pending)[j] == kept[i].id;
    }
    assert gone != [] ==> Ids(pending)[at] == gone[0];
  }

  lemma {:induction false} OverflowCovers(pending: seq<Command>, cap: int, drop: Policy, session: string)
    requires (cap >= 0 || pending != []) && DistinctIds(pending) && AllOf(pending, session)
    ensures Covers(pending, Overflow(pending, cap, drop).0, Overflow(pending, cap, drop).1, session)
    decreases |pending|
  {
    hide DropOne;
    if |pending| <= cap {
      forall c | c in pending ensures c.id in Ids(pending) { InIds(pending, c); }
    } else {
      DropOneCovers(pending, drop, session);
      DropOneSmaller(pending, cap, drop);
      if cap > 0 {
        var (kept, gone) := DropOne(pending, drop);
        OverflowCovers(kept, cap, drop, session);
        CoversChain(pending, kept, gone, Overflow(kept, cap, drop).0, Overflow(kept, cap, drop).1, session);
      }
    }
  }

  lemma DropOneSmaller(pending: seq<Command>, cap: int, drop: Policy)
    ensures pending != [] && |pending| > cap ==>
              (cap > 0 ==> |DropOne(pending, drop).0| < |pending| && DropOne(pending, drop).0 != [])
  {
  }

  lemma CoversChain(a: seq<Command>, b: seq<Command>, gone: seq<string>, c: seq<Command>, gone': seq<string>,
                    session: string)
    ensures Covers(a, b, gone, session) && Covers(b, c, gone', session) ==> Covers(a, c, gone + gone', session)
  {
  }

  // ---------------------------------------------------------------- every step keeps the invariant

  /** Replacing one lane: the other lanes only need the index to keep their entries. */
  lemma LaneReplaced(q: QueueState, used: set<string>, session: string, lane: LaneState, q': QueueState,
                     used': set<string>)
    requires Inv(q, used) && used <= used'
    requires q'.lanes == q.lanes[session := lane] && q'.index.Keys <= used'
    requires q'.workers == q.workers && q'.activeCount == q.activeCount
    requires LaneOk(lane, session, q'.index) && ActiveOk(lane, session, q', used')
    requires forall s, c :: s in q.lanes && s != session && c in q.lanes[s].pending ==>
               c.id in q'.index && q'.index[c.id] == s
    requires forall id :: id in q'.index ==> id in q.index || id !in used
    ensures Inv(q', used')
  {
  }

  lemma LaneOfOk(q: QueueState, used: set<string>, session: string)
    ensures Inv(q, used) ==>
              LaneOk(LaneOf(q, session), session, q.index) && ActiveOk(LaneOf(q, session), session, q, used)
  {
  }

  lemma LastIsIn(pending: seq<Command>)
    ensures forall c :: c in LastN(pending, 1) ==> c in pending
    ensures DistinctIds(LastN(pending, 1))
  {
  }

  lemma EnqueuedOk(lane: LaneState, cmd: Command, session: string, index: map<string, string>)
    requires LaneOk(lane, session, index) && cmd.session == session && cmd.id !in index
    ensures LaneOk(Enqueued(lane, cmd), session, index[cmd.id := session])
    ensures Enqueued(lane, cmd).active == if cmd.mode == Interrupt then None else lane.active
  {
  }

  lemma InvSubmit(q: QueueState, used: set<string>, session: string, cmd: Command)
    requires Inv(q, used) && cmd.id !in used && cmd.session == session
    ensures Inv(Submitted(q, session, cmd).0, used + {cmd.id})
  {
    hide Enqueued, Overflow, DistinctIds, HasWorker, LaneOf;
    var lane := LaneOf(q, session);
    LaneOfOk(q, used, session);
    EnqueuedOk(lane, cmd, session, q.index);
    EnqueuedPending(lane, cmd);
    var l, index, q' := Enqueued(lane, cmd), q.index[cmd.id := session], Submitted(q, session, cmd).0;
    if SkipsCap(lane, cmd) {
      LaneReplaced(q, used, session, l, q', used + {cmd.id});
    } else {
      var (kept, gone) := Overflow(l.pending, l.cap, l.drop);
      OverflowCovers(l.pending, l.cap, l.drop, session);
      var l' := l.(pending := kept);
      forall c | c in kept ensures c.id in q'.index && q'.index[c.id] == session {
        var i := IdAt(l.pending, c.id);
        assert l.pending[i] in l.pending;
      }
      LaneReplaced(q, used, session, l', q', used + {cmd.id});
    }
  }

  lemma RemoveFirstKeeps(pending: seq<Command>, id: string)
    requires DistinctIds(pending)
    ensures DistinctIds(RemoveFirst(pending, id))
    ensures forall c :: c in RemoveFirst(pending, id) <==> c in pending && c.id != id
  {
  }

  lemma InvCancel(q: QueueState, used: set<string>, id: string)
    requires Inv(q, used)
    ensures Inv(Cancelled(q, id).0, used)
  {
    hide RemoveFirst, DistinctIds, HasWorker, LaneOf;
    if id in q.index {
      var session := q.index[id];
      var lane := LaneOf(q, session);
      LaneOfOk(q, used, session);
      RemoveFirstKeeps(lane.pending, id);
      forall s, c | s in q.lanes && s != session && c in q.lanes[s].pending
        ensures c.id in q.index - {id} && (q.index - {id})[c.id] == s
      {
        assert LaneOk(q.lanes[s], s, q.index);
      }
      LaneReplaced(q, used, session, lane.(pending := RemoveFirst(lane.pending, id)), Cancelled(q, id).0, used);
    }
  }

  lemma DispatchedLaneOk(lane: LaneState, session: string, index: map<string, string>)
    requires LaneOk(lane, session, index) && lane.pending != []
    ensures LaneOk(AfterDispatch(lane), session, index - {lane.pending[0].id})
    ensures AfterDispatch(lane).active.Some? && AfterDispatch(lane).active.value.id == lane.pending[0].id
    ensures DispatchOf(lane).command.id == lane.pending[0].id && DispatchOf(lane).command.session == session
  {
  }

  lemma MoreWorkers(workers: seq<Command>, more: Command)
    ensures forall session, id :: HasWorker(workers, session, id) ==> HasWorker(workers + [more], session, id)
    ensures HasWorker(workers + [more], more.session, more.id)
  {
  }

  lemma InvDispatch(q: QueueState, used: set<string>, session: string)
    requires Inv(q, used) && session in q.lanes && q.lanes[session].pending != []
    ensures Inv(DispatchLane(q, session), used)
  {
    hide DistinctIds, HasWorker, AfterDispatch, DispatchOf;
    var lane, q' := q.lanes[session], DispatchLane(q, session);
    var id := lane.pending[0].id;
    assert LaneOk(lane, session, q.index) && lane.pending[0] in lane.pending;
    DispatchedLaneOk(lane, session, q.index);
    MoreWorkers(q.workers, DispatchOf(lane).command);
    forall s | s in q'.lanes ensures LaneOk(q'.lanes[s], s, q'.index) && ActiveOk(q'.lanes[s], s, q', used) {
      if s != session {
        assert LaneOk(q.lanes[s], s, q.index) && ActiveOk(q.lanes[s], s, q, used);
      }
    }
  }

  lemma {:induction false} InvWalk(q: QueueState, used: set<string>, order: seq<string>, now: int)
    requires Inv(q, used)
    ensures Inv(Walk(q, order, now).0, used)
    decreases |order|
  {
    hide Inv, DispatchLane, DispatchOf, ElapsedMs;
    if order == [] {
    } else {
      var session := order[0];
      if session !in q.lanes || q.lanes[session].active.Some? {
        InvWalk(q, used, order[1..], now);
      } else if q.activeCount < q.config.maxConcurrent {
        if Ready(q.lanes[session], now) {
          InvDispatch(q, used, session);
          InvWalk(DispatchLane(q, session), used, order[1..], now);
        } else {
          InvWalk(q, used, order[1..], now);
        }
      }
    }
  }

  lemma InvOthers(q: QueueState, used: set<string>, e: Event)
    requires Inv(q, used) && !e.Submit? && !e.Cancel? && (e.Complete? ==> e.worker < |q.workers|)
    ensures Inv(Next(q, e), used)
  {
    hide Walk, Submitted, Cancelled, DistinctIds, HasWorker, LastN;
    match e
    case Pass(order, now) => InvWalk(q, used, order, now);
    case Abort(s) => if s in q.lanes { LastIsIn(q.lanes[s].pending); }
    case Complete(i) => WorkersLeft(q.workers, i);
    case Configure(s, _, _, _, _) => LaneOfOk(q, used, s);
    case SetConfig(_) =>
  }

  lemma WorkersLeft(workers: seq<Command>, i: nat)
    requires i < |workers|
    ensures forall session, id :: session != workers[i].session && HasWorker(workers, session, id) ==>
              HasWorker(workers[..i] + workers[i + 1..], session, id)
  {
  }

  lemma InvNext(q: QueueState, used: set<string>, e: Event)
    requires Inv(q, used) && Possible(q, used, e)
    ensures Inv(Next(q, e), used + if e.Submit? then {e.id} else {})
  {
    hide Submitted, Cancelled, Aborted, Reconfigured, Passed, Completed, Inv, LaneOf;
    assert used + {} == used;
    match e
    case Submit(_, session, _, _, _, _, _) => InvSubmit(q, used, session, CommandOf(q, e));
    case Cancel(id) => InvCancel(q, used, id);
    case _ => InvOthers(q, used, e);
  }

  /** In every run: the count of the active is the number of dispatched and uncompleted commands, every
      waiting command is found in the index under the session of its lane, and every active lane has a
      running worker. */
  lemma {:induction false} RunsKeepInv(config: Config, run: seq<Event>)
    requires Legal(config, run)
    ensures Inv(After(config, run), Used(run))
  {
    hide Inv, Next, Possible;
    if run == [] {
      InvStart(config);
    } else {
      var before, e := run[..|run| - 1], run[|run| - 1];
      RunsKeepInv(config, before);
      InvNext(After(config, before), Used(before), e);
    }
  }

  lemma InvStart(config: Config)
    ensures Inv(Start(config), {})
  {
  }

  // ---------------------------------------------------------------- cancelling

  /** In every state of a run, cancelling answers true exactly when the command is waiting somewhere;
      then that command and no other leaves, whatever stale entries the index has. */
  lemma {:induction false} CancelExact(config: Config, run: seq<Event>, id: string)
    requires Legal(config, run)
    ensures var q := After(config, run); var (q', answer) := Cancelled(q, id);
            && (answer <==> exists s :: s in q.lanes && id in Ids(q.lanes[s].pending))
            && q'.index == q.index - {id}
            && (forall s :: s in q.lanes ==>
                  && s in q'.lanes && q'.lanes[s].active == q.lanes[s].active
                  && (id !in Ids(q.lanes[s].pending) ==> q'.lanes[s] == q.lanes[s])
                  && (id in Ids(q.lanes[s].pending) ==>
                        |q'.lanes[s].pending| == |q.lanes[s].pending| - 1 &&
                        forall c :: c in q'.lanes[s].pending <==> c in q.lanes[s].pending && c.id != id))
  {
    hide After, DistinctIds, RemoveFirst;
    RunsKeepInv(config, run);
    var q := After(config, run);
    forall s | s in q.lanes && id in Ids(q.lanes[s].pending) ensures id in q.index && q.index[id] == s {
      assert LaneOk(q.lanes[s], s, q.index);
      var i := IdAt(q.lanes[s].pending, id);
      assert q.lanes[s].pending[i] in q.lanes[s].pending;
    }
    if id in q.index {
      var s := q.index[id];
      LaneOfOk(q, Used(run), s);
      RemoveOne(LaneOf(q, s).pending, id);
    }
  }

  lemma RemoveOne(pending: seq<Command>, id: string)
    requires DistinctIds(pending)
    ensures id !in Ids(pending) ==> RemoveFirst(pending, id) == pending
    ensures id in Ids(pending) ==> |RemoveFirst(pending, id)| == |pending| - 1
    ensures forall c :: c in RemoveFirst(pending, id) <==> c in pending && c.id != id
  {
    RemoveFirstKeeps(pending, id);
    if id in Ids(pending) {
      var i := IdAt(pending, id);
      RemoveFirstAt(pending, i);
    } else {
      RemoveFirstAbsent(pending, id);
    }
  }

  // ---------------------------------------------------------------- the concurrency limit

  lemma {:induction false} WalkBounded(q: QueueState, order: seq<string>, now: int)
    ensures var q' := Walk(q, order, now).0;
            q'.config == q.config && (q'.activeCount == q.activeCount || q'.activeCount <= q.config.maxConcurrent)
    decreases |order|
  {
    hide DispatchOf, AfterDispatch, ElapsedMs;
    if order != [] && order[0] in q.lanes {
      if q.lanes[order[0]].active.None? && q.activeCount < q.config.maxConcurrent && Ready(q.lanes[order[0]], now) {
        WalkBounded(DispatchLane(q, order[0]), order[1..], now);
      } else {
        WalkBounded(q, order[1..], now);
      }
    } else if order != [] {
      WalkBounded(q, order[1..], now);
    }
  }

  /** No event but a reconfiguration of the queue itself can take the count past the limit in force. */
  lemma NextBounded(q: QueueState, e: Event, limit: nat)
    requires q.activeCount <= limit && q.config.maxConcurrent <= limit
    requires e.SetConfig? ==> e.config.maxConcurrent <= limit
    ensures Next(q, e).activeCount <= limit && Next(q, e).config.maxConcurrent <= limit
  {
    hide Overflow, Enqueued, LaneOf, RemoveFirst, Walk, WithoutIdle, Interrupted, Configured, SkipsCap, NewCommand;
    if e.Pass? {
      WalkBounded(q, e.order, e.now);
    }
  }

  /** In every run the number of commands at work never exceeds the largest limit configured so far. */
  lemma {:induction false} RunsStayBounded(config: Config, run: seq<Event>, limit: nat)
    requires Legal(config, run)
    requires config.maxConcurrent <= limit
    requires forall e :: e in run && e.SetConfig? ==> e.config.maxConcurrent <= limit
    ensures |After(config, run).workers| <= limit
  {
    RunsKeepInv(config, run);
    CountBounded(config, run, limit);
  }

  lemma {:induction false} CountBounded(config: Config, run: seq<Event>, limit: nat)
    requires config.maxConcurrent <= limit
    requires forall e :: e in run && e.SetConfig? ==> e.config.maxConcurrent <= limit
    ensures After(config, run).activeCount <= limit && After(config, run).config.maxConcurrent <= limit
  {
    hide Next;
    if run == [] {
    } else {
      CountBounded(config, run[..|run| - 1], limit);
      NextBounded(After(config, run[..|run| - 1]), run[|run| - 1], limit);
    }
  }

  // ---------------------------------------------------------------- one worker per session

  ghost predicate IsActive(q: QueueState, session: string) {
    session in q.lanes && q.lanes[session].active.Some?
  }

  ghost predicate Works(workers: seq<Command>, session: string) {
    exists i :: 0 <= i < |workers| && workers[i].session == session
  }

  /** The promise of serialization: no session has two workers, and a lane is active exactly while its
      session has one. */
  ghost predicate Serialized(q: QueueState) {
    && (forall i, j :: 0 <= i < j < |q.workers| ==> q.workers[i].session != q.workers[j].session)
    && (forall s :: IsActive(q, s) <==> Works(q.workers, s))
  }

  /** The event clears an active lane while its worker goes on. */
  ghost predicate Interrupts(q: QueueState, e: Event) {
    || (e.Submit? && IsActive(q, e.session)
        && (if e.mode == Collect then q.lanes[e.session].mode else e.mode) == Interrupt)
    || (e.Abort? && IsActive(q, e.session))
  }

  lemma SameActivity(q: QueueState, q': QueueState)
    requires Serialized(q) && q'.workers == q.workers
    ensures (forall s :: IsActive(q', s) <==> IsActive(q, s)) ==> Serialized(q')
    ensures (exists s :: IsActive(q, s) && !IsActive(q', s)) ==> !Serialized(q')
  {
  }

  lemma SubmitActivity(q: QueueState, session: string, cmd: Command)
    ensures var q' := Submitted(q, session, cmd).0;
            && q'.workers == q.workers
            && (forall s :: s != session ==> (IsActive(q', s) <==> IsActive(q, s)))
            && (IsActive(q', session) <==> IsActive(q, session) && cmd.mode != Interrupt)
  {
    hide Overflow, LastN;
  }

  lemma OthersKeepActivity(q: QueueState, e: Event)
    requires e.Cancel? || e.Configure? || e.SetConfig? || e.Abort?
    ensures Next(q, e).workers == q.workers
    ensures forall s :: !(e.Abort? && s == e.session) ==> (IsActive(Next(q, e), s) <==> IsActive(q, s))
    ensures e.Abort? ==> !IsActive(Next(q, e), e.session)
  {
    hide RemoveFirst, LastN, Submitted, Passed, Completed;
  }

  lemma DispatchSerialized(q: QueueState, session: string)
    requires Serialized(q) && session in q.lanes && q.lanes[session].pending != [] && !IsActive(q, session)
    requires q.lanes[session].pending[0].session == session
    ensures Serialized(DispatchLane(q, session))
  {
    hide SteeringText;
    var q' := DispatchLane(q, session);
    var n := |q.workers|;
    assert q'.workers[n].session == session;
    forall s ensures IsActive(q', s) <==> Works(q'.workers, s) {
      if Works(q.workers, s) {
        var i :| 0 <= i < n && q.workers[i].session == s;
        assert q'.workers[i].session == s;
      }
    }
  }

  lemma {:induction false} WalkSerialized(q: QueueState, used: set<string>, order: seq<string>, now: int)
    requires Inv(q, used) && Serialized(q)
    ensures Serialized(Walk(q, order, now).0)
    decreases |order|
  {
    hide DispatchLane, DispatchOf, ElapsedMs, Serialized, DistinctIds, ActiveOk;
    if order == [] {
    } else {
      var session := order[0];
      if session !in q.lanes || q.lanes[session].active.Some? {
        WalkSerialized(q, used, order[1..], now);
      } else if q.activeCount < q.config.maxConcurrent {
        if Ready(q.lanes[session], now) {
          assert LaneOk(q.lanes[session], session, q.index);
          assert q.lanes[session].pending[0] in q.lanes[session].pending;
          InvDispatch(q, used, session);
          DispatchSerialized(q, session);
          WalkSerialized(DispatchLane(q, session), used, order[1..], now);
        } else {
          WalkSerialized(q, used, order[1..], now);
        }
      }
    }
  }

  lemma CompleteSerialized(q: QueueState, i: nat)
    requires Serialized(q) && i < |q.workers|
    ensures Serialized(Completed(q, i))
  {
    hide Works;
    OneWorkerLess(q.workers, i);
    var session := q.workers[i].session;
    assert forall s :: IsActive(Completed(q, i), s) <==> IsActive(q, s) && s != session;
  }

  /** Among workers of different sessions, each session has the one worker only. */
  lemma OneWorkerLess(workers: seq<Command>, i: nat)
    requires i < |workers| && forall j, k :: 0 <= j < k < |workers| ==> workers[j].session != workers[k].session
    ensures var rest := workers[..i] + workers[i + 1..];
            && (forall j, k :: 0 <= j < k < |rest| ==> rest[j].session != rest[k].session)
            && (forall s :: Works(rest, s) <==> Works(workers, s) && s != workers[i].session)
  {
    var rest := workers[..i] + workers[i + 1..];
    assert forall j :: 0 <= j < |rest| ==> rest[j] == workers[if j < i then j else j + 1];
    forall s | Works(workers, s) && s != workers[i].session ensures Works(rest, s) {
      var k :| 0 <= k < |workers| && workers[k].session == s;
      assert rest[if k < i then k else k - 1] == workers[k];
    }
  }

  /** One event keeps the serialization exactly when it does not interrupt an active lane. */
  lemma SerializedStep(q: QueueState, used: set<string>, e: Event)
    requires Inv(q, used) && Serialized(q) && Possible(q, used, e)
    ensures Serialized(Next(q, e)) <==> !Interrupts(q, e)
  {
    hide Inv, Submitted, Cancelled, Aborted, Reconfigured, Walk, Completed, Serialized;
    match e
    case Submit(_, session, _, _, _, _, _) =>
      SubmitActivity(q, session, CommandOf(q, e));
      SameActivity(q, Next(q, e));
    case Pass(order, now) =>
      WalkSerialized(q, used, order, now);
      SameActivity(Walk(q, order, now).0, Next(q, e));
    case Complete(i) => CompleteSerialized(q, i);
    case _ =>
      OthersKeepActivity(q, e);
      SameActivity(q, Next(q, e));
  }

  /** A run is serialized at every moment exactly when none of its events interrupts an active lane. */
  lemma {:induction false} SerializedRun(config: Config, run: seq<Event>)
    requires Legal(config, run)
    ensures (forall k :: 0 <= k <= |run| ==> Serialized(After(config, run[..k]))) <==>
            (forall k :: 0 <= k < |run| ==> !Interrupts(After(config, run[..k]), run[k]))
  {
    hide After, Serialized, Interrupts, Next;
    assert run[..|run|] == run;
    if run == [] {
      StartSerialized(config);
    } else {
      var n := |run| - 1;
      var before, e := run[..n], run[n];
      SerializedRun(config, before);
      RunsKeepInv(config, before);
      AfterLast(config, run);
      assert forall k :: 0 <= k <= n ==> before[..k] == run[..k];
      if Serialized(After(config, before)) {
        SerializedStep(After(config, before), Used(before), e);
      }
    }
  }

  lemma StartSerialized(config: Config)
    ensures Serialized(After(config, []))
  {
  }

  lemma AfterLast(config: Config, run: seq<Event>)
    ensures run != [] ==> After(config, run) == Next(After(config, run[..|run| - 1]), run[|run| - 1])
  {
  }

  /** The workers a pass adds are the commands of its dispatches, in order. */
  lemma {:induction false} WalkAddsDispatches(q: QueueState, order: seq<string>, now: int)
    ensures var (q', ds) := Walk(q, order, now);
            |q'.workers| == |q.workers| + |ds| && q.workers <= q'.workers &&
            forall i :: 0 <= i < |ds| ==> q'.workers[|q.workers| + i] == ds[i].command
    decreases |order|
  {
    hide DispatchOf, AfterDispatch, ElapsedMs;
    if order == [] {
    } else {
      if order[0] in q.lanes && q.lanes[order[0]].active.None? &&
         q.activeCount < q.config.maxConcurrent && Ready(q.lanes[order[0]], now) {
        WalkAddsDispatches(DispatchLane(q, order[0]), order[1..], now);
      } else {
        WalkAddsDispatches(q, order[1..], now);
      }
    }
  }

  /** How serialization is lost: after an abort of an active session, the next message of that session
      is dispatched while the aborted worker still runs. */
  lemma AbortThenSubmitOverlaps(q: QueueState, used: set<string>, session: string, cmd: Command,
                                order: seq<string>, now: int)
    requires Inv(q, used) && IsActive(q, session) && cmd.session == session && cmd.id !in used
    requires order != [] && order[0] == session && q.activeCount < q.config.maxConcurrent
    requires var q2 := Submitted(Aborted(q, session).0, session, cmd).0;
             session in q2.lanes && Ready(q2.lanes[session], now)
    ensures var workers := Passed(Submitted(Aborted(q, session).0, session, cmd).0, order, now).0.workers;
            exists i, j :: 0 <= i < j < |workers| && workers[i].session == workers[j].session == session
  {
    hide Overflow, LastN, SteeringText, ElapsedMs, AfterDispatch, DistinctIds, Submitted, LaneOk;
    assert ActiveOk(q.lanes[session], session, q, used);
    var w :| w in q.workers && w.session == session && w.id == q.lanes[session].active.value.id;
    var i: nat :| i < |q.workers| && q.workers[i] == w;
    var q1 := Aborted(q, session).0;
    InvOthers(q, used, Abort(session));
    var q2 := Submitted(q1, session, cmd).0;
    InvSubmit(q1, used, session, cmd);
    AfterAbort(q, session, cmd);
    var lane, q3 := q2.lanes[session], DispatchLane(q2, session);
    assert LaneOk(lane, session, q2.index);
    DispatchedLaneOk(lane, session, q2.index);
    WalkAddsDispatches(q3, order[1..], now);
    var workers := Passed(q2, order, now).0.workers;
    var n := |q.workers|;
    assert q3.workers <= workers;
    assert workers[i] == q3.workers[i] && workers[n] == q3.workers[n];
  }

  lemma AfterAbort(q: QueueState, session: string, cmd: Command)
    ensures session in q.lanes ==>
              var q2 := Submitted(Aborted(q, session).0, session, cmd).0;
              session in q2.lanes && q2.lanes[session].active.None? && q2.workers == q.workers &&
              q2.activeCount == q.activeCount && q2.config == q.config
  {
    hide Overflow, LastN;
  }

  // ---------------------------------------------------------------- the cap

  /** A submission leaves a lane within its cap exactly when it does not steer a full lane that is active. */
  lemma CapKept(q: QueueState, session: string, cmd: Command)
    requires LaneOf(q, session).cap >= 1
    ensures var l := Submitted(q, session, cmd).0.lanes[session];
            |l.pending| <= l.cap <==>
            !((cmd.mode == Steer || cmd.mode == SteerBacklog) && LaneOf(q, session).active.Some?
              && |LaneOf(q, session).pending| >= LaneOf(q, session).cap)
  {
    hide Overflow, LastN;
    var l := Enqueued(LaneOf(q, session), cmd);
    OverflowCounts(l.pending, l.cap, l.drop);
  }

  ghost predicate WithinCap(q: QueueState, session: string) {
    |PendingOf(q, session)| <= LaneOf(q, session).cap
  }

  /** The two ways past the cap: a message that steers a full lane, and a cap set below what waits. */
  ghost predicate Overfills(q: QueueState, e: Event, session: string) {
    || (e.Submit? && e.session == session && IsActive(q, session)
        && (if e.mode == Collect then q.lanes[session].mode else e.mode) in {Steer, SteerBacklog}
        && |q.lanes[session].pending| >= q.lanes[session].cap)
    || (e.Configure? && e.session == session && 0 <= e.cap < |PendingOf(q, session)|)
  }

  /** The caps that are set are at least one, as the overflow loop expects. */
  predicate SetsPositiveCaps(e: Event, session: string) {
    && (e.SetConfig? ==> e.config.cap >= 1)
    && (e.Configure? && e.session == session ==> e.cap != 0)
  }

  lemma {:induction false} WalkShrinks(q: QueueState, order: seq<string>, now: int, session: string)
    ensures var q' := Walk(q, order, now).0;
            && q'.config == q.config && (session in q'.lanes <==> session in q.lanes)
            && LaneOf(q', session).cap == LaneOf(q, session).cap
            && |PendingOf(q', session)| <= |PendingOf(q, session)|
    decreases |order|
  {
    hide DispatchOf, ElapsedMs;
    if order == [] {
    } else {
      var s := order[0];
      if s in q.lanes && q.lanes[s].active.None? && q.activeCount < q.config.maxConcurrent && Ready(q.lanes[s], now) {
        WalkShrinks(DispatchLane(q, s), order[1..], now, session);
      } else {
        WalkShrinks(q, order[1..], now, session);
      }
    }
  }

  lemma CapsStayPositive(q: QueueState, e: Event, session: string)
    requires q.config.cap >= 1 && LaneOf(q, session).cap >= 1 && SetsPositiveCaps(e, session)
    ensures Next(q, e).config.cap >= 1 && LaneOf(Next(q, e), session).cap >= 1
  {
    hide Overflow, Walk, LastN, RemoveFirst, Ids;
    if e.Pass? {
      WalkShrinks(q, e.order, e.now, session);
    }
  }

  lemma CapStep(q: QueueState, e: Event, session: string)
    requires q.config.cap >= 1 && LaneOf(q, session).cap >= 1 && SetsPositiveCaps(e, session)
    requires WithinCap(q, session)
    ensures WithinCap(Next(q, e), session) <==> !Overfills(q, e, session)
  {
    hide Overflow, Walk, RemoveFirst, Ids;
    match e
    case Submit(_, s, _, _, _, _, _) => if s == session { CapKept(q, s, CommandOf(q, e)); }
    case Cancel(id) => RemoveShrinks(PendingOf(q, session), id);
    case Pass(order, now) => WalkShrinks(q, order, now, session);
    case _ =>
  }

  lemma RemoveShrinks(pending: seq<Command>, id: string)
    ensures |RemoveFirst(pending, id)| <= |pending|
  {
  }

  /** A lane is within its cap at every moment of a run exactly when no event of the run is of one of these two
      kinds. */
  lemma {:induction false} CapOverRuns(config: Config, run: seq<Event>, session: string)
    requires config.cap >= 1 && forall e :: e in run ==> SetsPositiveCaps(e, session)
    ensures (forall k :: 0 <= k <= |run| ==> WithinCap(After(config, run[..k]), session)) <==>
            (forall k :: 0 <= k < |run| ==> !Overfills(After(config, run[..k]), run[k], session))
    ensures After(config, run).config.cap >= 1 && LaneOf(After(config, run), session).cap >= 1
  {
    hide After, WithinCap, Overfills, Next, LaneOf;
    assert run[..|run|] == run;
    if run == [] {
      NothingWaits(config, session);
    } else {
      var n := |run| - 1;
      var before, e := run[..n], run[n];
      assert e in run && forall x :: x in before ==> x in run;
      CapOverRuns(config, before, session);
      AfterLast(config, run);
      assert forall k :: 0 <= k <= n ==> before[..k] == run[..k];
      CapsStayPositive(After(config, before), e, session);
      if WithinCap(After(config, before), session) {
        CapStep(After(config, before), e, session);
      }
    }
  }

  lemma NothingWaits(config: Config, session: string)
    ensures After(config, []) == Start(config) && LaneOf(Start(config), session).cap == config.cap
    ensures config.cap >= 0 ==> WithinCap(Start(config), session)
  {
  }

  // ---------------------------------------------------------------- interrupt and followup

  /** Whether an interrupting message is the next its session runs: not if another waited, for that one is
      kept and stays in front of it, unless the cap then pushes it out. */
  lemma InterruptIsNext(q: QueueState, used: set<string>, session: string, cmd: Command)
    requires Inv(q, used) && IsActive(q, session) && cmd.mode == Interrupt && cmd.id !in used
    ensures var lane, pending := q.lanes[session], Submitted(q, session, cmd).0.lanes[session].pending;
            pending != [] && pending[0].id == cmd.id <==>
            if lane.pending == [] then lane.cap >= 1 || lane.drop == Summarize
            else lane.cap <= 1 && lane.drop == DropOldest
  {
    hide QueueSummary.Merge, DistinctIds, HasWorker, Overflow, Inv, ActiveOk;
    var lane := q.lanes[session];
    LaneOfOk(q, used, session);
    InterruptedPending(lane, cmd);
    if lane.pending != [] {
      var newest := Last(lane.pending);
      assert newest in lane.pending;
      IndexIsUsed(q, used, newest.id);
      TwoOverflow(newest, cmd, lane.cap, lane.drop);
    } else {
      OneOverflow(cmd, lane.cap, lane.drop);
    }
  }

  lemma InterruptedPending(lane: LaneState, cmd: Command)
    requires lane.active.Some? && cmd.mode == Interrupt
    ensures Enqueued(lane, cmd).pending == if lane.pending == [] then [cmd] else [Last(lane.pending), cmd]
    ensures Enqueued(lane, cmd).cap == lane.cap && Enqueued(lane, cmd).drop == lane.drop
  {
  }

  lemma IndexIsUsed(q: QueueState, used: set<string>, id: string)
    ensures Inv(q, used) && id in q.index ==> id in used
  {
  }

  lemma OneOverflow(a: Command, cap: int, drop: Policy)
    ensures Overflow([a], cap, drop).0 == if cap >= 1 || drop == Summarize then [a] else []
  {
    hide QueueSummary.Merge;
  }

  lemma TwoOverflow(a: Command, b: Command, cap: int, drop: Policy)
    ensures Overflow([a, b], cap, drop).0 ==
            if cap >= 2 then [a, b]
            else match drop
              case Summarize => [a.(message := QueueSummary.Merge(a.message, b.message))]
              case DropOldest => [b]
              case Reject => [a]
  {
    hide QueueSummary.Merge;
    assert [a, b][1..] == [b] && [a, b][..1] == [a] && [a, b][2..] == [];
  }

  /** A followup that is dispatched leaves nothing behind, unless exactly one command waits behind it. */
  lemma FollowupLeaves(q: QueueState, session: string)
    requires session in q.lanes && q.lanes[session].pending != [] && q.lanes[session].pending[0].mode == Followup
    ensures var was, left := q.lanes[session].pending, DispatchLane(q, session).lanes[session].pending;
            (left == [] <==> |was| != 2) && (|was| == 2 ==> left == [was[1]])
  {
    hide SteeringText;
  }

  // ---------------------------------------------------------------- collect mode

  /** What a user submitted, as far as the order of messages goes. */
  datatype Item = Item(id: string, message: string)

  function Items(commands: seq<Command>): (items: seq<Item>)
    ensures |items| == |commands|
  {
    seq(|commands|, i requires 0 <= i < |commands| => Item(commands[i].id, commands[i].message))
  }

  function PendingOf(q: QueueState, session: string): seq<Command> {
    if session in q.lanes then q.lanes[session].pending else []
  }

  function BatchOf(d: Dispatch, session: string): seq<Item> {
    if d.command.session == session then Items([d.command]) + Items(d.batch) else []
  }

  function BatchesOf(ds: seq<Dispatch>, session: string): seq<Item> {
    if ds == [] then [] else BatchOf(ds[0], session) + BatchesOf(ds[1..], session)
  }

  /** The messages of the session that have been given to a worker, batch after batch. */
  function Executed(config: Config, run: seq<Event>, session: string): seq<Item> {
    if run == [] then []
    else
      var before, e := run[..|run| - 1], run[|run| - 1];
      Executed(config, before, session) +
      if e.Pass? then BatchesOf(Passed(After(config, before), e.order, e.now).1, session) else []
  }

  function SubmittedTo(run: seq<Event>, session: string): seq<Item> {
    if run == [] then []
    else
      var e := run[|run| - 1];
      SubmittedTo(run[..|run| - 1], session) +
      if e.Submit? && e.session == session then [Item(e.id, e.message)] else []
  }

  /** Events that leave the session in collect mode and throw none of its messages away. Other
      sessions may do anything. */
  ghost predicate Gentle(q: QueueState, e: Event, session: string) {
    match e
    case Submit(_, s, _, _, _, mode, _) =>
      s == session ==> mode == Collect && |LaneOf(q, s).pending| < LaneOf(q, s).cap
    case Cancel(id) => id !in Ids(PendingOf(q, session))
    case Abort(s) => s != session
    case Configure(s, mode, _, _, _) => s == session ==> mode == Collect
    case SetConfig(config) => config.defaultMode == Collect
    case _ => true
  }

  /** The session is in collect mode, now and should its lane be made anew. */
  ghost predicate Collecting(q: QueueState, session: string) {
    && (q.config.defaultMode, LaneOf(q, session).mode) == (Collect, Collect)
    && forall c :: c in PendingOf(q, session) ==> c.mode == Collect
  }

  /** Dispatching from a collecting lane moves everything that waits into one batch. */
  lemma DispatchMoves(q: QueueState, session: string, dispatched: string)
    requires dispatched in q.lanes && q.lanes[dispatched].pending != []
    requires forall c :: c in q.lanes[dispatched].pending ==> c.session == dispatched
    requires Collecting(q, session)
    ensures var q' := DispatchLane(q, dispatched);
            && Collecting(q', session)
            && BatchOf(DispatchOf(q.lanes[dispatched]), session) + Items(PendingOf(q', session)) ==
               Items(PendingOf(q, session))
  {
    hide SteeringText;
    var lane := q.lanes[dispatched];
    assert lane.pending[0] in lane.pending;
    if dispatched == session {
      assert lane.pending == [lane.pending[0]] + lane.pending[1..];
      assert Items([DispatchOf(lane).command]) == Items([lane.pending[0]]);
    }
  }

  lemma {:induction false} WalkMoves(q: QueueState, used: set<string>, order: seq<string>, now: int, session: string)
    requires Inv(q, used) && Collecting(q, session)
    ensures var (q', ds) := Walk(q, order, now);
            Collecting(q', session) &&
            BatchesOf(ds, session) + Items(PendingOf(q', session)) == Items(PendingOf(q, session))
    decreases |order|
  {
    hide DispatchLane, DispatchOf, ElapsedMs, Collecting, BatchOf, Items, PendingOf, DistinctIds, ActiveOk;
    if order == [] {
    } else {
      var d := order[0];
      if d !in q.lanes || q.lanes[d].active.Some? {
        WalkMoves(q, used, order[1..], now, session);
      } else if q.activeCount < q.config.maxConcurrent {
        if Ready(q.lanes[d], now) {
          assert LaneOk(q.lanes[d], d, q.index);
          InvDispatch(q, used, d);
          DispatchMoves(q, session, d);
          WalkMoves(DispatchLane(q, d), used, order[1..], now, session);
        } else {
          WalkMoves(q, used, order[1..], now, session);
        }
      }
    }
  }

  lemma SubmitMoves(q: QueueState, e: Event, session: string)
    requires e.Submit? && Gentle(q, e, session) && Collecting(q, session)
    ensures var q' := Next(q, e);
            Collecting(q', session) &&
            Items(PendingOf(q', session)) ==
            Items(PendingOf(q, session)) + if e.session == session then [Item(e.id, e.message)] else []
  {
  }

  lemma OthersMove(q: QueueState, used: set<string>, e: Event, session: string)
    requires Inv(q, used) && !e.Submit? && Gentle(q, e, session) && Collecting(q, session)
    ensures Collecting(Next(q, e), session)
    ensures (if e.Pass? then BatchesOf(Passed(q, e.order, e.now).1, session) else []) +
            Items(PendingOf(Next(q, e), session)) == Items(PendingOf(q, session))
  {
    hide Submitted, LastN, Ids, RemoveFirst, Walk, Items, BatchesOf, Inv;
    if e.Cancel? {
      RemoveFirstAbsent(PendingOf(q, session), e.id);
    } else if e.Pass? {
      WalkMoves(q, used, e.order, e.now, session);
      assert PendingOf(Next(q, e), session) == PendingOf(Walk(q, e.order, e.now).0, session);
    }
    if !e.Pass? {
      assert PendingOf(Next(q, e), session) == PendingOf(q, session);
    }
  }

  /** For a session in collect mode throughout, with no overflow and nothing taken back: what the
      workers were given, batch after batch, followed by what still waits, is exactly what was
      submitted, in order. Lanes may be erased and made anew in between. */
  lemma {:induction false} CollectRunsInOrder(config: Config, run: seq<Event>, session: string)
    requires Legal(config, run) && config.defaultMode == Collect
    requires forall k :: 0 <= k < |run| ==> Gentle(After(config, run[..k]), run[k], session)
    ensures Collecting(After(config, run), session)
    ensures Executed(config, run, session) + Items(PendingOf(After(config, run), session)) == SubmittedTo(run, session)
  {
    hide Next, Gentle, Items, PendingOf, Inv, Possible, BatchesOf, Collecting;
    if run == [] {
      StartCollects(config, session);
    } else {
      var n := |run| - 1;
      var before, e := run[..n], run[n];
      assert forall k :: 0 <= k < n ==> before[..k] == run[..k];
      CollectRunsInOrder(config, before, session);
      RunsKeepInv(config, before);
      var q := After(config, before);
      if e.Submit? {
        SubmitMoves(q, e, session);
      } else {
        OthersMove(q, Used(before), e, session);
      }
      var done := Executed(config, before, session);
      var moved := if e.Pass? then BatchesOf(Passed(q, e.order, e.now).1, session) else [];
      var waits, left := Items(PendingOf(q, session)), Items(PendingOf(Next(q, e), session));
      var said := if e.Submit? && e.session == session then [Item(e.id, e.message)] else [];
      assert moved + left == waits + said;
      Regroup(done, moved, left, waits, said);
    }
  }

  lemma Regroup<T>(a: seq<T>, b: seq<T>, c: seq<T>, d: seq<T>, e: seq<T>)
    requires b + c == d + e
    ensures (a + b) + c == (a + d) + e
  {
    assert (a + b) + c == a + (b + c);
    assert (a + d) + e == a + (d + e);
  }

  lemma StartCollects(config: Config, session: string)
    ensures config.defaultMode == Collect ==>
              Collecting(Start(config), session) && Items(PendingOf(Start(config), session)) == []
  {
  }

  // ---------------------------------------------------------------- exactly once

  ghost predicate DistinctItems(items: seq<Item>) {
    forall i, j :: 0 <= i < j < |items| ==> items[i].id != items[j].id
  }

  lemma {:induction false} SubmittedOnce(config: Config, run: seq<Event>, session: string)
    requires Legal(config, run)
    ensures DistinctItems(SubmittedTo(run, session))
    ensures forall x :: x in SubmittedTo(run, session) ==> x.id in Used(run)
  {
    hide After;
    if run == [] {
    } else {
      SubmittedOnce(config, run[..|run| - 1], session);
      var before := SubmittedTo(run[..|run| - 1], session);
      assert forall i :: 0 <= i < |before| ==> before[i] in before;
    }
  }

  /** Under the same conditions no message of the session is executed twice, and none is invented. */
  lemma {:induction false} CollectRunsOnce(config: Config, run: seq<Event>, session: string)
    requires Legal(config, run) && config.defaultMode == Collect
    requires forall k :: 0 <= k < |run| ==> Gentle(After(config, run[..k]), run[k], session)
    ensures Executed(config, run, session) <= SubmittedTo(run, session)
    ensures DistinctItems(Executed(config, run, session))
  {
    hide Executed, SubmittedTo, Items, PendingOf, After, Gentle;
    CollectRunsInOrder(config, run, session);
    SubmittedOnce(config, run, session);
    var done, all := Executed(config, run, session), SubmittedTo(run, session);
    assert forall i :: 0 <= i < |done| ==> done[i] == all[i];
  }

  /** Texts with a blank line between them. */
  function Paragraphs(texts: seq<string>): string {
    if texts == [] then ""
    else
      var n := |texts| - 1;
      if n == 0 then texts[0] else Paragraphs(texts[..n]) + "\n\n" + texts[n]
  }

  /** The text a batch hands over is its messages with blank lines between them, once the empty ones at
      the front are left out. */
  lemma {:induction false} SteeringTextIs(pending: seq<Command>, k: nat)
    requires k <= |pending| && (forall i :: 0 <= i < k ==> pending[i].message == "")
    requires k < |pending| ==> pending[k].message != ""
    ensures SteeringText(pending) == Paragraphs(Messages(pending)[k..])
    ensures SteeringText(pending) == "" <==> k == |pending|
  {
    if pending != [] {
      var n := |pending| - 1;
      var before := pending[..n];
      if k <= n {
        SteeringTextIs(before, k);
        ParagraphsNext(pending, k);
      } else {
        SteeringTextIs(before, n);
        assert Messages(before)[n..] == [] == Messages(pending)[k..];
      }
    } else {
      assert Messages(pending)[k..] == [];
    }
  }

  lemma ParagraphsNext(pending: seq<Command>, k: nat)
    requires k < |pending|
    ensures var n := |pending| - 1;
            Paragraphs(Messages(pending)[k..]) ==
            if k == n then pending[n].message
            else Paragraphs(Messages(pending[..n])[k..]) + "\n\n" + pending[n].message
  {
    var n := |pending| - 1;
    assert Messages(pending)[k..][..n - k] == Messages(pending[..n])[k..];
  }
}
