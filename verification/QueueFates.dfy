/** What becomes of submitted commands, in every mode and every run of `src/gateway/command_queue.cpp`: a command
    that has left its lane, by whatever way, never waits again, so nothing runs twice and nothing that was
    cancelled runs at all.
 */
module QueueFates {
  import opened Text
  import opened SessionLanes
  import opened CommandQueues
  import opened QueueRuns

  ghost predicate WaitsIn(q: QueueState, session: string, id: string) {
    id in Ids(PendingOf(q, session))
  }

  ghost predicate Waits(q: QueueState, id: string) {
    exists s :: WaitsIn(q, s, id)
  }

  /** The ids a dispatch hands to a worker: the command's and those of the batch it takes along. */
  function TakenBy(d: Dispatch): seq<string> {
    [d.command.id] + Ids(d.batch)
  }

  function Taken(ds: seq<Dispatch>): seq<string> {
    if ds == [] then [] else TakenBy(ds[0]) + Taken(ds[1..])
  }

  ghost predicate Distinct(ids: seq<string>) {
    forall i, j :: 0 <= i < j < |ids| ==> ids[i] != ids[j]
  }

  lemma DistinctConcat(a: seq<string>, b: seq<string>)
    requires Distinct(a) && Distinct(b) && forall id :: id in a ==> id !in b
    ensures Distinct(a + b)
  {
    assert forall i :: 0 <= i < |a| ==> a[i] in a;
    assert forall j :: 0 <= j < |b| ==> b[j] in b;
  }

  // ---------------------------------------------------------------- one step

  /** A command waits in one lane only: the index says which. */
  lemma OneLane(q: QueueState, used: set<string>, s: string, t: string, id: string)
    ensures Inv(q, used) && WaitsIn(q, s, id) && WaitsIn(q, t, id) ==> s == t && id in used
  {
  }

  lemma LaneTakes(lane: LaneState)
    requires DistinctIds(lane.pending) && lane.pending != []
    ensures Distinct(TakenBy(DispatchOf(lane)))
    ensures forall id :: id in TakenBy(DispatchOf(lane)) ==>
              id in Ids(lane.pending) && id !in Ids(AfterDispatch(lane).pending)
    ensures forall id :: id in Ids(AfterDispatch(lane).pending) ==> id in Ids(lane.pending)
  {
  }

  lemma DispatchTakes(q: QueueState, used: set<string>, session: string)
    requires Inv(q, used) && session in q.lanes && q.lanes[session].pending != []
    ensures var taken, q' := TakenBy(DispatchOf(q.lanes[session])), DispatchLane(q, session);
            && Distinct(taken)
            && (forall id :: id in taken ==> Waits(q, id) && !Waits(q', id))
            && (forall id :: Waits(q', id) ==> Waits(q, id))
  {
    hide DispatchOf, AfterDispatch, Ids, DistinctIds, ActiveOk;
    var lane, q' := q.lanes[session], DispatchLane(q, session);
    assert LaneOk(lane, session, q.index);
    LaneTakes(lane);
    forall id | Waits(q', id) ensures Waits(q, id) && id !in TakenBy(DispatchOf(lane)) {
      var s :| WaitsIn(q', s, id);
      assert WaitsIn(q, s, id);
      if id in TakenBy(DispatchOf(lane)) {
        assert WaitsIn(q, session, id);
        OneLane(q, used, s, session, id);
      }
    }
    forall id | id in TakenBy(DispatchOf(lane)) ensures Waits(q, id) {
      assert WaitsIn(q, session, id);
    }
  }

  lemma {:induction false} WalkTakes(q: QueueState, used: set<string>, order: seq<string>, now: int)
    requires Inv(q, used)
    ensures var (q', ds) := Walk(q, order, now);
            && Distinct(Taken(ds))
            && (forall id :: id in Taken(ds) ==> Waits(q, id) && !Waits(q', id))
            && (forall id :: Waits(q', id) ==> Waits(q, id))
    decreases |order|
  {
    hide DispatchLane, DispatchOf, ElapsedMs, TakenBy, Waits, Inv, Distinct;
    if order == [] {
      NothingTaken();
    } else {
      var s := order[0];
      if s !in q.lanes || q.lanes[s].active.Some? {
        WalkTakes(q, used, order[1..], now);
      } else if q.activeCount >= q.config.maxConcurrent {
        NothingTaken();
      } else if Ready(q.lanes[s], now) {
        DispatchTakes(q, used, s);
        InvDispatch(q, used, s);
        var d, more := DispatchOf(q.lanes[s]), Walk(DispatchLane(q, s), order[1..], now).1;
        WalkTakes(DispatchLane(q, s), used, order[1..], now);
        DistinctConcat(TakenBy(d), Taken(more));
        assert Taken([d] + more) == TakenBy(d) + Taken(more);
      } else {
        WalkTakes(q, used, order[1..], now);
      }
    }
  }

  lemma NothingTaken()
    ensures Taken([]) == [] && Distinct([])
  {
  }

  /** The lanes of the two states differ in one lane at most, which lets in `added` at most. */
  lemma LaneShrinks(q: QueueState, q': QueueState, session: string, lane: LaneState, added: set<string>)
    requires q'.lanes == q.lanes[session := lane]
    requires forall id :: id in Ids(lane.pending) ==> WaitsIn(q, session, id) || id in added
    ensures forall id :: Waits(q', id) ==> Waits(q, id) || id in added
  {
    hide Ids;
    forall id | Waits(q', id) ensures Waits(q, id) || id in added {
      var s :| WaitsIn(q', s, id);
      assert s != session ==> WaitsIn(q, s, id);
    }
  }

  lemma SubsetIds(a: seq<Command>, b: seq<Command>)
    requires forall c :: c in a ==> c in b
    ensures forall id :: id in Ids(a) ==> id in Ids(b)
  {
    forall id | id in Ids(a) ensures id in Ids(b) {
      var i := IdAt(a, id);
      InIds(b, a[i]);
    }
  }

  lemma EnqueuedIds(lane: LaneState, cmd: Command)
    ensures forall id :: id in Ids(Enqueued(lane, cmd).pending) ==> id in Ids(lane.pending) || id == cmd.id
  {
  }

  lemma SubmitLetsIn(q: QueueState, used: set<string>, session: string, cmd: Command)
    requires Inv(q, used) && cmd.id !in used && cmd.session == session
    ensures forall id :: Waits(Submitted(q, session, cmd).0, id) ==> Waits(q, id) || id == cmd.id
  {
    hide Enqueued, Overflow, DistinctIds, HasWorker, Ids, Waits;
    var lane, l, q' := LaneOf(q, session), Enqueued(LaneOf(q, session), cmd), Submitted(q, session, cmd).0;
    LaneOfOk(q, used, session);
    EnqueuedOk(lane, cmd, session, q.index);
    EnqueuedPending(lane, cmd);
    EnqueuedIds(lane, cmd);
    if SkipsCap(lane, cmd) {
      LaneShrinks(q, q', session, l, {cmd.id});
    } else {
      OverflowCovers(l.pending, l.cap, l.drop, session);
      var kept := Overflow(l.pending, l.cap, l.drop).0;
      forall id | id in Ids(kept) ensures id in Ids(l.pending) {
        var i := IdAt(kept, id);
        assert kept[i] in kept;
      }
      LaneShrinks(q, q', session, l.(pending := kept), {cmd.id});
    }
  }

  lemma OthersLetNothingIn(q: QueueState, used: set<string>, e: Event)
    requires Inv(q, used) && (e.Cancel? || e.Abort? || e.Configure? || e.SetConfig? || e.Complete?)
    ensures forall id :: Waits(Next(q, e), id) ==> Waits(q, id)
  {
    hide RemoveFirst, DistinctIds, ActiveOk, LastN, Submitted, Passed;
    var q' := Next(q, e);
    match e
    case Cancel(id) =>
      if id in q.index {
        var s := q.index[id];
        var lane := LaneOf(q, s);
        LaneOfOk(q, used, s);
        RemoveFirstKeeps(lane.pending, id);
        var left := RemoveFirst(lane.pending, id);
        SubsetIds(left, lane.pending);
        LaneShrinks(q, q', s, lane.(pending := left), {});
      }
    case Abort(s) =>
      if s in q.lanes {
        LastIsIn(q.lanes[s].pending);
        SubsetIds(LastN(q.lanes[s].pending, 1), q.lanes[s].pending);
        LaneShrinks(q, q', s, Interrupted(q.lanes[s]), {});
      }
    case Configure(s, mode, debounceMs, cap, drop) =>
      LaneShrinks(q, q', s, Configured(LaneOf(q, s), mode, debounceMs, cap, drop), {});
    case Complete(i) => SameWaiting(q, q');
    case SetConfig(config) => SameWaiting(q, q');
  }

  lemma SameWaiting(q: QueueState, q': QueueState)
    requires forall s :: s in q'.lanes ==> s in q.lanes && q'.lanes[s].pending == q.lanes[s].pending
    ensures forall id :: Waits(q', id) ==> Waits(q, id)
  {
    hide Ids;
    forall id | Waits(q', id) ensures Waits(q, id) {
      var s :| WaitsIn(q', s, id);
      assert WaitsIn(q, s, id);
    }
  }

  lemma CancelTakesAway(q: QueueState, used: set<string>, id: string)
    requires Inv(q, used) && Cancelled(q, id).1
    ensures Waits(q, id) && !Waits(Cancelled(q, id).0, id)
  {
    hide RemoveFirst, DistinctIds, ActiveOk, Ids;
    var q', s := Cancelled(q, id).0, q.index[id];
    assert WaitsIn(q, s, id);
    assert LaneOk(q.lanes[s], s, q.index);
    RemovedIsGone(q.lanes[s].pending, id);
    if Waits(q', id) {
      var t :| WaitsIn(q', t, id);
      assert WaitsIn(q, t, id);
      OneLane(q, used, s, t, id);
      assert false;
    }
  }

  lemma RemovedIsGone(pending: seq<Command>, id: string)
    ensures DistinctIds(pending) ==> id !in Ids(RemoveFirst(pending, id))
  {
  }

  /** The ids an event hands to workers. */
  function TakenIn(q: QueueState, e: Event): seq<string> {
    if e.Pass? then Taken(Passed(q, e.order, e.now).1) else []
  }

  /** One event: nothing starts to wait but a new submission, and what it hands to workers was waiting
      and waits no more. */
  lemma StepFates(q: QueueState, used: set<string>, e: Event)
    requires Inv(q, used) && Possible(q, used, e)
    ensures forall id :: Waits(Next(q, e), id) ==> Waits(q, id) || (e.Submit? && id == e.id)
    ensures Distinct(TakenIn(q, e)) && (!e.Pass? ==> TakenIn(q, e) == [])
    ensures forall id :: id in TakenIn(q, e) ==> Waits(q, id) && !Waits(Next(q, e), id)
    ensures e.Submit? ==> e.id !in used
  {
    hide Submitted, Cancelled, Aborted, Reconfigured, Walk, Completed, Inv, LaneOf, Waits, Taken;
    if e.Submit? {
      SubmitLetsIn(q, used, e.session, CommandOf(q, e));
    } else if e.Pass? {
      WalkTakes(q, used, e.order, e.now);
      SameWaiting(Walk(q, e.order, e.now).0, Next(q, e));
    } else {
      OthersLetNothingIn(q, used, e);
    }
  }

  // ---------------------------------------------------------------- every run

  /** The ids handed to workers over a run, in order. */
  function Ran(config: Config, run: seq<Event>): seq<string> {
    if run == [] then []
    else
      var before := run[..|run| - 1];
      Ran(config, before) + TakenIn(After(config, before), run[|run| - 1])
  }

  /** In every run, whatever the modes, policies, interrupts and aborts: no command is handed to a worker
      twice, none that was not submitted, and none still waits after it was. */
  lemma {:induction false} NothingRunsTwice(config: Config, run: seq<Event>)
    requires Legal(config, run)
    ensures Distinct(Ran(config, run))
    ensures forall id :: id in Ran(config, run) ==> id in Used(run) && !Waits(After(config, run), id)
  {
    hide Next, Possible, Inv, Waits, TakenIn, Distinct;
    if run == [] {
      NothingTaken();
    } else {
      var before, e := run[..|run| - 1], run[|run| - 1];
      var q := After(config, before);
      NothingRunsTwice(config, before);
      RunsKeepInv(config, before);
      StepFates(q, Used(before), e);
      DistinctConcat(Ran(config, before), TakenIn(q, e));
      forall id | id in TakenIn(q, e) ensures id in Used(before) { var s := WaitingIsUsed(q, Used(before), id); }
    }
  }

  lemma WaitingIsUsed(q: QueueState, used: set<string>, id: string) returns (s: string)
    requires Inv(q, used) && Waits(q, id)
    ensures WaitsIn(q, s, id) && id in used
  {
    hide Inv, WaitsIn;
    s :| WaitsIn(q, s, id);
    OneLane(q, used, s, s, id);
  }

  /** A command that has been submitted and does not wait now will not wait, and will not be handed to a
      worker, however the run goes on. */
  lemma {:induction false} GoneForGood(config: Config, run: seq<Event>, k: nat, id: string)
    requires Legal(config, run) && k <= |run|
    requires id in Used(run[..k]) && !Waits(After(config, run[..k]), id)
    ensures id in Used(run) && !Waits(After(config, run), id)
    ensures Ran(config, run[..k]) <= Ran(config, run)
    ensures id !in Ran(config, run)[|Ran(config, run[..k])|..]
    decreases |run|
  {
    hide Next, Possible, Inv, Waits, TakenIn;
    if k == |run| {
      assert run[..k] == run;
    } else {
      var before, e := run[..|run| - 1], run[|run| - 1];
      assert before[..k] == run[..k];
      GoneForGood(config, before, k, id);
      RunsKeepInv(config, before);
      StepFates(After(config, before), Used(before), e);
    }
  }

  /** A cancellation that answers true is final: the command has not been, and never will be, handed to a
      worker. */
  lemma CancelledNeverRuns(config: Config, run: seq<Event>, k: nat, id: string)
    requires Legal(config, run) && k < |run| && run[k] == Cancel(id)
    requires Cancelled(After(config, run[..k]), id).1
    ensures id !in Ran(config, run)
  {
    hide Next, Possible, Inv, Waits, TakenIn, Cancelled;
    var before, upTo := run[..k], run[..k + 1];
    LegalPrefix(config, run, k);
    LegalPrefix(config, run, k + 1);
    assert upTo[..k] == before && upTo[k] == run[k];
    RunsKeepInv(config, before);
    CancelTakesAway(After(config, before), Used(before), id);
    var s := WaitingIsUsed(After(config, before), Used(before), id);
    NothingRunsTwice(config, before);
    CancelStep(config, upTo, id);
    GoneForGood(config, run, k + 1, id);
    assert Ran(config, upTo) == Ran(config, before);
  }

  lemma CancelStep(config: Config, run: seq<Event>, id: string)
    ensures run != [] && run[|run| - 1] == Cancel(id) ==>
              var before := run[..|run| - 1];
              After(config, run) == Cancelled(After(config, before), id).0 &&
              Ran(config, run) == Ran(config, before) && Used(run) == Used(before)
  {
    hide Cancelled;
  }

  lemma {:induction false} LegalPrefix(config: Config, run: seq<Event>, k: nat)
    requires Legal(config, run) && k <= |run|
    ensures Legal(config, run[..k])
    decreases |run|
  {
    hide Possible;
    if k < |run| {
      assert run[..|run| - 1][..k] == run[..k];
      LegalPrefix(config, run[..|run| - 1], k);
    } else {
      assert run[..k] == run;
    }
  }

  // ---------------------------------------------------------------- nothing is lost unexplained

  /** The ways in which the queue gives a command up: a cap, an interrupt, a cancellation, an abort, or a
      followup that throws away what waits behind it. */
  ghost predicate GivenUp(q: QueueState, e: Event, id: string) {
    match e
    case Submit(_, s, _, _, _, _, _) =>
      || id in Submitted(q, s, CommandOf(q, e)).1
      || (CommandOf(q, e).mode == Interrupt && IsActive(q, s) && OlderIn(q, s, id))
    case Cancel(i) => i == id && Waits(q, id)
    case Abort(s) => OlderIn(q, s, id)
    case Pass(_, _) =>
      exists s :: WaitsIn(q, s, id) && HeldByFollowup(q.lanes[s], id)
    case _ => false
  }

  /** The lane is idle, and the command waits with others behind a followup. */
  ghost predicate HeldByFollowup(lane: LaneState, id: string) {
    && lane.active.None? && |lane.pending| > 2
    && lane.pending[0].mode == Followup && lane.pending[0].id != id
  }

  /** The command waits in the lane, and is not the newest there. */
  ghost predicate OlderIn(q: QueueState, session: string, id: string) {
    WaitsIn(q, session, id) && id != Last(q.lanes[session].pending).id
  }

  lemma NewestStays(pending: seq<Command>)
    requires pending != []
    ensures Last(pending).id in Ids(LastN(pending, 1))
  {
    assert Ids(LastN(pending, 1))[0] == Last(pending).id;
  }

  lemma {:induction false} OverflowLosesNone(pending: seq<Command>, cap: int, drop: Policy, id: string)
    requires (cap >= 0 || pending != []) && id in Ids(pending)
    ensures id in Ids(Overflow(pending, cap, drop).0) || id in Overflow(pending, cap, drop).1
    decreases |pending|
  {
    hide DropOne, Ids;
    if |pending| <= cap {
    } else {
      DropOneLosesNone(pending, drop, id);
      DropOneSmaller(pending, cap, drop);
      var (kept, gone) := DropOne(pending, drop);
      if cap > 0 && id in Ids(kept) {
        OverflowLosesNone(kept, cap, drop, id);
      }
    }
  }

  lemma DropOneLosesNone(pending: seq<Command>, drop: Policy, id: string)
    requires pending != [] && id in Ids(pending)
    ensures id in Ids(DropOne(pending, drop).0) || id in DropOne(pending, drop).1
  {
    hide QueueSummary.Merge;
    var i := IdAt(pending, id);
    var (kept, gone) := DropOne(pending, drop);
    match drop
    case Summarize => if i != 1 { assert Ids(kept)[if i == 0 then 0 else i - 1] == id; }
    case DropOldest => if i > 0 { assert Ids(kept)[i - 1] == id; }
    case Reject => if i < |kept| { assert Ids(kept)[i] == id; }
  }

  lemma LaneKeeps(q: QueueState, q': QueueState, s: string, id: string)
    requires WaitsIn(q, s, id) && s in q'.lanes
    requires id in Ids(q'.lanes[s].pending)
    ensures Waits(q', id)
  {
    hide Ids;
    assert WaitsIn(q', s, id);
  }

  lemma AppendedIds(pending: seq<Command>, cmd: Command)
    ensures Ids(pending + [cmd]) == Ids(pending) + [cmd.id]
  {
  }

  lemma SubmitGivesUp(q: QueueState, used: set<string>, e: Event, id: string)
    requires Inv(q, used) && Possible(q, used, e) && e.Submit?
    requires Waits(q, id) || id == e.id
    ensures Waits(Next(q, e), id) || GivenUp(q, e, id)
  {
    hide Overflow, DistinctIds, HasWorker, Ids, LastN, Inv;
    var cmd, q' := CommandOf(q, e), Next(q, e);
    var lane := LaneOf(q, e.session);
    var l := Enqueued(lane, cmd);
    AppendedIds(lane.pending, cmd);
    AppendedIds(LastN(lane.pending, 1), cmd);
    if Waits(q, id) && !WaitsIn(q, e.session, id) {
      var s :| WaitsIn(q, s, id);
      LaneKeeps(q, q', s, id);
    } else if !(cmd.mode == Interrupt && IsActive(q, e.session) && OlderIn(q, e.session, id)) {
      if lane.pending != [] {
        NewestStays(lane.pending);
      }
      assert id in Ids(l.pending);
      if !SkipsCap(lane, cmd) {
        OverflowLosesNone(l.pending, l.cap, l.drop, id);
      }
      assert Waits(q', id) || id in Submitted(q, e.session, cmd).1 by {
        assert WaitsIn(q', e.session, id) || id in Submitted(q, e.session, cmd).1;
      }
    }
  }

  lemma LaneGivesUp(lane: LaneState, id: string)
    requires lane.pending != [] && id in Ids(lane.pending)
    ensures id in TakenBy(DispatchOf(lane)) || id in Ids(AfterDispatch(lane).pending) ||
            (lane.pending[0].mode == Followup && |lane.pending| > 2 && lane.pending[0].id != id)
    ensures AfterDispatch(lane).active.Some?
  {
  }

  /** Up to a lane's turn in the walk, it holds what it held before. */
  lemma {:induction false} WalkGivesUp(q: QueueState, order: seq<string>, now: int, s: string, id: string)
    requires WaitsIn(q, s, id)
    ensures Waits(Walk(q, order, now).0, id) || id in Taken(Walk(q, order, now).1) ||
            HeldByFollowup(q.lanes[s], id)
    decreases |order|
  {
    hide DispatchOf, AfterDispatch, ElapsedMs, TakenBy, Ids;
    if order == [] {
    } else {
      var t := order[0];
      if t !in q.lanes || q.lanes[t].active.Some? {
        WalkGivesUp(q, order[1..], now, s, id);
      } else if q.activeCount < q.config.maxConcurrent {
        if Ready(q.lanes[t], now) {
          var d, q' := DispatchOf(q.lanes[t]), DispatchLane(q, t);
          assert Taken([d] + Walk(q', order[1..], now).1) == TakenBy(d) + Taken(Walk(q', order[1..], now).1);
          if t != s {
            WalkGivesUp(q', order[1..], now, s, id);
          } else {
            LaneGivesUp(q.lanes[s], id);
            if id in Ids(AfterDispatch(q.lanes[s]).pending) {
              ActiveLaneStays(q', order[1..], now, s);
              LaneKeeps(q, Walk(q', order[1..], now).0, s, id);
            }
          }
        } else {
          WalkGivesUp(q, order[1..], now, s, id);
        }
      }
    }
  }

  lemma {:induction false} ActiveLaneStays(q: QueueState, order: seq<string>, now: int, s: string)
    requires IsActive(q, s)
    ensures s in Walk(q, order, now).0.lanes && Walk(q, order, now).0.lanes[s] == q.lanes[s]
    decreases |order|
  {
    hide DispatchOf, AfterDispatch, ElapsedMs;
    if order == [] {
    } else {
      var t := order[0];
      if t in q.lanes && q.lanes[t].active.None? && q.activeCount < q.config.maxConcurrent && Ready(q.lanes[t], now) {
        ActiveLaneStays(DispatchLane(q, t), order[1..], now, s);
      } else {
        ActiveLaneStays(q, order[1..], now, s);
      }
    }
  }

  lemma PassGivesUp(q: QueueState, e: Event, id: string)
    requires e.Pass? && Waits(q, id)
    ensures Waits(Next(q, e), id) || id in TakenIn(q, e) || GivenUp(q, e, id)
  {
    hide Walk, Ids, Taken;
    var s :| WaitsIn(q, s, id);
    WalkGivesUp(q, e.order, e.now, s, id);
    var w, q' := Walk(q, e.order, e.now).0, Next(q, e);
    if Waits(w, id) {
      var t :| WaitsIn(w, t, id);
      assert WaitsIn(q', t, id);
    }
  }

  lemma OthersGiveUp(q: QueueState, used: set<string>, e: Event, id: string)
    requires Inv(q, used) && (e.Cancel? || e.Abort? || e.Configure? || e.SetConfig? || e.Complete?)
    requires Waits(q, id)
    ensures Waits(Next(q, e), id) || GivenUp(q, e, id)
  {
    hide RemoveFirst, DistinctIds, ActiveOk, Ids, Submitted, Passed, LastN;
    var s :| WaitsIn(q, s, id);
    if e.Cancel? && e.id != id && e.id in q.index && q.index[e.id] == s {
      assert LaneOk(q.lanes[s], s, q.index);
      RemoveFirstKeeps(q.lanes[s].pending, e.id);
      var i := IdAt(q.lanes[s].pending, id);
      InIds(RemoveFirst(q.lanes[s].pending, e.id), q.lanes[s].pending[i]);
    }
    NewestStays(q.lanes[s].pending);
    if !GivenUp(q, e, id) {
      LaneKeeps(q, Next(q, e), s, id);
    }
  }

  /** One event: a command that waits, or has just been submitted, waits on, is handed to a worker, or is
      given up in one of the named ways. */
  lemma StepKeepsOrExplains(q: QueueState, used: set<string>, e: Event, id: string)
    requires Inv(q, used) && Possible(q, used, e)
    requires Waits(q, id) || (e.Submit? && e.id == id)
    ensures Waits(Next(q, e), id) || id in TakenIn(q, e) || GivenUp(q, e, id)
  {
    hide Inv, Waits, Next, TakenIn, GivenUp;
    if e.Submit? {
      SubmitGivesUp(q, used, e, id);
    } else if e.Pass? {
      PassGivesUp(q, e, id);
    } else {
      OthersGiveUp(q, used, e, id);
    }
  }

  /** The event at which a command stops waiting, or fails to start, without being handed to a worker. */
  ghost predicate LostAt(config: Config, run: seq<Event>, k: nat, id: string)
    requires k < |run|
  {
    var q, e := After(config, run[..k]), run[k];
    && (Waits(q, id) || (e.Submit? && e.id == id))
    && !Waits(Next(q, e), id) && id !in TakenIn(q, e)
    && GivenUp(q, e, id)
  }

  /** In every run every submitted command still waits, was handed to a worker, or stopped waiting at an event
      of the run that gave it up in one of the named ways: nothing is lost silently. */
  lemma {:induction false} EveryFate(config: Config, run: seq<Event>, id: string)
    requires Legal(config, run) && id in Used(run)
    ensures || Waits(After(config, run), id)
            || id in Ran(config, run)
            || exists k :: 0 <= k < |run| && LostAt(config, run, k, id)
  {
    hide Next, Possible, Inv, Waits, TakenIn, GivenUp;
    if run == [] {
    } else {
      var n := |run| - 1;
      var before, e := run[..n], run[n];
      RunsKeepInv(config, before);
      if Waits(After(config, before), id) || (e.Submit? && e.id == id) {
        StepKeepsOrExplains(After(config, before), Used(before), e, id);
        assert LostAt(config, run, n, id) || Waits(After(config, run), id) || id in TakenIn(After(config, before), e);
      } else {
        EveryFate(config, before, id);
        if id !in Ran(config, before) {
          var k :| 0 <= k < n && LostAt(config, before, k, id);
          assert before[..k] == run[..k] && before[k] == run[k];
          assert LostAt(config, run, k, id);
        }
      }
    }
  }

  /** The same from any moment on at which the command waits. */
  lemma {:induction false} FateFrom(config: Config, run: seq<Event>, j: nat, id: string)
    requires Legal(config, run) && j <= |run| && Waits(After(config, run[..j]), id)
    ensures || Waits(After(config, run), id)
            || (exists m :: j <= m < |run| && HandsOver(config, run, m, id))
            || exists m :: j <= m < |run| && LostAt(config, run, m, id)
    decreases |run|
  {
    hide Next, Possible, Inv, Waits, TakenIn, GivenUp;
    if j == |run| {
      assert run[..j] == run;
    } else {
      var n := |run| - 1;
      var before, e := run[..n], run[n];
      assert before[..j] == run[..j];
      FateFrom(config, before, j, id);
      RunsKeepInv(config, before);
      if Waits(After(config, before), id) {
        StepKeepsOrExplains(After(config, before), Used(before), e, id);
        assert LostAt(config, run, n, id) || HandsOver(config, run, n, id) || Waits(After(config, run), id);
      } else if m :| j <= m < n && HandsOver(config, before, m, id) {
        assert before[..m] == run[..m] && HandsOver(config, run, m, id);
      } else {
        var m :| j <= m < n && LostAt(config, before, m, id);
        assert before[..m] == run[..m] && before[m] == run[m] && LostAt(config, run, m, id);
      }
    }
  }

  /** The m-th event hands the command to a worker. */
  ghost predicate HandsOver(config: Config, run: seq<Event>, m: nat, id: string)
    requires m < |run|
  {
    id in TakenIn(After(config, run[..m]), run[m])
  }

  // ---------------------------------------------------------------- behind a followup

  /** What a walk takes out of a lane is what the first dispatch from it takes. */
  lemma {:induction false} WalkTakesOnce(q: QueueState, used: set<string>, order: seq<string>, now: int, s: string,
                                         id: string)
    requires Inv(q, used) && WaitsIn(q, s, id) && id in Taken(Walk(q, order, now).1)
    ensures id in TakenBy(DispatchOf(q.lanes[s]))
    decreases |order|
  {
    hide DispatchOf, AfterDispatch, ElapsedMs, TakenBy, Ids, Inv;
    if order == [] {
    } else {
      var t := order[0];
      if t in q.lanes && q.lanes[t].active.None? && q.activeCount < q.config.maxConcurrent && Ready(q.lanes[t], now) {
        var q', d := DispatchLane(q, t), DispatchOf(q.lanes[t]);
        var more := Walk(q', order[1..], now).1;
        assert Taken([d] + more) == TakenBy(d) + Taken(more);
        InvDispatch(q, used, t);
        if t != s {
          DispatchTakes(q, used, t);
          if id in TakenBy(d) {
          }
          WalkTakesOnce(q', used, order[1..], now, s, id);
        } else if id in Taken(more) {
          StillThere(q, used, order[1..], now, s, id);
        }
      } else {
        WalkTakesOnce(q, used, order[1..], now, s, id);
      }
    }
  }

  lemma StillThere(q: QueueState, used: set<string>, order: seq<string>, now: int, s: string, id: string)
    requires Inv(q, used) && s in q.lanes && q.lanes[s].pending != [] && WaitsIn(q, s, id)
    requires id in Taken(Walk(DispatchLane(q, s), order, now).1)
    ensures id in TakenBy(DispatchOf(q.lanes[s]))
  {
    hide DispatchOf, AfterDispatch, TakenBy, Ids, Inv, Walk, Taken;
    var q' := DispatchLane(q, s);
    InvDispatch(q, used, s);
    WalkTakes(q', used, order, now);
    LaneGivesUp(q.lanes[s], id);
    if id in Ids(AfterDispatch(q.lanes[s]).pending) {
      ActiveLaneStays(q', order, now, s);
      LaneKeeps(q, Walk(q', order, now).0, s, id);
    } else if id !in TakenBy(DispatchOf(q.lanes[s])) {
      DispatchTakes(q, used, s);
      GoneFromLane(q, used, s, id);
    }
  }

  lemma GoneFromLane(q: QueueState, used: set<string>, s: string, id: string)
    requires Inv(q, used) && s in q.lanes && q.lanes[s].pending != [] && WaitsIn(q, s, id)
    requires id !in Ids(AfterDispatch(q.lanes[s]).pending)
    ensures !Waits(DispatchLane(q, s), id)
  {
    hide AfterDispatch, DispatchOf, Ids, DistinctIds, ActiveOk;
    var q' := DispatchLane(q, s);
    if t :| WaitsIn(q', t, id) {
      assert WaitsIn(q, t, id);
      OneLane(q, used, s, t, id);
    }
  }

  /** One command behind a followup, and the pass that comes to it: the pass takes at most the followup and
      leaves the other waiting. Later it is handed over, by a pass that finds the lane inactive, or is given up
      in one of the named ways, or waits still. */
  lemma BehindFollowup(config: Config, run: seq<Event>, j: nat, session: string, a: Command, b: Command)
    requires Legal(config, run) && j < |run| && run[j].Pass? && session in After(config, run[..j]).lanes
    requires After(config, run[..j]).lanes[session].pending == [a, b] && a.mode == Followup
    ensures b.id !in TakenIn(After(config, run[..j]), run[j]) && Waits(After(config, run[..j + 1]), b.id)
    ensures || Waits(After(config, run), b.id)
            || (exists m :: j < m < |run| && HandsOver(config, run, m, b.id) && run[m].Pass?
                            && !IsActive(After(config, run[..m]), session))
            || exists m :: j < m < |run| && LostAt(config, run, m, b.id)
  {
    hide After, Legal, Next, Inv, Possible, TakenIn, Waits, GivenUp;
    var before, q, e := run[..j], After(config, run[..j]), run[j];
    LegalPrefix(config, run, j);
    RunsKeepInv(config, before);
    PassLeavesOne(q, Used(before), e, session, a, b);
    assert Ids([a, b])[1] == b.id;
    assert run[..j + 1][..j] == before && run[..j + 1][j] == e;
    AfterLast(config, run[..j + 1]);
    FateFrom(config, run, j + 1, b.id);
    if m :| j + 1 <= m < |run| && HandsOver(config, run, m, b.id) {
      WaitsForSession(config, run, j, m, session, b.id);
    }
  }

  lemma PassLeavesOne(q: QueueState, used: set<string>, e: Event, session: string, a: Command, b: Command)
    requires Inv(q, used) && e.Pass? && session in q.lanes && q.lanes[session].pending == [a, b] && a.mode == Followup
    ensures Waits(Next(q, e), b.id) && b.id !in TakenIn(q, e)
  {
    hide Walk, HasWorker, SteeringText, ElapsedMs;
    var lane := q.lanes[session];
    assert LaneOk(lane, session, q.index) && Ids(lane.pending)[1] == b.id && lane.pending[0].id != lane.pending[1].id;
    assert WaitsIn(q, session, b.id);
    assert TakenBy(DispatchOf(lane)) == [a.id];
    if b.id in TakenIn(q, e) {
      WalkTakesOnce(q, used, e.order, e.now, session, b.id);
    }
    PassGivesUp(q, e, b.id);
    if GivenUp(q, e, b.id) {
      var s :| WaitsIn(q, s, b.id) && HeldByFollowup(q.lanes[s], b.id);
      OneLane(q, used, s, session, b.id);
    }
  }

  // ---------------------------------------------------------------- steering

  /** While a lane is active, no event hands anything that waits there to a worker. */
  lemma ActiveLaneGivesNothing(q: QueueState, used: set<string>, e: Event, s: string, id: string)
    requires Inv(q, used) && Possible(q, used, e) && WaitsIn(q, s, id) && IsActive(q, s)
    ensures id !in TakenIn(q, e)
  {
    hide Inv, Possible, Ids, Walk, TakenIn;
    StepFates(q, used, e);
    if e.Pass? {
      ActiveLaneStays(q, e.order, e.now, s);
      LaneKeeps(q, Next(q, e), s, id);
    } else {
    }
  }

  lemma {:induction false} WalkIndex(q: QueueState, order: seq<string>, now: int)
    ensures forall id :: id in Walk(q, order, now).0.index ==>
              id in q.index && Walk(q, order, now).0.index[id] == q.index[id]
    decreases |order|
  {
    hide DispatchOf, AfterDispatch, ElapsedMs;
    if order == [] {
    } else {
      var s := order[0];
      if s in q.lanes && q.lanes[s].active.None? && q.activeCount < q.config.maxConcurrent && Ready(q.lanes[s], now) {
        WalkIndex(DispatchLane(q, s), order[1..], now);
      } else {
        WalkIndex(q, order[1..], now);
      }
    }
  }

  /** Events only take entries out of the index, except that a submission enters its own. */
  lemma NextIndex(q: QueueState, e: Event, id: string)
    requires id in Next(q, e).index
    ensures (id in q.index && Next(q, e).index[id] == q.index[id]) ||
            (e.Submit? && e.id == id && Next(q, e).index[id] == e.session)
  {
    hide Walk, WithoutIdle, Overflow, Enqueued, LaneOf, RemoveFirst, Interrupted, Configured;
    if e.Pass? {
      WalkIndex(q, e.order, e.now);
    }
  }

  /** The index says to which session a command was submitted. */
  lemma {:induction false} IndexFromSubmissions(config: Config, run: seq<Event>, id: string)
    requires id in After(config, run).index
    ensures exists k :: 0 <= k < |run| && run[k].Submit? && run[k].id == id &&
                        run[k].session == After(config, run).index[id]
  {
    hide Next;
    if run == [] {
    } else {
      var n := |run| - 1;
      var before, e := run[..n], run[n];
      NextIndex(After(config, before), e, id);
      if !(e.Submit? && e.id == id && After(config, run).index[id] == e.session) {
        IndexFromSubmissions(config, before, id);
        var k :| 0 <= k < n && before[k].Submit? && before[k].id == id &&
                 before[k].session == After(config, before).index[id];
        assert run[k] == before[k];
      }
    }
  }

  /** An id is submitted once. */
  lemma {:induction false} SubmittedBefore(config: Config, run: seq<Event>, k: nat)
    requires Legal(config, run) && k < |run| && run[k].Submit?
    ensures run[k].id in Used(run)
    ensures forall i :: 0 <= i < |run| && run[i].Submit? && run[i].id == run[k].id ==> i == k
    decreases |run|
  {
    hide After;
    var n := |run| - 1;
    var before := run[..n];
    if k < n {
      SubmittedBefore(config, before, k);
      assert before[k] == run[k] && forall i :: 0 <= i < n ==> before[i] == run[i];
    } else {
      if i :| 0 <= i < n && run[i].Submit? && run[i].id == run[k].id {
        assert before[i] == run[i];
        SubmittedBefore(config, before, i);
        assert false;
      }
    }
  }

  lemma WaitsAtHome(config: Config, run: seq<Event>, k: nat, s: string)
    requires Legal(config, run) && k < |run| && run[k].Submit? && WaitsIn(After(config, run), s, run[k].id)
    ensures s == run[k].session
  {
    hide After, Legal, DistinctIds, ActiveOk;
    RunsKeepInv(config, run);
    var q, id := After(config, run), run[k].id;
    assert LaneOk(q.lanes[s], s, q.index);
    var i := IdAt(q.lanes[s].pending, id);
    assert q.lanes[s].pending[i] in q.lanes[s].pending;
    IndexFromSubmissions(config, run, id);
    SubmittedBefore(config, run, k);
  }

  /** In every run a message, steering or not, is handed to a worker only by a pass that finds the lane of its
      session inactive: never while the run it was meant to steer is the lane's active one. */
  lemma HandedOverWhenInactive(config: Config, run: seq<Event>, k: nat, j: nat)
    requires Legal(config, run) && k < |run| && run[k].Submit? && j < |run|
    ensures run[k].id in TakenIn(After(config, run[..j]), run[j]) ==>
              k < j && run[j].Pass? && !IsActive(After(config, run[..j]), run[k].session)
  {
    hide After, Legal, Inv, Possible, TakenIn, Waits;
    var before, q, id := run[..j], After(config, run[..j]), run[k].id;
    LegalPrefix(config, run, j);
    LegalPrefix(config, run, j + 1);
    LastPossible(config, run[..j + 1]);
    assert run[..j + 1][..j] == before;
    RunsKeepInv(config, before);
    StepFates(q, Used(before), run[j]);
    if id in TakenIn(q, run[j]) {
      var s := WaitingIsUsed(q, Used(before), id);
      if IsActive(q, s) {
        ActiveLaneGivesNothing(q, Used(before), run[j], s, id);
      }
      UsedIsSubmitted(before, id);
      var i :| 0 <= i < j && before[i].Submit? && before[i].id == id;
      SubmittedBefore(config, run, k);
      assert run[i] == before[i];
      WaitsAtHome(config, before, k, s);
    }
  }

  lemma LastPossible(config: Config, run: seq<Event>)
    ensures Legal(config, run) && run != [] ==>
              var before := run[..|run| - 1]; Possible(After(config, before), Used(before), run[|run| - 1])
  {
  }

  lemma {:induction false} UsedIsSubmitted(run: seq<Event>, id: string)
    requires id in Used(run)
    ensures exists i :: 0 <= i < |run| && run[i].Submit? && run[i].id == id
  {
    var n := |run| - 1;
    var e := run[n];
    if e.Submit? && e.id == id {
    } else {
      UsedIsSubmitted(run[..n], id);
      var i :| 0 <= i < n && run[..n][i].Submit? && run[..n][i].id == id;
      assert run[i] == run[..n][i];
    }
  }

  /** A command that waited for a session is handed over when its lane is inactive. */
  lemma WaitsForSession(config: Config, run: seq<Event>, j: nat, m: nat, session: string, id: string)
    requires Legal(config, run) && j <= m < |run| && WaitsIn(After(config, run[..j]), session, id)
    requires HandsOver(config, run, m, id)
    ensures run[m].Pass? && !IsActive(After(config, run[..m]), session)
  {
    hide After, Legal, Inv, WaitsIn, TakenIn;
    LegalPrefix(config, run, j);
    RunsKeepInv(config, run[..j]);
    OneLane(After(config, run[..j]), Used(run[..j]), session, session, id);
    UsedIsSubmitted(run[..j], id);
    var k :| 0 <= k < j && run[..j][k].Submit? && run[..j][k].id == id;
    WaitsAtHome(config, run[..j], k, session);
    assert run[k] == run[..j][k];
    HandedOverWhenInactive(config, run, k, m);
  }

  /** The event starts this worker. */
  ghost predicate Starts(q: QueueState, e: Event, worker: Command) {
    e.Pass? && exists i :: 0 <= i < |Passed(q, e.order, e.now).1| && Passed(q, e.order, e.now).1[i].command == worker
  }

  /** No event changes a worker: afterwards there are only workers from before and those it starts. */
  lemma WorkersKept(q: QueueState, e: Event)
    ensures forall w :: w in Next(q, e).workers ==> w in q.workers || Starts(q, e, w)
  {
    hide Walk, WithoutIdle, Overflow, Enqueued, LaneOf, RemoveFirst, Interrupted, Configured;
    if e.Pass? {
      WalkAddsDispatches(q, e.order, e.now);
      var ws, ds := Next(q, e).workers, Passed(q, e.order, e.now).1;
      var n := |q.workers|;
      forall w | w in ws ensures w in q.workers || Starts(q, e, w) {
        var i :| 0 <= i < |ws| && ws[i] == w;
        if i >= n {
          assert ws[n + (i - n)] == ds[i - n].command;
        }
      }
    }
  }

  /** In every run each worker is one that was there at an earlier moment, unchanged, or was started since:
      nothing that is submitted meanwhile gets into a command at work. */
  lemma {:induction false} WorkersAsStarted(config: Config, run: seq<Event>, k: nat, worker: Command)
    requires k <= |run| && worker in After(config, run).workers
    ensures || worker in After(config, run[..k]).workers
            || exists j :: k <= j < |run| && Starts(After(config, run[..j]), run[j], worker)
    decreases |run|
  {
    hide Next, Starts;
    if k == |run| {
      assert run[..k] == run;
    } else {
      var n := |run| - 1;
      var before := run[..n];
      WorkersKept(After(config, before), run[n]);
      if worker in After(config, before).workers {
        WorkersAsStarted(config, before, k, worker);
        assert before[..k] == run[..k];
        assert forall j :: k <= j < n ==> before[..j] == run[..j] && before[j] == run[j];
      }
    }
  }
}
