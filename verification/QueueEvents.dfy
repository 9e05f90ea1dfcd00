/** What each event does to the queue of `src/gateway/command_queue.cpp`, told from the lane as it stood
    before: the settings, the commands and the texts it leaves behind.
 */
module QueueEvents {
  import opened Text
  import opened SessionLanes
  import opened CommandQueues
  import opened QueueRuns

  // ---------------------------------------------------------------- submitting

  /** The lane of a session, or one with the settings of the moment. */
  lemma LaneFound(q: QueueState, session: string)
    ensures session in q.lanes ==> LaneOf(q, session) == q.lanes[session]
    ensures session !in q.lanes ==>
              var lane := LaneOf(q, session);
              && lane.key == session && lane.pending == [] && lane.active == None
              && lane.mode == q.config.defaultMode && lane.debounceMs == q.config.debounceMs
              && lane.cap == q.config.cap && lane.drop == q.config.drop
  {
  }

  /** A command without a mode of its own, which is what collect stands for, gets the one of its lane. */
  ghost predicate AsSubmitted(cmd: Command, e: Event, lane: LaneState)
    requires e.Submit?
  {
    && cmd.id == e.id && cmd.session == e.session && cmd.message == e.message && cmd.collected == None
    && cmd.connection == e.connection && cmd.rpcRequest == e.rpcRequest && cmd.enqueuedAt == e.now
    && cmd.progress == Pending && cmd.mode == if e.mode == Collect then lane.mode else e.mode
  }

  lemma SubmittedAs(q: QueueState, e: Event)
    requires e.Submit?
    ensures AsSubmitted(CommandOf(q, e), e, LaneOf(q, e.session))
  {
  }

  /** Nothing but the lane of the session and the index changes. */
  lemma SubmitElsewhere(q: QueueState, e: Event)
    requires e.Submit?
    ensures var q' := Next(q, e);
            && q'.lanes.Keys == q.lanes.Keys + {e.session}
            && (forall s :: s in q.lanes && s != e.session ==> q'.lanes[s] == q.lanes[s])
            && (q'.config, q'.activeCount, q'.workers) == (q.config, q.activeCount, q.workers)
  {
    hide Overflow, LastN;
  }

  /** The lane after a submission. An interrupt clears what is active and leaves the newest that waited; the
      command goes behind what waits; only a command that steers an active lane is not subject to the cap. */
  lemma SubmitEvent(q: QueueState, e: Event, cmd: Command)
    requires e.Submit? && AsSubmitted(cmd, e, LaneOf(q, e.session))
    ensures var lane := LaneOf(q, e.session);
            var interrupts := cmd.mode == Interrupt && lane.active.Some?;
            var steers := (cmd.mode == Steer || cmd.mode == SteerBacklog) && lane.active.Some?;
            var n := |lane.pending|;
            var all := (if interrupts && n > 1 then [lane.pending[n - 1]] else lane.pending) + [cmd];
            var l := Next(q, e).lanes[e.session];
            && l == lane.(pending := l.pending, active := if interrupts then None else lane.active)
            && (steers || |all| <= lane.cap ==> l.pending == all)
            && (!steers && |all| > lane.cap && lane.cap >= 1 ==> Fits(all, l.pending, lane.cap, lane.drop))
            && (!steers && lane.cap <= 0 ==> OneLess(all, l.pending, lane.drop))
  {
    hide Overflow, Fits, QueueSummary.Merge, LaneOf;
    SubmittedAs(q, e);
    assert cmd == CommandOf(q, e);
    var lane := LaneOf(q, e.session);
    var all := Enqueued(lane, cmd).pending;
    InterruptedLast(lane.pending);
    if |all| > lane.cap && lane.cap >= 1 {
      OverflowFits(all, lane.cap, lane.drop);
    } else {
      SmallOverflow(all, lane.cap, lane.drop);
    }
  }

  /** As many as the cap allows, by policy: the newest, the oldest, or the newest behind one text. */
  ghost predicate Fits(all: seq<Command>, left: seq<Command>, cap: nat, drop: Policy)
    requires 1 <= cap < |all|
  {
    match drop
    case DropOldest => left == all[|all| - cap..]
    case Reject => left == all[..cap]
    case Summarize =>
      && |left| == cap && left[1..] == all[|all| - cap + 1..]
      && left[0] == all[0].(message := QueueSummary.Folded(Messages(all[..|all| - cap + 1])))
  }

  /** A cap that lets nothing in takes one command out, or folds two into one. */
  ghost predicate OneLess(all: seq<Command>, left: seq<Command>, drop: Policy)
    requires all != []
  {
    var n := |all|;
    match drop
    case DropOldest => left == all[1..]
    case Reject => left == all[..n - 1]
    case Summarize =>
      if n == 1 then left == all
      else left == [all[0].(message := QueueSummary.Merge(all[0].message, all[1].message))] + all[2..]
  }

  lemma InterruptedLast(pending: seq<Command>)
    ensures LastN(pending, 1) == if |pending| > 1 then [pending[|pending| - 1]] else pending
  {
  }

  lemma OverflowFits(all: seq<Command>, cap: nat, drop: Policy)
    requires 1 <= cap < |all|
    ensures Fits(all, Overflow(all, cap, drop).0, cap, drop)
  {
    hide QueueSummary.Folded, Overflow;
    match drop
    case DropOldest => DropOldestKeeps(all, cap);
    case Reject => RejectKeeps(all, cap);
    case Summarize => SummarizeKeeps(all, cap);
  }

  lemma SmallOverflow(all: seq<Command>, cap: int, drop: Policy)
    requires all != []
    ensures |all| <= cap ==> Overflow(all, cap, drop).0 == all
    ensures cap <= 0 ==> OneLess(all, Overflow(all, cap, drop).0, drop)
  {
    hide QueueSummary.Merge;
  }

  /** A session that is configured to interrupt is interrupted by a message that asks for no mode. */
  lemma ConfiguredInterrupt(q: QueueState, e: Event)
    requires e.Submit? && e.mode == Collect && IsActive(q, e.session) && q.lanes[e.session].mode == Interrupt
    ensures !IsActive(Next(q, e), e.session) && Next(q, e).workers == q.workers
  {
    hide LaneOf, Next, QueueSummary.Folded, QueueSummary.Merge;
    LaneFound(q, e.session);
    SubmittedAs(q, e);
    SubmitEvent(q, e, CommandOf(q, e));
    SubmitElsewhere(q, e);
  }

  // ---------------------------------------------------------------- a dispatcher pass

  /** A lane is due when its oldest command has waited for the debounce time, in whole milliseconds, which is
      told in ticks here. Of a negative time the part of a millisecond does not count. */
  ghost predicate Due(lane: LaneState, now: int) {
    && lane.active.None? && lane.pending != []
    && var waited, ms := now - lane.pending[0].enqueuedAt, lane.debounceMs;
       if ms >= 1 then waited >= ms * 1_000_000 else waited > (ms - 1) * 1_000_000
  }

  lemma DueIsReady(lane: LaneState, now: int)
    ensures Due(lane, now) <==> Ready(lane, now)
  {
  }

  /** The text that texts make up, the empty ones at their front left out; when nothing is left, the other one. */
  ghost predicate MakeUp(texts: seq<string>, text: Option<string>, otherwise: Option<string>) {
    exists k :: 0 <= k <= |texts|
      && (forall i :: 0 <= i < k ==> texts[i] == "")
      && (k < |texts| ==> texts[k] != "")
      && text == if k < |texts| then Some(Paragraphs(texts[k..])) else otherwise
  }

  /** What a worker is given of a lane, and what stays: the front command; in collect mode the texts of all
      others with it; of those behind a followup one that is alone stays, more are thrown away. */
  ghost predicate HandsOut(lane: LaneState, worker: Command, left: LaneState) {
    lane.pending != [] &&
    var front, rest := lane.pending[0], lane.pending[1..];
    && worker == front.(progress := Active, collected := worker.collected)
    && left == lane.(pending := left.pending, active := Some(front.(progress := Active)))
    && match front.mode
       case Collect =>
         left.pending == [] && MakeUp(Messages(rest), worker.collected, front.collected)
       case Followup =>
         left.pending == (if |rest| == 1 then rest else []) && worker.collected == front.collected
       case _ =>
         left.pending == rest && worker.collected == front.collected
  }

  lemma SteeringMakesUp(rest: seq<Command>, otherwise: Option<string>)
    ensures MakeUp(Messages(rest), if SteeringText(rest) != "" then Some(SteeringText(rest)) else otherwise, otherwise)
  {
    hide SteeringText;
    var k := FirstSaid(rest);
    SteeringTextIs(rest, k);
  }

  /** The place of the first command that says something. */
  ghost function FirstSaid(rest: seq<Command>): (k: nat)
    ensures k <= |rest| && (forall i :: 0 <= i < k ==> rest[i].message == "") &&
            (k < |rest| ==> rest[k].message != "")
  {
    if rest == [] || rest[0].message != "" then 0 else 1 + FirstSaid(rest[1..])
  }

  lemma DispatchHandsOut(lane: LaneState)
    requires lane.pending != []
    ensures HandsOut(lane, DispatchOf(lane).command, AfterDispatch(lane))
  {
    hide MakeUp;
    SteeringMakesUp(lane.pending[1..], lane.pending[0].collected);
  }

  /** The text that goes with a batch, wherever in the walk it is made. */
  lemma {:induction false} BatchTexts(q: QueueState, order: seq<string>, now: int, i: nat, k: nat)
    requires var ds := Walk(q, order, now).1;
             i < |ds| && k < |ds[i].batch| && ds[i].batch[k].message != "" &&
             forall j :: 0 <= j < k ==> ds[i].batch[j].message == ""
    ensures var d := Walk(q, order, now).1[i];
            d.command.mode == Collect && d.command.collected == Some(Paragraphs(Messages(d.batch)[k..]))
    decreases |order|
  {
    hide ElapsedMs, SteeringText, AfterDispatch;
    if order == [] {
    } else {
      var s := order[0];
      if s in q.lanes && q.lanes[s].active.None? && q.activeCount < q.config.maxConcurrent && Ready(q.lanes[s], now) {
        if i == 0 {
          SteeringTextIs(q.lanes[s].pending[1..], k);
        } else {
          BatchTexts(DispatchLane(q, s), order[1..], now, i - 1, k);
        }
      } else {
        BatchTexts(q, order[1..], now, i, k);
      }
    }
  }

  /** The walk does nothing to a lane that is active or not in its list. */
  lemma {:induction false} WalkLeaves(q: QueueState, used: set<string>, order: seq<string>, now: int, s: string)
    requires Inv(q, used) && (s in q.lanes && s in order ==> q.lanes[s].active.Some?)
    ensures var q' := Walk(q, order, now).0;
            && (s in q'.lanes <==> s in q.lanes) && (s in q.lanes ==> q'.lanes[s] == q.lanes[s])
            && |q.workers| <= |q'.workers|
            && forall i :: |q.workers| <= i < |q'.workers| ==> q'.workers[i].session != s
    decreases |order|
  {
    hide DispatchOf, AfterDispatch, ElapsedMs, DistinctIds, ActiveOk;
    if order == [] {
    } else {
      var t := order[0];
      if t in q.lanes && q.lanes[t].active.None? && q.activeCount < q.config.maxConcurrent && Ready(q.lanes[t], now) {
        assert LaneOk(q.lanes[t], t, q.index);
        DispatchedLaneOk(q.lanes[t], t, q.index);
        InvDispatch(q, used, t);
        var q1 := DispatchLane(q, t);
        WalkAddsDispatches(q1, order[1..], now);
        WalkLeaves(q1, used, order[1..], now, s);
        assert q1.workers[|q.workers|].session == t;
        assert Walk(q, order, now).0.workers[|q.workers|] == q1.workers[|q.workers|];
      } else {
        WalkLeaves(q, used, order[1..], now, s);
      }
    }
  }

  /** The one worker, of those from `n` on, that this lane has given something to. */
  ghost predicate OneWorker(workers: seq<Command>, n: nat, i: nat, session: string, lane: LaneState, left: LaneState) {
    && n <= i < |workers| && workers[i].session == session && HandsOut(lane, workers[i], left)
    && forall j :: n <= j < |workers| && workers[j].session == session ==> j == i
  }

  ghost predicate NoWorker(workers: seq<Command>, n: nat, session: string) {
    forall i :: n <= i < |workers| ==> workers[i].session != session
  }

  /** A lane in the walk: it was due and one worker has what it gave out, or it is as before and has no new
      worker, because it was not due or there was no room. */
  ghost predicate WalkDid(q: QueueState, order: seq<string>, now: int, s: string)
    requires s in q.lanes
  {
    var lane, n, q' := q.lanes[s], |q.workers|, Walk(q, order, now).0;
    && s in q'.lanes && q.workers <= q'.workers
    && ((Due(lane, now) && exists i :: OneWorker(q'.workers, n, i, s, lane, q'.lanes[s]))
        || (q'.lanes[s] == lane && NoWorker(q'.workers, n, s)
            && (s in order && Due(lane, now) ==> q'.activeCount >= q.config.maxConcurrent)))
  }

  lemma {:induction false} WalkLane(q: QueueState, used: set<string>, order: seq<string>, now: int, s: string)
    requires Inv(q, used) && s in q.lanes
    ensures WalkDid(q, order, now, s)
    decreases |order|, 1
  {
    hide DispatchOf, AfterDispatch, HandsOut, ElapsedMs, DistinctIds, ActiveOk, Due;
    DueIsReady(q.lanes[s], now);
    if order == [] {
    } else {
      var t := order[0];
      if t in q.lanes && q.lanes[t].active.None? && q.activeCount < q.config.maxConcurrent && Ready(q.lanes[t], now) {
        WalkLaneStep(q, used, order, now, s);
      } else {
        WalkLane(q, used, order[1..], now, s);
      }
    }
  }

  /** The walk's turn at a lane that is due. */
  lemma {:induction false} WalkLaneStep(q: QueueState, used: set<string>, order: seq<string>, now: int, s: string)
    requires Inv(q, used) && s in q.lanes && order != [] && order[0] in q.lanes && Ready(q.lanes[order[0]], now)
    requires q.activeCount < q.config.maxConcurrent
    ensures WalkDid(q, order, now, s)
    decreases |order|, 0
  {
    hide DispatchOf, AfterDispatch, HandsOut, ElapsedMs, DistinctIds, ActiveOk, Due;
    var t, n := order[0], |q.workers|;
    var lane := q.lanes[t];
    DueIsReady(lane, now);
    assert LaneOk(lane, t, q.index);
    DispatchedLaneOk(lane, t, q.index);
    DispatchHandsOut(lane);
    InvDispatch(q, used, t);
    var q1 := DispatchLane(q, t);
    WalkAddsDispatches(q1, order[1..], now);
    var q' := Walk(q1, order[1..], now).0;
    assert q'.workers[n] == q1.workers[n] == DispatchOf(lane).command;
    assert q'.workers[..n] == q1.workers[..n] == q.workers;
    if t == s {
      WalkLeaves(q1, used, order[1..], now, s);
      assert OneWorker(q'.workers, n, n, s, lane, q'.lanes[s]);
    } else {
      WalkLane(q1, used, order[1..], now, s);
      if !NoWorker(q'.workers, n + 1, s) {
        var i: nat :| OneWorker(q'.workers, n + 1, i, s, q.lanes[s], q'.lanes[s]);
        assert OneWorker(q'.workers, n, i, s, q.lanes[s], q'.lanes[s]);
      }
    }
  }

  /** A pass, lane by lane: exactly one worker for a lane that is due, unless there is no room left at the end;
      of the others the idle ones go and the rest stay as they are. */
  lemma PassEvent(q: QueueState, used: set<string>, e: Event, s: string)
    requires Inv(q, used) && Possible(q, used, e) && e.Pass?
    ensures var lane, n, q' := LaneOf(q, s), |q.workers|, Next(q, e);
            && q.workers <= q'.workers
            && if s !in q.lanes then NoWorker(q'.workers, n, s) && s !in q'.lanes
               else if exists i :: OneWorker(q'.workers, n, i, s, lane, LaneOf(q', s)) then
                 Due(lane, e.now) && s in q'.lanes
               else
                 && NoWorker(q'.workers, n, s)
                 && (Due(lane, e.now) ==> |q'.workers| >= q.config.maxConcurrent)
                 && (if lane.active.None? && lane.pending == [] then s !in q'.lanes
                     else s in q'.lanes && q'.lanes[s] == lane)
  {
    hide Walk, Inv, HandsOut, Due, DistinctIds;
    var w := Walk(q, e.order, e.now).0;
    InvNext(q, used, e);
    assert used + {} == used;
    CountIsWorkers(Next(q, e), used);
    WalkLanes(q, e.order, e.now);
    WalkAddsDispatches(q, e.order, e.now);
    if s !in q.lanes {
      WalkLeaves(q, used, e.order, e.now, s);
    } else {
      WalkLane(q, used, e.order, e.now, s);
      HandedIsActive(q.lanes[s], w.lanes[s]);
      if i: nat :| OneWorker(w.workers, |q.workers|, i, s, q.lanes[s], w.lanes[s]) {
        assert OneWorker(Next(q, e).workers, |q.workers|, i, s, q.lanes[s], LaneOf(Next(q, e), s));
      }
    }
  }

  lemma CountIsWorkers(q: QueueState, used: set<string>)
    ensures Inv(q, used) ==> q.activeCount == |q.workers|
  {
  }

  lemma HandedIsActive(lane: LaneState, left: LaneState)
    ensures (exists worker :: HandsOut(lane, worker, left)) ==> left.active.Some?
  {
  }

  lemma {:induction false} WalkLanes(q: QueueState, order: seq<string>, now: int)
    ensures Walk(q, order, now).0.lanes.Keys == q.lanes.Keys && Walk(q, order, now).0.config == q.config
    decreases |order|
  {
    hide DispatchOf, AfterDispatch, ElapsedMs;
    if order == [] {
    } else {
      var t := order[0];
      if t in q.lanes && q.lanes[t].active.None? && q.activeCount < q.config.maxConcurrent && Ready(q.lanes[t], now) {
        WalkLanes(DispatchLane(q, t), order[1..], now);
      } else {
        WalkLanes(q, order[1..], now);
      }
    }
  }

  // ---------------------------------------------------------------- the other events

  /** A completion frees the lane of its worker, whatever the lane runs by then, and takes that worker away. */
  lemma CompleteEvent(q: QueueState, i: nat)
    requires i < |q.workers|
    ensures var s, q' := q.workers[i].session, Next(q, Event.Complete(i));
            && q'.lanes.Keys == q.lanes.Keys
            && (forall t :: t in q.lanes ==>
                  q'.lanes[t] == if t == s then q.lanes[t].(active := None) else q.lanes[t])
            && q'.activeCount == q.activeCount - 1 && |q'.workers| == |q.workers| - 1
            && (forall j :: 0 <= j < |q'.workers| ==> q'.workers[j] == q.workers[if j < i then j else j + 1])
            && q'.config == q.config && q'.index == q.index
  {
  }

  /** An abort frees the lane and leaves the newest command that waits; the worker goes on. */
  lemma AbortEvent(q: QueueState, s: string)
    ensures var q' := Next(q, Abort(s));
            && q'.index == (if IsActive(q, s) then q.index - {q.lanes[s].active.value.id} else q.index)
            && q'.workers == q.workers && q'.activeCount == q.activeCount && q'.config == q.config
            && q'.lanes.Keys == q.lanes.Keys
            && (forall t :: t in q.lanes && t != s ==> q'.lanes[t] == q.lanes[t])
            && (s in q.lanes ==>
                  var lane, n := q.lanes[s], |q.lanes[s].pending|;
                  q'.lanes[s] == lane.(active := None,
                                       pending := if n > 1 then [lane.pending[n - 1]] else lane.pending))
  {
    if s in q.lanes {
      InterruptedLast(q.lanes[s].pending);
    }
  }

  /** Reconfiguring a session: its mode always, a number unless it is negative, a policy if one is named. */
  lemma ConfigureEvent(q: QueueState, e: Event)
    requires e.Configure?
    ensures var q', lane, l := Next(q, e), LaneOf(q, e.session), LaneOf(Next(q, e), e.session);
            && q'.lanes.Keys == q.lanes.Keys + {e.session}
            && (forall s :: s in q.lanes && s != e.session ==> q'.lanes[s] == q.lanes[s])
            && q' == q.(lanes := q'.lanes)
            && l.key == lane.key && l.pending == lane.pending && l.active == lane.active
            && l.mode == e.mode
            && l.debounceMs == (if e.debounceMs < 0 then lane.debounceMs else e.debounceMs)
            && l.cap == (if e.cap < 0 then lane.cap else e.cap)
            && (e.drop.None? ==> l.drop == lane.drop) && (e.drop.Some? ==> e.drop == Some(l.drop))
  {
  }
}
