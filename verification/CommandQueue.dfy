/** The command queue: class CommandQueue of `src/gateway/command_queue.cpp`. */
module CommandQueues {
  import opened Text
  import opened SessionLanes

  // Each critical section is one step. `QueueState` is the value of the queue, the functions say what each step does
  // to it, and the methods of the class are proved against them. A command that has been dispatched and has not
  // reached the last critical section of execute_command is in `workers`. Ids, clock readings and the iteration order
  // of the lane table are parameters.

  datatype Config = Config(maxConcurrent: int, debounceMs: int, cap: int, drop: Policy, defaultMode: Mode)

  datatype QueueState = QueueState(config: Config, lanes: map<string, LaneState>, index: map<string, string>,
                                   activeCount: int, workers: seq<Command>)

  /** A dispatched command with the waiting commands whose text it took along. */
  datatype Dispatch = Dispatch(command: Command, batch: seq<Command>)

  // ---------------------------------------------------------------- steps on values

  /** get_lane: the lane of the session, or a new one with the defaults of the moment. */
  function LaneOf(q: QueueState, session: string): LaneState {
    if session in q.lanes then q.lanes[session]
    else LaneState(session, q.config.defaultMode, q.config.debounceMs, q.config.cap, q.config.drop, [], None)
  }

  /** The mode a submission gets: the one of the lane unless it asked for another than collect. */
  function EffectiveMode(lane: LaneState, mode: Mode): Mode {
    if mode == Collect then lane.mode else mode
  }

  function NewCommand(lane: LaneState, id: string, session: string, message: string, connection: string,
                      rpcRequest: string, mode: Mode, now: int): Command {
    Command(id, session, message, None, connection, rpcRequest, EffectiveMode(lane, mode), now, Pending)
  }

  /** The lane with the new command in it, before the cap is looked at. */
  function Enqueued(lane: LaneState, cmd: Command): LaneState {
    var l := if cmd.mode == Interrupt && lane.active.Some? then Interrupted(lane) else lane;
    l.(pending := l.pending + [cmd])
  }

  /** Steering submissions to an active lane are not subject to the cap. */
  predicate SkipsCap(lane: LaneState, cmd: Command) {
    (cmd.mode == Steer || cmd.mode == SteerBacklog) && lane.active.Some?
  }

  function Submitted(q: QueueState, session: string, cmd: Command): (QueueState, seq<string>) {
    var lane := LaneOf(q, session);
    var l := Enqueued(lane, cmd);
    var index := q.index[cmd.id := session];
    if SkipsCap(lane, cmd) then (q.(lanes := q.lanes[session := l], index := index), [])
    else
      var (kept, gone) := Overflow(l.pending, l.cap, l.drop);
      (q.(lanes := q.lanes[session := l.(pending := kept)], index := index - (set id | id in gone)), gone)
  }

  function Cancelled(q: QueueState, id: string): (QueueState, bool) {
    if id !in q.index then (q, false)
    else
      var session := q.index[id];
      var lane := LaneOf(q, session);
      (q.(lanes := q.lanes[session := lane.(pending := RemoveFirst(lane.pending, id))], index := q.index - {id}),
       id in Ids(lane.pending))
  }

  function Aborted(q: QueueState, session: string): (QueueState, bool) {
    if session !in q.lanes then (q, false)
    else
      var lane := q.lanes[session];
      (q.(lanes := q.lanes[session := Interrupted(lane)],
          index := match lane.active case None => q.index case Some(c) => q.index - {c.id}),
       lane.active.Some?)
  }

  function Reconfigured(q: QueueState, session: string, mode: Mode, debounceMs: int, cap: int,
                        drop: Option<Policy>): QueueState {
    q.(lanes := q.lanes[session := Configured(LaneOf(q, session), mode, debounceMs, cap, drop)])
  }

  /** What a dispatched command takes along: in collect mode everything that waits behind it. */
  function DispatchOf(lane: LaneState): Dispatch
    requires lane.pending != []
  {
    var cmd, rest := lane.pending[0].(progress := Active), lane.pending[1..];
    if cmd.mode == Collect && rest != [] then
      var text := SteeringText(rest);
      Dispatch(if text != "" then cmd.(collected := Some(text)) else cmd, rest)
    else Dispatch(cmd, [])
  }

  /** The lane after its front command has been dispatched: collect takes the rest along, followup
      throws away the rest when it is more than one command. */
  function AfterDispatch(lane: LaneState): LaneState
    requires lane.pending != []
  {
    var l := Activated(lane);
    var mode := lane.pending[0].mode;
    if mode == Collect || (mode == Followup && |l.pending| > 1) then l.(pending := []) else l
  }

  function DispatchLane(q: QueueState, session: string): QueueState
    requires session in q.lanes && q.lanes[session].pending != []
  {
    var d := DispatchOf(q.lanes[session]);
    q.(lanes := q.lanes[session := AfterDispatch(q.lanes[session])],
       index := q.index - {d.command.id},
       activeCount := q.activeCount + 1,
       workers := q.workers + [d.command])
  }

  /** The dispatcher's walk over the lanes, up to the first idle lane it has no room for. */
  function Walk(q: QueueState, order: seq<string>, now: int): (QueueState, seq<Dispatch>)
    decreases |order|
  {
    if order == [] then (q, [])
    else
      var session := order[0];
      if session !in q.lanes || q.lanes[session].active.Some? then Walk(q, order[1..], now)
      else if q.activeCount >= q.config.maxConcurrent then (q, [])
      else if !Ready(q.lanes[session], now) then Walk(q, order[1..], now)
      else
        var d := DispatchOf(q.lanes[session]);
        var (q', ds) := Walk(DispatchLane(q, session), order[1..], now);
        (q', [d] + ds)
  }

  /** One lane of the walk. */
  lemma WalkRound(q: QueueState, order: seq<string>, i: nat, now: int)
    ensures i < |order| && order[i] in q.lanes ==>
              var lane := q.lanes[order[i]];
              Walk(q, order[i..], now).0 ==
              if lane.active.Some? then Walk(q, order[i + 1..], now).0
              else if q.activeCount >= q.config.maxConcurrent then q
              else if Ready(lane, now) then Walk(DispatchLane(q, order[i]), order[i + 1..], now).0
              else Walk(q, order[i + 1..], now).0
  {
  }

  lemma ReadyHasPending(lane: LaneState, now: int)
    ensures Ready(lane, now) ==> lane.pending != []
  {
  }

  lemma WalkEnd(q: QueueState, now: int)
    ensures Walk(q, [], now) == (q, [])
  {
  }

  /** Dispatching does not look at the workers already there. */
  lemma WorkersAside(before: QueueState, here: QueueState, session: string, more: seq<Command>)
    requires session in before.lanes && before.lanes[session].pending != []
    requires here == before.(workers := before.workers + more)
    ensures var command := DispatchOf(before.lanes[session]).command;
            DispatchLane(here, session) ==
            DispatchLane(before, session).(workers := before.workers + (more + [command]))
  {
  }

  lemma LaneThere(q: QueueState, session: string, cmd: Command)
    ensures Submitted(q.(lanes := q.lanes[session := LaneOf(q, session)]), session, cmd) == Submitted(q, session, cmd)
  {
    hide Enqueued, Overflow;
    var l := Enqueued(LaneOf(q, session), cmd);
    Overwritten(q.lanes, session, LaneOf(q, session), l);
    if !SkipsCap(LaneOf(q, session), cmd) {
      EnqueuedPending(LaneOf(q, session), cmd);
      Overwritten(q.lanes, session, LaneOf(q, session), l.(pending := Overflow(l.pending, l.cap, l.drop).0));
    }
  }

  lemma SteeredIs(q: QueueState, session: string, cmd: Command, l: LaneState)
    ensures session in q.lanes && SkipsCap(q.lanes[session], cmd) && l == Enqueued(q.lanes[session], cmd) ==>
              Submitted(q, session, cmd) ==
              (q.(lanes := q.lanes[session := l], index := q.index[cmd.id := session]), [])
  {
    hide Enqueued;
  }

  lemma QueuedIs(q: QueueState, session: string, cmd: Command, l: LaneState)
    requires session in q.lanes && !SkipsCap(q.lanes[session], cmd) && l == Enqueued(q.lanes[session], cmd)
    requires l.pending != []
    ensures var (kept, gone) := Overflow(l.pending, l.cap, l.drop);
            Submitted(q, session, cmd) ==
            (q.(lanes := q.lanes[session := l.(pending := kept)],
                index := q.index[cmd.id := session] - set id | id in gone), gone)
  {
    hide Enqueued, Overflow;
  }

  lemma EnqueuedPending(lane: LaneState, cmd: Command)
    ensures Enqueued(lane, cmd).pending != []
  {
  }

  lemma Overwritten(lanes: map<string, LaneState>, session: string, a: LaneState, b: LaneState)
    ensures lanes[session := a][session := b] == lanes[session := b]
  {
  }

  function WithoutIdle(lanes: map<string, LaneState>): map<string, LaneState> {
    map s | s in lanes && !lanes[s].IsIdle() :: lanes[s]
  }

  function Passed(q: QueueState, order: seq<string>, now: int): (QueueState, seq<Dispatch>) {
    var (q', ds) := Walk(q, order, now);
    (q'.(lanes := WithoutIdle(q'.lanes)), ds)
  }

  /** The end of execute_command for the worker at place `i`: whatever its lane runs is marked done. */
  function Completed(q: QueueState, i: nat): QueueState
    requires i < |q.workers|
  {
    var session := q.workers[i].session;
    q.(lanes := if session in q.lanes then q.lanes[session := q.lanes[session].(active := None)] else q.lanes,
       activeCount := q.activeCount - 1,
       workers := q.workers[..i] + q.workers[i + 1..])
  }

  /** The keys of the lane table, each once, in the order the table happens to yield them. */
  ghost predicate Enumerates(order: seq<string>, keys: set<string>) {
    && (forall i :: 0 <= i < |order| ==> order[i] in keys)
    && (forall k :: k in keys ==> k in order)
    && (forall i, j :: 0 <= i < j < |order| ==> order[i] != order[j])
  }

  lemma OnlyKeys(order: seq<string>, keys: set<string>)
    ensures Enumerates(order, keys) ==> (forall i :: 0 <= i < |order| ==> order[i] in keys)
  {
  }

  // ---------------------------------------------------------------- the class

  class CommandQueue {
    var config: Config
    var lanes: map<string, SessionLane>
    var commandToSession: map<string, string>
    var activeCount: int
    var workers: seq<Command>

    ghost predicate Valid()
      reads this
    {
      forall s, t :: s in lanes && t in lanes && s != t ==> lanes[s] != lanes[t]
    }

    ghost function LaneViews(): map<string, LaneState>
      reads this`lanes, lanes.Values
    {
      map s | s in lanes :: lanes[s].View()
    }

    ghost function View(): QueueState
      reads this, lanes.Values
    {
      QueueState(config, LaneViews(), commandToSession, activeCount, workers)
    }

    lemma LaneViewAt(session: string)
      ensures session in LaneViews() <==> session in lanes
      ensures session in lanes ==> LaneViews()[session] == lanes[session].View()
    {
    }

    /** Changing one lane changes one entry of the table. */
    twostate lemma OneLaneChanged(session: string)
      requires lanes == old(lanes) && session in lanes
      requires forall s :: s in lanes && s != session ==> lanes[s].View() == old(lanes[s].View())
      ensures LaneViews() == old(LaneViews())[session := lanes[session].View()]
    {
    }

    twostate lemma OnlyIdleGone()
      requires forall s :: s in lanes ==> s in old(lanes) && lanes[s] == old(lanes[s])
      requires forall s :: s in lanes ==> lanes[s].View() == old(lanes[s].View())
      requires forall s :: s in old(lanes) ==> (s in lanes <==> !old(lanes[s].View()).IsIdle())
      ensures LaneViews() == WithoutIdle(old(LaneViews()))
    {
      hide LaneState.IsIdle;
    }

    constructor (config: Config)
      ensures Valid() && fresh(lanes.Values)
      ensures View() == QueueState(config, map[], map[], 0, [])
    {
      this.config := config;
      lanes := map[];
      commandToSession := map[];
      activeCount := 0;
      workers := [];
    }

    method GetLane(session: string) returns (lane: SessionLane)
      requires Valid()
      modifies this`lanes
      ensures Valid() && session in lanes && lanes[session] == lane
      ensures fresh(lanes.Values - old(lanes.Values))
      ensures lane.View() == LaneOf(old(View()), session)
      ensures View() == old(View()).(lanes := old(View()).lanes[session := LaneOf(old(View()), session)])
    {
      if session !in lanes {
        lane := new SessionLane(session, config.defaultMode, config.debounceMs, config.cap, config.drop);
        lanes := lanes[session := lane];
      } else {
        lane := lanes[session];
      }
    }

    method Submit(id: string, session: string, message: string, connection: string, rpcRequest: string,
                  mode: Mode, now: int) returns (dropped: seq<string>)
      requires Valid()
      modifies this, lanes.Values
      ensures Valid() && fresh(lanes.Values - old(lanes.Values))
      ensures var cmd := NewCommand(LaneOf(old(View()), session), id, session, message, connection, rpcRequest,
                                    mode, now);
              (View(), dropped) == Submitted(old(View()), session, cmd)
    {
      hide Submitted, LaneOf;
      var lane := GetLane(session);
      var cmd := Command(id, session, message, None, connection, rpcRequest, mode, now, Pending);
      if mode == Collect {
        cmd := cmd.(mode := lane.mode);
      }
      LaneThere(old(View()), session, cmd);
      dropped := AddToLane(session, lane, cmd);
    }

    /** The rest of Submit, once the lane is there and the mode is known. */
    method AddToLane(session: string, lane: SessionLane, cmd: Command) returns (dropped: seq<string>)
      requires Valid() && session in lanes && lanes[session] == lane
      modifies this`commandToSession, lane
      ensures Valid() && lanes == old(lanes)
      ensures (View(), dropped) == Submitted(old(View()), session, cmd)
    {
      hide Overflow, Enqueued, Submitted, LaneViews;
      ghost var q, before := View(), lane.View();
      LaneViewAt(session);
      // steer and steer-backlog, two branches of the source with the same body
      var steers := (cmd.mode == Steer || cmd.mode == SteerBacklog) && lane.active.Some?;
      InterruptAndEnqueue(lane, cmd);
      ghost var l := lane.View();
      commandToSession := commandToSession[cmd.id := session];
      if steers {
        OneLaneChanged(session);
        SteeredIs(q, session, cmd, l);
        return [];
      }
      EnqueuedPending(before, cmd);
      dropped := lane.ApplyCapOverflow();
      OneLaneChanged(session);
      QueuedIs(q, session, cmd, l);
      EraseIds(dropped);
    }

    method InterruptAndEnqueue(lane: SessionLane, cmd: Command)
      modifies lane
      ensures lane.View() == Enqueued(old(lane.View()), cmd)
    {
      if cmd.mode == Interrupt && lane.active.Some? {
        var abortedId := lane.InterruptActive();
      }
      lane.Enqueue(cmd);
    }

    method EraseIds(ids: seq<string>)
      modifies this`commandToSession
      ensures commandToSession == old(commandToSession) - set j | j in ids
    {
      for i := 0 to |ids|
        invariant commandToSession == old(commandToSession) - set j | j in ids[..i]
      {
        assert ids[..i + 1] == ids[..i] + [ids[i]];
        commandToSession := commandToSession - {ids[i]};
      }
      assert ids[..|ids|] == ids;
    }

    method Cancel(id: string) returns (cancelled: bool)
      requires Valid()
      modifies this, lanes.Values
      ensures Valid() && fresh(lanes.Values - old(lanes.Values))
      ensures (View(), cancelled) == Cancelled(old(View()), id)
    {
      if id !in commandToSession {
        return false;
      }
      hide LaneOf, RemoveFirst;
      var session := commandToSession[id];
      ghost var q := old(View());
      var lane := GetLane(session);
      label Got:
      cancelled := lane.CancelPending(id);
      OneLaneChanged@Got(session);
      Overwritten(q.lanes, session, LaneOf(q, session), lane.View());
      commandToSession := commandToSession - {id};
    }

    method AbortSession(session: string) returns (aborted: bool)
      requires Valid()
      modifies this, lanes.Values
      ensures Valid() && fresh(lanes.Values - old(lanes.Values))
      ensures (View(), aborted) == Aborted(old(View()), session)
    {
      hide LaneViews;
      LaneViewAt(session);
      if session !in lanes {
        return false;
      }
      var lane := lanes[session];
      var abortedId := lane.InterruptActive();
      OneLaneChanged(session);
      if abortedId.Some? {
        commandToSession := commandToSession - {abortedId.value};
        return true;
      }
      return false;
    }

    method ConfigureSession(session: string, mode: Mode, debounceMs: int, cap: int, drop: Option<Policy>)
      requires Valid()
      modifies this, lanes.Values
      ensures Valid() && fresh(lanes.Values - old(lanes.Values))
      ensures View() == Reconfigured(old(View()), session, mode, debounceMs, cap, drop)
    {
      hide LaneOf, Configured;
      ghost var q := old(View());
      var lane := GetLane(session);
      label Got:
      lane.Configure(mode, debounceMs, cap, drop);
      OneLaneChanged@Got(session);
      Overwritten(q.lanes, session, LaneOf(q, session), lane.View());
    }

    method SetConfig(config: Config)
      modifies this`config
      ensures View() == old(View()).(config := config)
    {
      this.config := config;
    }

    /** One lane of the dispatcher's walk: the command to run, or nothing. */
    method DispatchFrom(session: string, now: int) returns (command: Option<Command>)
      requires Valid() && session in lanes && lanes[session].active.None?
      modifies this, lanes.Values
      ensures Valid() && lanes == old(lanes)
      ensures command.Some? <==> Ready(old(View()).lanes[session], now)
      ensures command.None? ==> View() == old(View())
      ensures command.Some? ==>
                && command.value == DispatchOf(old(View()).lanes[session]).command
                && View() == DispatchLane(old(View()), session).(workers := old(workers))
    {
      hide Ready, DispatchOf, AfterDispatch, LaneViews;
      var lane := lanes[session];
      LaneViewAt(session);
      if Ready(lane.View(), now) {
        ReadyHasPending(lane.View(), now);
      }
      command := TakeFrom(lane, now);
      if command.None? {
        OneLaneChanged(session);
        assert LaneViews() == old(LaneViews());
        return;
      }
      activeCount := activeCount + 1;
      commandToSession := commandToSession - {command.value.id};
      OneLaneChanged(session);
    }

    /** What the walk does to the lane itself. */
    method TakeFrom(lane: SessionLane, now: int) returns (command: Option<Command>)
      modifies lane
      ensures command.Some? <==> Ready(old(lane.View()), now)
      ensures command.None? ==> lane.View() == old(lane.View())
      ensures command.Some? ==>
                && old(lane.pending) != []
                && lane.View() == AfterDispatch(old(lane.View()))
                && command.value == DispatchOf(old(lane.View())).command
    {
      hide SteeringText, ElapsedMs;
      command := lane.TryActivate(now);
      if command.None? {
        return;
      }
      var cmd := command.value;
      if cmd.mode == Collect && lane.pending != [] {
        var steering := lane.DrainPendingAsSteeringText();
        if steering != "" {
          cmd := cmd.(collected := Some(steering));
        }
      }
      if cmd.mode == Followup {
        if |lane.pending| > 1 {
          var unused := lane.DrainPendingAsSteeringText();
        }
      }
      command := Some(cmd);
    }

    /** The clean-up of lanes with nothing active and nothing waiting. */
    method EraseIdleLanes()
      requires Valid()
      modifies this`lanes
      ensures Valid() && lanes.Values <= old(lanes.Values)
      ensures View() == old(View()).(lanes := WithoutIdle(old(View()).lanes))
    {
      hide WithoutIdle;
      var keys := lanes.Keys;
      while keys != {}
        invariant keys <= lanes.Keys <= old(lanes).Keys
        invariant forall s :: s in lanes ==> lanes[s] == old(lanes)[s]
        invariant forall s :: s in old(lanes) && s !in keys ==> (s in lanes <==> !old(lanes[s].View()).IsIdle())
        decreases |keys|
      {
        var s :| s in keys;
        keys := keys - {s};
        if lanes[s].active.None? && lanes[s].pending == [] {
          lanes := lanes - {s};
        }
      }
      OnlyIdleGone();
    }

    /** One round of dispatcher_loop. */
    method DispatcherPass(order: seq<string>, now: int) returns (toDispatch: seq<Command>)
      requires Valid() && Enumerates(order, lanes.Keys)
      modifies this, lanes.Values
      ensures Valid() && fresh(lanes.Values - old(lanes.Values))
      ensures View() == Passed(old(View()), order, now).0
      ensures workers == old(workers) + toDispatch
    {
      hide DispatchOf, DispatchLane, Ready, AfterDispatch, Walk, WithoutIdle, Enumerates, LaneViews;
      OnlyKeys(order, lanes.Keys);
      toDispatch := [];
      var i := 0;
      ghost var start := View();
      assert order[0..] == order && start.(workers := workers + []) == start;
      WalkEnd(start, now);
      while i < |order|
        invariant 0 <= i <= |order|
        invariant Valid() && lanes == old(lanes) && workers == old(workers)
        invariant Walk(View().(workers := workers + toDispatch), order[i..], now).0 == Walk(start, order, now).0
        invariant i == |order| ==> View().(workers := workers + toDispatch) == Walk(start, order, now).0
        decreases |order| - i
      {
        var session := order[i];
        LaneViewAt(session);
        ghost var here := View().(workers := workers + toDispatch);
        WalkRound(here, order, i, now);
        WalkEnd(here, now);
        if lanes[session].active.None? {
          if activeCount >= config.maxConcurrent {
            break;
          }
          ghost var before := View();
          var command := DispatchFrom(session, now);
          if command.Some? {
            ReadyHasPending(before.lanes[session], now);
            WorkersAside(before, here, session, toDispatch);
            toDispatch := toDispatch + [command.value];
          }
        }
        WalkEnd(View().(workers := workers + toDispatch), now);
        assert order[|order|..] == [];
        i := i + 1;
      }
      EraseIdleLanes();
      workers := workers + toDispatch;
    }

    /** The last critical section of execute_command, for the worker at place `i`. */
    method CompleteCommand(i: nat)
      requires Valid() && i < |workers|
      modifies this, lanes.Values
      ensures Valid() && lanes == old(lanes)
      ensures View() == Completed(old(View()), i)
    {
      hide LaneViews;
      var session := workers[i].session;
      LaneViewAt(session);
      if session in lanes {
        var lane := lanes[session];
        var done := lane.CompleteActive();
        OneLaneChanged(session);
      }
      activeCount := activeCount - 1;
      workers := workers[..i] + workers[i + 1..];
    }
  }
}
