/** Concrete runs of the command queue in which a promise of `src/gateway/command_queue.cppm` is broken: two
    messages of a session at work at once, more waiting than the cap allows, a command kept behind a followup, and
    an older command run before the one that interrupts. All are runs of the one session "s" from the start, with
    no debounce time.
 */
module QueueWitnesses {
  import opened Text
  import opened SessionLanes
  import opened CommandQueues
  import opened QueueRuns
  import opened QueueFates

  function Sent(id: string, mode: Mode): Command {
    Command(id, "s", id, None, "", "", mode, 0, Pending)
  }

  function AtWork(id: string, mode: Mode): Command {
    Sent(id, mode).(progress := Active)
  }

  function Send(id: string, mode: Mode): Event {
    Submit(id, "s", id, "", "", mode, 0)
  }

  function Setup(cap: int): Config {
    Config(2, 0, cap, DropOldest, Collect)
  }

  /** A queue with the one session: what its lane holds, what is indexed and who works. */
  function OnlyS(config: Config, pending: seq<Command>, active: Option<Command>, index: map<string, string>,
                 workers: seq<Command>): QueueState {
    QueueState(config,
               map["s" := LaneState("s", config.defaultMode, config.debounceMs, config.cap, config.drop, pending,
                                    active)],
               index, |workers|, workers)
  }

  // ---------------------------------------------------------------- one more event

  /** The run so far has led to this state and handed over these ids. */
  ghost predicate Reached(config: Config, run: seq<Event>, q: QueueState, used: set<string>, ran: seq<string>) {
    Legal(config, run) && After(config, run) == q && Used(run) == used && Ran(config, run) == ran
  }

  lemma StartReached(config: Config)
    ensures Reached(config, [], Start(config), {}, [])
  {
  }

  lemma Extend(config: Config, before: seq<Event>, q: QueueState, used: set<string>, ran: seq<string>, e: Event)
    requires Reached(config, before, q, used, ran) && Possible(q, used, e)
    ensures Reached(config, before + [e], Next(q, e), used + (if e.Submit? then {e.id} else {}), ran + TakenIn(q, e))
  {
    hide Next, Possible, TakenIn;
    var run := before + [e];
    assert run[..|run| - 1] == before;
  }

  /** The first message makes the lane. */
  lemma FirstSent(config: Config, run: seq<Event>, id: string, mode: Mode)
    requires config == Setup(config.cap) && config.cap >= 1 && Reached(config, run, Start(config), {}, [])
    ensures Reached(config, run + [Send(id, mode)], OnlyS(config, [Sent(id, mode)], None, map[id := "s"], []), {id}, [])
  {
    hide Reached, Ran;
    var q, e := Start(config), Send(id, mode);
    Extend(config, run, q, {}, [], e);
    assert Enqueued(LaneOf(q, "s"), Sent(id, mode)).pending == [Sent(id, mode)];
    assert {} + {id} == {id} && [] + TakenIn(q, e) == [];
    assert map[id := "s"] - (set x | x in []) == map[id := "s"];
    assert Next(q, e).index == map[id := "s"];
    assert Next(q, e).lanes == OnlyS(config, [Sent(id, mode)], None, map[], []).lanes;
  }

  /** A later one waits behind the others, while there is room or it steers. */
  lemma SentBehind(config: Config, run: seq<Event>, pending: seq<Command>, active: Option<Command>,
                   index: map<string, string>, workers: seq<Command>, used: set<string>, ran: seq<string>,
                   id: string, mode: Mode)
    requires config == Setup(config.cap) && id !in used && mode != Interrupt
    requires |pending| < config.cap || (mode == Steer && active.Some?)
    requires Reached(config, run, OnlyS(config, pending, active, index, workers), used, ran)
    ensures Reached(config, run + [Send(id, mode)],
                    OnlyS(config, pending + [Sent(id, mode)], active, index[id := "s"], workers), used + {id}, ran)
  {
    hide Reached, Ran;
    var q, e := OnlyS(config, pending, active, index, workers), Send(id, mode);
    Extend(config, run, q, used, ran, e);
    assert ran + [] == ran;
    var lane := q.lanes["s"];
    assert Enqueued(lane, Sent(id, mode)) == lane.(pending := pending + [Sent(id, mode)]);
    assert index[id := "s"] - (set x | x in []) == index[id := "s"];
    assert Next(q, e).lanes == OnlyS(config, pending + [Sent(id, mode)], active, index, workers).lanes;
  }

  /** A pass hands the front command over: alone, unless it collects. */
  lemma PassedOn(config: Config, run: seq<Event>, id: string, mode: Mode, rest: seq<Command>,
                 index: map<string, string>, workers: seq<Command>, used: set<string>, ran: seq<string>)
    requires config == Setup(config.cap) && |workers| < 2
    requires (mode == Collect ==> rest == []) && (mode == Followup ==> |rest| <= 1)
    requires Reached(config, run, OnlyS(config, [Sent(id, mode)] + rest, None, index, workers), used, ran)
    ensures Reached(config, run + [Pass(["s"], 0)],
                    OnlyS(config, rest, Some(AtWork(id, mode)), index - {id}, workers + [AtWork(id, mode)]),
                    used, ran + [id])
  {
    hide Reached, Ran;
    var q, e := OnlyS(config, [Sent(id, mode)] + rest, None, index, workers), Pass(["s"], 0);
    Extend(config, run, q, used, ran, e);
    FrontDispatched(config, id, mode, rest, index, workers);
    assert used + {} == used;
  }

  lemma FrontDispatched(config: Config, id: string, mode: Mode, rest: seq<Command>, index: map<string, string>,
                        workers: seq<Command>)
    requires config == Setup(config.cap) && |workers| < 2
    requires (mode == Collect ==> rest == []) && (mode == Followup ==> |rest| <= 1)
    ensures var q, e := OnlyS(config, [Sent(id, mode)] + rest, None, index, workers), Pass(["s"], 0);
            && Next(q, e) ==
               OnlyS(config, rest, Some(AtWork(id, mode)), index - {id}, workers + [AtWork(id, mode)])
            && TakenIn(q, e) == [id] && Possible(q, {}, e)
  {
    hide SteeringText;
    var q := OnlyS(config, [Sent(id, mode)] + rest, None, index, workers);
    var lane := q.lanes["s"];
    assert lane.pending[0] == Sent(id, mode) && lane.pending[1..] == rest && ["s"][1..] == [];
    var q' := DispatchLane(q, "s");
    assert AfterDispatch(lane) == lane.(pending := rest, active := Some(AtWork(id, mode)));
    assert DispatchOf(lane) == Dispatch(AtWork(id, mode), []);
    assert q'.lanes == OnlyS(config, rest, Some(AtWork(id, mode)), index, workers).lanes;
    assert Walk(q, ["s"], 0) == (q', [DispatchOf(lane)] + []);
    assert WithoutIdle(q'.lanes) == q'.lanes;
    assert TakenBy(Dispatch(AtWork(id, mode), [])) == [id];
    assert Taken([Dispatch(AtWork(id, mode), [])]) == [id] + Taken([]);
  }

  // ---------------------------------------------------------------- the runs

  /** Serialization is lost: an interrupting message works beside the one it interrupted. */
  lemma OverlapHappens() returns (config: Config, run: seq<Event>)
    ensures Legal(config, run)
    ensures var workers := After(config, run).workers;
            exists a, b :: workers == [a, b] && a.session == b.session == "s"
  {
    hide Legal, After, Used, Ran, Next, Reached;
    config, run := Setup(20), [];
    StartReached(config);
    FirstSent(config, run, "a", Followup);
    run := run + [Send("a", Followup)];
    var a, c, index := AtWork("a", Followup), AtWork("c", Interrupt), map["a" := "s"];
    assert [Sent("a", Followup)] == [Sent("a", Followup)] + [];
    PassedOn(config, run, "a", Followup, [], index, [], {"a"}, []);
    run := run + [Pass(["s"], 0)];
    InterruptedS(config, run, [], a, index - {"a"}, [] + [a], {"a"}, [] + ["a"]);
    run := run + [Send("c", Interrupt)];
    assert [] + [Sent("c", Interrupt)] == [Sent("c", Interrupt)] + [];
    PassedOn(config, run, "c", Interrupt, [], (index - {"a"})["c" := "s"], [] + [a], {"a"} + {"c"}, [] + ["a"]);
    run := run + [Pass(["s"], 0)];
    assert [] + [a] + [c] == [a, c];
    ReachedWorkers(config, run);
  }

  lemma ReachedWorkers(config: Config, run: seq<Event>)
    ensures forall q, used, ran :: Reached(config, run, q, used, ran) ==>
              Legal(config, run) && After(config, run) == q && Ran(config, run) == ran
  {
  }

  /** The cap is exceeded: two steering messages wait in a lane with a cap of one. */
  lemma CapExceeded() returns (config: Config, run: seq<Event>)
    ensures Legal(config, run)
    ensures var q := After(config, run); (LaneOf(q, "s").cap, |PendingOf(q, "s")|) == (1, 2)
  {
    hide Legal, After, Used, Ran, Next, Reached;
    config, run := Setup(1), [];
    StartReached(config);
    FirstSent(config, run, "a", Followup);
    run := run + [Send("a", Followup)];
    var a, index := AtWork("a", Followup), map["a" := "s"];
    assert [Sent("a", Followup)] == [Sent("a", Followup)] + [];
    PassedOn(config, run, "a", Followup, [], index, [], {"a"}, []);
    run := run + [Pass(["s"], 0)];
    SentBehind(config, run, [], Some(a), index - {"a"}, [] + [a], {"a"}, [] + ["a"], "b", Steer);
    run := run + [Send("b", Steer)];
    SentBehind(config, run, [] + [Sent("b", Steer)], Some(a), (index - {"a"})["b" := "s"], [] + [a], {"a"} + {"b"},
               [] + ["a"], "c", Steer);
    run := run + [Send("c", Steer)];
    ReachedWorkers(config, run);
  }

  /** A followup does not stand alone: with one command behind it, both are handed over, one after the other. */
  lemma FollowupKeepsOne() returns (config: Config, run: seq<Event>)
    ensures Legal(config, run) && |run| > 3 && run[..3] == [Send("a", Followup), Send("b", Followup), Pass(["s"], 0)]
    ensures (Ran(config, run[..3]), Ran(config, run)) == (["a"], ["a", "b"])
  {
    hide Legal, After, Used, Ran, Next, Reached;
    config, run := Setup(20), [];
    StartReached(config);
    FirstSent(config, run, "a", Followup);
    run := run + [Send("a", Followup)];
    var a, index := AtWork("a", Followup), map["a" := "s"];
    SentBehind(config, run, [Sent("a", Followup)], None, index, [], {"a"}, [], "b", Followup);
    run := run + [Send("b", Followup)];
    PassedOn(config, run, "a", Followup, [Sent("b", Followup)], index["b" := "s"], [], {"a"} + {"b"}, []);
    run := run + [Pass(["s"], 0)];
    ghost var first := run;
    assert [] + ["a"] == ["a"];
    ReachedWorkers(config, run);
    CompletedS(config, run, [Sent("b", Followup)], a, index["b" := "s"] - {"a"}, {"a"} + {"b"}, [] + ["a"]);
    run := run + [Event.Complete(0)];
    assert [Sent("b", Followup)] == [Sent("b", Followup)] + [];
    PassedOn(config, run, "b", Followup, [], index["b" := "s"] - {"a"}, [], {"a"} + {"b"}, [] + ["a"]);
    run := run + [Pass(["s"], 0)];
    assert [] + ["a"] + ["b"] == ["a", "b"];
    ReachedWorkers(config, run);
    assert run[..3] == first;
  }

  lemma CompletedS(config: Config, run: seq<Event>, pending: seq<Command>, a: Command, index: map<string, string>,
                   used: set<string>, ran: seq<string>)
    requires a.session == "s" && Reached(config, run, OnlyS(config, pending, Some(a), index, [] + [a]), used, ran)
    ensures Reached(config, run + [Event.Complete(0)], OnlyS(config, pending, None, index, []), used, ran)
  {
    hide Reached, Ran;
    var q := OnlyS(config, pending, Some(a), index, [] + [a]);
    Extend(config, run, q, used, ran, Event.Complete(0));
    assert used + {} == used && ran + [] == ran;
    assert ([] + [a])[..0] + ([] + [a])[1..] == [];
    assert Next(q, Event.Complete(0)).lanes == OnlyS(config, pending, None, index, []).lanes;
  }

  /** An interrupt does not start with the new message: a command that waited is handed over first. */
  lemma InterruptRunsOlderFirst() returns (config: Config, run: seq<Event>)
    ensures Legal(config, run) && |run| > 4 && run[3] == Send("c", Interrupt)
    ensures (Ran(config, run[..4]), Ran(config, run)) == (["a"], ["a", "b"])
    ensures Waits(After(config, run), "c")
  {
    hide Legal, After, Used, Ran, Next, Reached;
    config, run := Setup(20), [];
    StartReached(config);
    FirstSent(config, run, "a", Followup);
    run := run + [Send("a", Followup)];
    var a, b, c, index := AtWork("a", Followup), Sent("b", Followup), Sent("c", Interrupt), map["a" := "s"];
    assert [Sent("a", Followup)] == [Sent("a", Followup)] + [];
    PassedOn(config, run, "a", Followup, [], index, [], {"a"}, []);
    run := run + [Pass(["s"], 0)];
    SentBehind(config, run, [], Some(a), index - {"a"}, [] + [a], {"a"}, [] + ["a"], "b", Followup);
    run := run + [Send("b", Followup)];
    var index' := (index - {"a"})["b" := "s"];
    assert [] + [b] == [b];
    InterruptedS(config, run, [b], a, index', [] + [a], {"a"} + {"b"}, [] + ["a"]);
    run := run + [Send("c", Interrupt)];
    ghost var first := run;
    assert [] + ["a"] == ["a"] && [] + ["a"] + ["b"] == ["a", "b"];
    ReachedWorkers(config, run);
    PassedOn(config, run, "b", Followup, [c], index'["c" := "s"], [] + [a], {"a"} + {"b"} + {"c"}, [] + ["a"]);
    run := run + [Pass(["s"], 0)];
    ReachedWorkers(config, run);
    assert run[..4] == first;
    assert WaitsIn(After(config, run), "s", "c") by {
      assert Ids([c])[0] == "c";
    }
  }

  /** An interrupting message, with at most one command waiting. */
  lemma InterruptedS(config: Config, run: seq<Event>, pending: seq<Command>, a: Command, index: map<string, string>,
                     workers: seq<Command>, used: set<string>, ran: seq<string>)
    requires config == Setup(20) && a.id !in index && "c" !in used && |pending| <= 1
    requires Reached(config, run, OnlyS(config, pending, Some(a), index, workers), used, ran)
    ensures Reached(config, run + [Send("c", Interrupt)],
                    OnlyS(config, pending + [Sent("c", Interrupt)], None, index["c" := "s"], workers),
                    used + {"c"}, ran)
  {
    hide Reached, Ran;
    var q, e := OnlyS(config, pending, Some(a), index, workers), Send("c", Interrupt);
    Extend(config, run, q, used, ran, e);
    assert ran + [] == ran;
    var lane := q.lanes["s"];
    assert Enqueued(lane, Sent("c", Interrupt)) ==
           lane.(pending := pending + [Sent("c", Interrupt)], active := None);
    assert index["c" := "s"] - (set x | x in []) == index["c" := "s"];
    assert Next(q, e).lanes == OnlyS(config, pending + [Sent("c", Interrupt)], None, index, workers).lanes;
  }
}
