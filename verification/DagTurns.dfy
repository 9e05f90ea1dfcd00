/** Turns of the DAG log: `src/core/dag_runtime.cpp` and `src/core/evolve_runtime.cpp`. */
module DagTurns {
  // A turn is begun, gets its nodes and is ended; evolve runs are attached to turns by racing threads. The log is a
  // sequence of entries in the order in which they are written. Fresh ids are parameters.

  datatype Entry =
    | Begin(turn: string, session: string)
    | Node(turn: string, node: string, kind: string)
    | Edge(turn: string, source: string, target: string)
    | End(turn: string, status: string)

  /** DagTurnState: what a caller holds of a turn. */
  datatype TurnState = TurnState(turn: string, lastNode: string)

  // ---------------------------------------------------------------- what a turn writes

  function BeginEntries(session: string, turn: string, node: string): seq<Entry> {
    [Begin(turn, session), Node(turn, node, "turn_start")]
  }

  function EmitEntries(state: TurnState, node: string, kind: string): seq<Entry> {
    [Node(state.turn, node, kind)] + if state.lastNode != "" then [Edge(state.turn, state.lastNode, node)] else []
  }

  class DagRuntime {
    var log: seq<Entry>
    var latestRunBySession: map<string, string>

    constructor ()
      ensures log == [] && latestRunBySession == map[]
    {
      log, latestRunBySession := [], map[];
    }

    method BeginTurn(session: string, freshTurn: string, freshNode: string) returns (state: TurnState)
      requires freshTurn != ""
      modifies this
      ensures state == TurnState(freshTurn, freshNode)
      ensures log == old(log) + BeginEntries(session, freshTurn, freshNode)
      ensures log == old(log) + [Begin(freshTurn, session), Node(freshTurn, freshNode, "turn_start")]
      ensures latestRunBySession == old(latestRunBySession)[session := freshTurn]
    {
      state := TurnState(freshTurn, "");
      log := log + [Begin(freshTurn, session)];
      latestRunBySession := latestRunBySession[session := freshTurn];
      state := EmitNode(state, freshNode, "turn_start");
    }

    method EmitNode(state: TurnState, freshNode: string, kind: string) returns (after: TurnState)
      modifies this`log
      ensures state.turn == "" ==> log == old(log) && after == state
      ensures state.turn != "" ==>
                log == old(log) + EmitEntries(state, freshNode, kind) && after == state.(lastNode := freshNode)
      ensures state.turn != "" && state.lastNode == "" ==> log == old(log) + [Node(state.turn, freshNode, kind)]
      ensures state.turn != "" && state.lastNode != "" ==>
                log == old(log) + [Node(state.turn, freshNode, kind), Edge(state.turn, state.lastNode, freshNode)]
    {
      if state.turn == "" {
        return state;
      }
      log := log + [Node(state.turn, freshNode, kind)];
      if state.lastNode != "" {
        log := log + [Edge(state.turn, state.lastNode, freshNode)];
      }
      return state.(lastNode := freshNode);
    }

    method EndTurn(state: TurnState, status: string)
      modifies this`log
      ensures log == old(log) + if state.turn == "" then [] else [End(state.turn, status)]
    {
      if state.turn == "" {
        return;
      }
      log := log + [End(state.turn, status)];
    }
  }

  // ---------------------------------------------------------------- the shape of a turn

  /** The entries of one turn. */
  function Of(log: seq<Entry>, turn: string): seq<Entry> {
    if log == [] then []
    else
      var n := |log| - 1;
      Of(log[..n], turn) + if log[n].turn == turn then [log[n]] else []
  }

  /** A turn that is going on: begun, and its nodes one chain that ends in `last`. */
  ghost predicate OpenChain(entries: seq<Entry>, turn: string, last: string) {
    var n := |entries| - 2;
    || (n == 0 && last != ""
        && entries[0].Begin? && entries[0].turn == turn && entries[1] == Node(turn, last, "turn_start"))
    || (n >= 2 && last != ""
        && entries[n].Node? && entries[n].turn == turn && entries[n].node == last
        && entries[n + 1].Edge? && entries[n + 1].turn == turn && entries[n + 1].target == last
        && OpenChain(entries[..n], turn, entries[n + 1].source))
  }

  /** A turn that is over: a chain, then its one end. */
  ghost predicate ClosedChain(entries: seq<Entry>, turn: string) {
    && entries != []
    && entries[|entries| - 1].End? && entries[|entries| - 1].turn == turn
    && var front := entries[..|entries| - 1]; exists last :: OpenChain(front, turn, last)
  }

  lemma {:induction false} OfConcat(a: seq<Entry>, b: seq<Entry>, turn: string)
    ensures Of(a + b, turn) == Of(a, turn) + Of(b, turn)
  {
    if b == [] {
      assert a + b == a;
    } else {
      assert (a + b)[..|a + b| - 1] == a + b[..|b| - 1];
      OfConcat(a, b[..|b| - 1], turn);
    }
  }

  lemma OfOne(e: Entry, turn: string)
    ensures Of([e], turn) == if e.turn == turn then [e] else []
  {
    assert ([e])[..0] == [];
  }

  lemma OfTwo(e: Entry, f: Entry, turn: string)
    requires e.turn == f.turn
    ensures Of([e, f], turn) == if e.turn == turn then [e, f] else []
  {
    assert [e, f] == [e] + [f];
    OfConcat([e], [f], turn);
    OfOne(e, turn);
    OfOne(f, turn);
  }

  lemma {:induction false} OpenHasNoEnd(entries: seq<Entry>, turn: string, last: string)
    requires OpenChain(entries, turn, last)
    ensures forall i :: 0 <= i < |entries| ==> !entries[i].End?
    decreases |entries|
  {
    if |entries| == 2 {
    } else {
      OpenHasNoEnd(entries[..|entries| - 2], turn, entries[|entries| - 1].source);
    }
  }

  // ---------------------------------------------------------------- racing threads

  /** Where a thread is inside AttachRun or DetachRun, between its critical sections. */
  datatype InFlight =
    | Checked(run: string, session: string)
    | Begun(run: string, state: TurnState)
    | Taken(state: TurnState, status: string)

  datatype World = World(log: seq<Entry>, turns: map<string, TurnState>, threads: map<nat, InFlight>)

  datatype Action =
    | AttachCheck(thread: nat, run: string, experiment: string)
    | AttachBegin(thread: nat, turn: string, node: string)
    | AttachPublish(thread: nat)
    | DetachTake(thread: nat, run: string, status: string)
    | DetachEnd(thread: nat)
    | Route(run: string, node: string, kind: string)

  ghost predicate Possible(w: World, a: Action) {
    match a
    case AttachCheck(t, run, _) => t !in w.threads && run != ""
    case AttachBegin(t, turn, node) =>
      t in w.threads && w.threads[t].Checked? && turn != "" && Of(w.log, turn) == [] && FreshNode(w.log, node)
    case AttachPublish(t) => t in w.threads && w.threads[t].Begun?
    case DetachTake(t, _, _) => t !in w.threads
    case DetachEnd(t) => t in w.threads && w.threads[t].Taken?
    case Route(_, node, _) => FreshNode(w.log, node)
  }

  ghost predicate FreshNode(log: seq<Entry>, node: string) {
    node != "" && forall i :: 0 <= i < |log| && log[i].Node? ==> log[i].node != node
  }

  ghost function Next(w: World, a: Action): World
    requires Possible(w, a)
  {
    match a
    case AttachCheck(t, run, experiment) =>
      if run in w.turns then w
      else w.(threads := w.threads[t := Checked(run, if experiment == "" then "evolve" else experiment)])
    case AttachBegin(t, turn, node) =>
      var c := w.threads[t];
      w.(log := w.log + BeginEntries(c.session, turn, node),
         threads := w.threads[t := Begun(c.run, TurnState(turn, node))])
    case AttachPublish(t) =>
      var b := w.threads[t];
      if b.run in w.turns then
        w.(log := w.log + [End(b.state.turn, "stopped")], threads := w.threads - {t})
      else w.(turns := w.turns[b.run := b.state], threads := w.threads - {t})
    case DetachTake(t, run, status) =>
      if run in w.turns then
        w.(turns := w.turns - {run}, threads := w.threads[t := Taken(w.turns[run], status)])
      else w
    case DetachEnd(t) =>
      w.(log := w.log + [End(w.threads[t].state.turn, w.threads[t].status)], threads := w.threads - {t})
    case Route(run, node, kind) =>
      if run in w.turns then
        w.(log := w.log + EmitEntries(w.turns[run], node, kind),
           turns := w.turns[run := w.turns[run].(lastNode := node)])
      else w
  }

  /** Who may hold a turn: the table under a run id, or a thread between two critical sections. */
  datatype Holder = InTable(run: string) | InThread(thread: nat)

  ghost predicate Holds(w: World, h: Holder, state: TurnState) {
    match h
    case InTable(run) => run in w.turns && w.turns[run] == state
    case InThread(t) => t in w.threads && !w.threads[t].Checked? && w.threads[t].state == state
  }

  ghost predicate DistinctNodes(log: seq<Entry>) {
    forall i, j :: 0 <= i < j < |log| && log[i].Node? && log[j].Node? ==> log[i].node != log[j].node
  }

  /** Every held turn is open under the state held; no turn is held twice; every turn in the log is held
      or over. */
  ghost predicate Inv(w: World) {
    && (forall h, s :: Holds(w, h, s) ==> s.turn != "" && OpenChain(Of(w.log, s.turn), s.turn, s.lastNode))
    && (forall h, k, s, u :: Holds(w, h, s) && Holds(w, k, u) && s.turn == u.turn ==> h == k)
    && (forall turn :: Of(w.log, turn) != [] ==>
          ClosedChain(Of(w.log, turn), turn) || exists h, s :: Holds(w, h, s) && s.turn == turn)
    && DistinctNodes(w.log)
  }

  /** Appending entries of one turn leaves the others alone. */
  lemma OthersUntouched(log: seq<Entry>, more: seq<Entry>, turn: string, other: string)
    requires forall e :: e in more ==> e.turn == turn
    requires other != turn
    ensures Of(log + more, other) == Of(log, other)
  {
    OfConcat(log, more, other);
    NoneOf(more, turn, other);
  }

  lemma {:induction false} NoneOf(more: seq<Entry>, turn: string, other: string)
    requires (forall e :: e in more ==> e.turn == turn) && other != turn
    ensures Of(more, other) == []
  {
    if more == [] {
    } else {
      assert more[|more| - 1] in more;
      NoneOf(more[..|more| - 1], turn, other);
    }
  }

  lemma ChainBegins(log: seq<Entry>, session: string, turn: string, node: string)
    requires Of(log, turn) == [] && node != ""
    ensures OpenChain(Of(log + BeginEntries(session, turn, node), turn), turn, node)
  {
    OfConcat(log, BeginEntries(session, turn, node), turn);
    OfTwo(Begin(turn, session), Node(turn, node, "turn_start"), turn);
  }

  lemma ChainGrows(log: seq<Entry>, state: TurnState, node: string, kind: string)
    requires OpenChain(Of(log, state.turn), state.turn, state.lastNode) && node != ""
    ensures OpenChain(Of(log + EmitEntries(state, node, kind), state.turn), state.turn, node)
  {
    hide Of, OpenChain;
    var before, more := Of(log, state.turn), EmitEntries(state, node, kind);
    OpenNext(before, state, node, kind);
    assert more == [more[0], more[1]];
    OfConcat(log, more, state.turn);
    OfTwo(more[0], more[1], state.turn);
  }

  /** One node more on a chain. */
  lemma OpenNext(entries: seq<Entry>, state: TurnState, node: string, kind: string)
    requires OpenChain(entries, state.turn, state.lastNode) && node != ""
    ensures |EmitEntries(state, node, kind)| == 2
    ensures OpenChain(entries + EmitEntries(state, node, kind), state.turn, node)
  {
    assert (entries + EmitEntries(state, node, kind))[..|entries|] == entries;
  }

  lemma ChainEnds(log: seq<Entry>, state: TurnState, status: string)
    requires OpenChain(Of(log, state.turn), state.turn, state.lastNode)
    ensures ClosedChain(Of(log + [End(state.turn, status)], state.turn), state.turn)
  {
    hide Of, OpenChain;
    var before := Of(log, state.turn);
    OfConcat(log, [End(state.turn, status)], state.turn);
    OfOne(End(state.turn, status), state.turn);
    assert (before + [End(state.turn, status)])[..|before|] == before;
  }

  // ---------------------------------------------------------------- every step keeps the invariant

  /** One holder changes: the others keep what they hold, of other turns. */
  ghost predicate OnlyChanges(w: World, w': World, turn: string, more: seq<Entry>) {
    && w'.log == w.log + more && (forall e :: e in more ==> e.turn == turn)
    && DistinctNodes(w'.log)
  }

  lemma StepKeeps(w: World, w': World, turn: string, more: seq<Entry>, from: Holder, to: Holder, state': TurnState)
    requires Inv(w) && OnlyChanges(w, w', turn, more)
    requires turn != "" && state'.turn == turn && Holds(w', to, state')
    requires OpenChain(Of(w'.log, turn), turn, state'.lastNode)
    requires if Of(w.log, turn) == [] then forall s :: !Holds(w, from, s)
             else exists s :: Holds(w, from, s) && s.turn == turn
    requires forall h, s :: h != to && Holds(w', h, s) ==> Holds(w, h, s) && h != from
    requires forall h, s :: h != from && Holds(w, h, s) && s.turn != turn ==> Holds(w', h, s)
    ensures Inv(w')
  {
    hide OpenChain, ClosedChain, DistinctNodes;
    forall other | other != turn ensures Of(w'.log, other) == Of(w.log, other) {
      OthersUntouched(w.log, more, turn, other);
    }
    forall h, s | Holds(w', h, s)
      ensures s.turn != "" && OpenChain(Of(w'.log, s.turn), s.turn, s.lastNode) && (h != to ==> s.turn != turn)
    {
      if h != to {
        assert Holds(w, h, s) && h != from;
        OpenNotEmpty(Of(w.log, s.turn), s.turn, s.lastNode);
      } else {
        HeldOnce(w', to, s, state');
      }
    }
    forall other | Of(w'.log, other) != []
      ensures ClosedChain(Of(w'.log, other), other) || exists h, s :: Holds(w', h, s) && s.turn == other
    {
      if other != turn && !ClosedChain(Of(w.log, other), other) {
        var h, s :| Holds(w, h, s) && s.turn == other;
        assert Holds(w', h, s);
      }
    }
  }

  lemma HeldOnce(w: World, h: Holder, s: TurnState, u: TurnState)
    ensures Holds(w, h, s) && Holds(w, h, u) ==> s == u
  {
  }

  lemma OpenNotEmpty(entries: seq<Entry>, turn: string, last: string)
    requires OpenChain(entries, turn, last)
    ensures entries != [] && !ClosedChain(entries, turn)
  {
    OpenHasNoEnd(entries, turn, last);
  }

  /** A turn that changes hands, with nothing written, or that goes on in the same hands. */
  lemma EndKeeps(w: World, w': World, from: Holder, state: TurnState, status: string)
    requires Inv(w) && Holds(w, from, state)
    requires w'.log == w.log + [End(state.turn, status)]
    requires forall h, s :: Holds(w', h, s) <==> Holds(w, h, s) && h != from
    ensures Inv(w')
  {
    hide OpenChain, ClosedChain, DistinctNodes, Of, Holds;
    EndAddsNoNode(w.log, state.turn, status);
    ChainEnds(w.log, state, status);
    forall other | other != state.turn ensures Of(w'.log, other) == Of(w.log, other) {
      OthersUntouched(w.log, [End(state.turn, status)], state.turn, other);
    }
    forall other | Of(w'.log, other) != []
      ensures ClosedChain(Of(w'.log, other), other) || exists h, s :: Holds(w', h, s) && s.turn == other
    {
      if other != state.turn && !ClosedChain(Of(w.log, other), other) {
        var h, s :| Holds(w, h, s) && s.turn == other;
        if h == from { HeldOnce(w, from, s, state); }
        assert Holds(w', h, s);
      }
    }
    forall h, s | Holds(w', h, s)
      ensures s.turn != "" && OpenChain(Of(w'.log, s.turn), s.turn, s.lastNode)
    {
      assert Holds(w, h, s) && h != from && s.turn != state.turn;
    }
  }

  lemma EndAddsNoNode(log: seq<Entry>, turn: string, status: string)
    ensures DistinctNodes(log) ==> DistinctNodes(log + [End(turn, status)])
  {
  }

  lemma BeginAddsNode(log: seq<Entry>, session: string, turn: string, node: string)
    requires DistinctNodes(log) && FreshNode(log, node)
    ensures node != "" && DistinctNodes(log + BeginEntries(session, turn, node))
    ensures forall e :: e in BeginEntries(session, turn, node) ==> e.turn == turn
  {
  }

  lemma EmitAddsNode(log: seq<Entry>, state: TurnState, node: string, kind: string)
    requires DistinctNodes(log) && FreshNode(log, node)
    ensures node != "" && DistinctNodes(log + EmitEntries(state, node, kind))
    ensures forall e :: e in EmitEntries(state, node, kind) ==> e.turn == state.turn
  {
  }

  lemma HeldTurn(w: World, h: Holder, state: TurnState)
    requires Inv(w) && Holds(w, h, state)
    ensures state.turn != "" && OpenChain(Of(w.log, state.turn), state.turn, state.lastNode)
    ensures Of(w.log, state.turn) != []
  {
    OpenNotEmpty(Of(w.log, state.turn), state.turn, state.lastNode);
  }

  lemma InvNext(w: World, a: Action)
    requires Inv(w) && Possible(w, a)
    ensures Inv(Next(w, a))
  {
    hide OpenChain, ClosedChain, DistinctNodes, Of, EmitEntries, BeginEntries, FreshNode, Inv;
    var w' := Next(w, a);
    match a
    case AttachCheck(t, run, experiment) =>
      SameHolders(w, w');
    case AttachBegin(t, turn, node) =>
      var c := w.threads[t];
      InvNodes(w);
      BeginAddsNode(w.log, c.session, turn, node);
      ChainBegins(w.log, c.session, turn, node);
      StepKeeps(w, w', turn, BeginEntries(c.session, turn, node), InThread(t), InThread(t), TurnState(turn, node));
    case AttachPublish(t) =>
      var b := w.threads[t];
      assert Holds(w, InThread(t), b.state);
      HeldTurn(w, InThread(t), b.state);
      if b.run in w.turns {
        EndKeeps(w, w', InThread(t), b.state, "stopped");
      } else {
        InvNodes(w);
        assert w.log + [] == w.log;
        StepKeeps(w, w', b.state.turn, [], InThread(t), InTable(b.run), b.state);
      }
    case DetachTake(t, run, status) =>
      if run in w.turns {
        var s := w.turns[run];
        assert Holds(w, InTable(run), s);
        HeldTurn(w, InTable(run), s);
        InvNodes(w);
        assert w.log + [] == w.log;
        StepKeeps(w, w', s.turn, [], InTable(run), InThread(t), s);
      }
    case DetachEnd(t) =>
      assert Holds(w, InThread(t), w.threads[t].state);
      EndKeeps(w, w', InThread(t), w.threads[t].state, w.threads[t].status);
    case Route(run, node, kind) =>
      if run in w.turns {
        var s := w.turns[run];
        assert Holds(w, InTable(run), s);
        HeldTurn(w, InTable(run), s);
        InvNodes(w);
        EmitAddsNode(w.log, s, node, kind);
        ChainGrows(w.log, s, node, kind);
        StepKeeps(w, w', s.turn, EmitEntries(s, node, kind), InTable(run), InTable(run), s.(lastNode := node));
      }
  }

  lemma InvNodes(w: World)
    ensures Inv(w) ==> DistinctNodes(w.log)
  {
  }

  lemma SameHolders(w: World, w': World)
    ensures Inv(w) && w'.log == w.log && (forall h, s :: Holds(w', h, s) <==> Holds(w, h, s)) ==> Inv(w')
  {
    hide Of, OpenChain, ClosedChain, DistinctNodes, Holds;
  }

  // ---------------------------------------------------------------- the class

  /** The evolve runtime. Each method is one critical section, or one call into the DAG log between two
      of them, and is the step of the same name for whichever thread takes it; `threads` is where all
      threads stand before it. A caller's locals are its entry in `threads`. */
  class EvolveRuntime {
    const dag: DagRuntime
    var runTurnStates: map<string, TurnState>

    constructor (dag: DagRuntime)
      ensures this.dag == dag && runTurnStates == map[]
    {
      this.dag := dag;
      runTurnStates := map[];
    }

    ghost function View(threads: map<nat, InFlight>): World
      reads this, dag
    {
      World(dag.log, runTurnStates, threads)
    }

    /** AttachRun up to the turn it begins: false when the run is attached already. */
    method AttachCheck(thread: nat, run: string, experiment: string, ghost threads: map<nat, InFlight>)
      returns (goOn: bool, session: string)
      requires Possible(View(threads), Action.AttachCheck(thread, run, experiment))
      ensures goOn <==> run !in runTurnStates
      ensures goOn ==> session == if experiment != "" then experiment else "evolve"
      ensures View(if goOn then threads[thread := Checked(run, session)] else threads)
              == Next(View(threads), Action.AttachCheck(thread, run, experiment))
    {
      if run in runTurnStates {
        return false, "";
      }
      return true, if experiment == "" then "evolve" else experiment;
    }

    method AttachBegin(thread: nat, run: string, session: string, freshTurn: string, freshNode: string,
                       ghost threads: map<nat, InFlight>)
      returns (state: TurnState)
      requires Possible(View(threads), Action.AttachBegin(thread, freshTurn, freshNode))
      requires threads[thread] == Checked(run, session)
      modifies dag
      ensures dag.log == old(dag.log) + [Begin(freshTurn, session), Node(freshTurn, freshNode, "turn_start")]
      ensures state == TurnState(freshTurn, freshNode) && runTurnStates == old(runTurnStates)
      ensures View(threads[thread := Begun(run, state)])
              == Next(old(View(threads)), Action.AttachBegin(thread, freshTurn, freshNode))
    {
      state := dag.BeginTurn(session, freshTurn, freshNode);
    }

    /** The end of AttachRun: a thread that comes second closes the turn it has just begun. */
    method AttachPublish(thread: nat, run: string, state: TurnState, ghost threads: map<nat, InFlight>)
      returns (attached: bool)
      requires Possible(View(threads), Action.AttachPublish(thread)) && threads[thread] == Begun(run, state)
      requires Inv(View(threads))
      modifies this, dag
      ensures attached <==> run !in old(runTurnStates)
      ensures attached ==> runTurnStates == old(runTurnStates)[run := state] && dag.log == old(dag.log)
      ensures !attached ==>
                runTurnStates == old(runTurnStates) && dag.log == old(dag.log) + [End(state.turn, "stopped")]
      ensures View(threads - {thread}) == Next(old(View(threads)), Action.AttachPublish(thread))
    {
      assert Holds(View(threads), InThread(thread), state);
      if run in runTurnStates {
        dag.EndTurn(state, "stopped");
        return false;
      }
      runTurnStates := runTurnStates[run := state];
      return true;
    }

    method DetachTake(thread: nat, run: string, status: string, ghost threads: map<nat, InFlight>)
      returns (found: bool, state: TurnState)
      requires Possible(View(threads), Action.DetachTake(thread, run, status))
      modifies this
      ensures found <==> run in old(runTurnStates)
      ensures found ==> state == old(runTurnStates)[run] && runTurnStates == old(runTurnStates) - {run}
      ensures !found ==> runTurnStates == old(runTurnStates)
      ensures View(if found then threads[thread := Taken(state, status)] else threads)
              == Next(old(View(threads)), Action.DetachTake(thread, run, status))
    {
      state := TurnState("", "");
      found := run in runTurnStates;
      if found {
        state := runTurnStates[run];
        runTurnStates := runTurnStates - {run};
      }
    }

    method DetachEnd(thread: nat, state: TurnState, status: string, ghost threads: map<nat, InFlight>)
      requires Possible(View(threads), Action.DetachEnd(thread)) && threads[thread] == Taken(state, status)
      requires Inv(View(threads))
      modifies dag
      ensures View(threads - {thread}) == Next(old(View(threads)), Action.DetachEnd(thread))
      ensures dag.log == old(dag.log) + [End(state.turn, status)] && runTurnStates == old(runTurnStates)
    {
      assert Holds(View(threads), InThread(thread), state);
      dag.EndTurn(state, status);
    }

    method RouteEvent(run: string, freshNode: string, kind: string, ghost threads: map<nat, InFlight>)
      requires Possible(View(threads), Route(run, freshNode, kind))
      requires Inv(View(threads))
      modifies this, dag
      ensures View(threads) == Next(old(View(threads)), Route(run, freshNode, kind))
      ensures run !in old(runTurnStates) ==> dag.log == old(dag.log) && runTurnStates == old(runTurnStates)
      ensures run in old(runTurnStates) ==>
                var state := old(runTurnStates)[run];
                && runTurnStates == old(runTurnStates)[run := state.(lastNode := freshNode)]
                && dag.log == old(dag.log) +
                   [Node(state.turn, freshNode, kind), Edge(state.turn, state.lastNode, freshNode)]
    {
      if run in runTurnStates {
        assert Holds(View(threads), InTable(run), runTurnStates[run]);
        var state := dag.EmitNode(runTurnStates[run], freshNode, kind);
        runTurnStates := runTurnStates[run := state];
      }
    }
  }

  // ---------------------------------------------------------------- every run

  ghost predicate Legal(run: seq<Action>) {
    || run == []
    || (var before := run[..|run| - 1]; Legal(before) && Possible(After(before), run[|run| - 1]))
  }

  ghost function After(run: seq<Action>): World {
    if run == [] then World([], map[], map[])
    else
      var before := After(run[..|run| - 1]);
      if Possible(before, run[|run| - 1]) then Next(before, run[|run| - 1]) else before
  }

  lemma {:induction false} RunsKeepInv(run: seq<Action>)
    requires Legal(run)
    ensures Inv(After(run))
  {
    hide Possible, Next, Inv;
    if run == [] {
      InvStart();
    } else {
      RunsKeepInv(run[..|run| - 1]);
      InvNext(After(run[..|run| - 1]), run[|run| - 1]);
    }
  }

  lemma InvStart()
    ensures Inv(World([], map[], map[]))
  {
  }

  /** A turn that has begun and has no end in the log. */
  ghost predicate IsOpen(log: seq<Entry>, turn: string) {
    Of(log, turn) != [] && forall i :: 0 <= i < |Of(log, turn)| ==> !Of(log, turn)[i].End?
  }

  /** One chain of nodes, followed by at most one end and by nothing after it. */
  ghost predicate IsChain(entries: seq<Entry>, turn: string) {
    entries == [] || ClosedChain(entries, turn) || exists last :: OpenChain(entries, turn, last)
  }

  ghost predicate IsHeld(w: World, turn: string) {
    exists h, s :: Holds(w, h, s) && s.turn == turn
  }

  lemma HeldIsOpen(w: World, turn: string)
    requires Inv(w) && IsHeld(w, turn)
    ensures IsOpen(w.log, turn) && IsChain(Of(w.log, turn), turn)
  {
    hide OpenChain, ClosedChain, DistinctNodes, Of, Holds;
    var h, s :| Holds(w, h, s) && s.turn == turn;
    OpenHasNoEnd(Of(w.log, turn), turn, s.lastNode);
    OpenNotEmpty(Of(w.log, turn), turn, s.lastNode);
  }

  lemma OtherIsOver(w: World, turn: string)
    ensures Inv(w) && !IsHeld(w, turn) ==> !IsOpen(w.log, turn) && IsChain(Of(w.log, turn), turn)
  {
  }

  /** Under every interleaving: the open turns are exactly those in the table or in the hands of a
      thread between two critical sections, each in one place only; every turn's entries are one chain
      with at most one end, and no node is written twice. */
  lemma TurnsAreChains(run: seq<Action>)
    requires Legal(run)
    ensures forall turn :: IsOpen(After(run).log, turn) <==> IsHeld(After(run), turn)
    ensures forall turn :: IsChain(Of(After(run).log, turn), turn)
    ensures forall h, k, s, u :: Holds(After(run), h, s) && Holds(After(run), k, u) && s.turn == u.turn ==> h == k
    ensures DistinctNodes(After(run).log)
  {
    RunsKeepInv(run);
    hide OpenChain, ClosedChain, DistinctNodes, Of, Holds, After, IsOpen, IsHeld, IsChain;
    var w := After(run);
    forall turn
      ensures IsOpen(w.log, turn) <==> IsHeld(w, turn)
      ensures IsChain(Of(w.log, turn), turn)
    {
      if IsHeld(w, turn) {
        HeldIsOpen(w, turn);
      } else {
        OtherIsOver(w, turn);
      }
    }
  }
}
