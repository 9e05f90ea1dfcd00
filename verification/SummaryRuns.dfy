/** A lane under the summarize policy over a whole run: `src/gateway/command_queue.cpp`. However the
    submissions come and whatever other sessions do, the lane shows its last messages and, at its head, one
    summary of all before them.
 */
module SummaryRuns {
  import opened Text
  import opened SessionLanes
  import opened CommandQueues
  import opened QueueRuns
  import QueueSummary

  /** The messages submitted to a session, in order. */
  function Said(run: seq<Event>, session: string): seq<string> {
    if run == [] then []
    else
      var e := run[|run| - 1];
      Said(run[..|run| - 1], session) + if e.Submit? && e.session == session then [e.message] else []
  }

  /** What a lane with this cap is to show of them: all, or the older ones folded into one text. */
  function Condensed(texts: seq<string>, cap: nat): seq<string>
    requires cap >= 1
  {
    if |texts| <= cap then texts
    else
      var k := |texts| - cap + 1;
      [QueueSummary.Folded(texts[..k])] + texts[k..]
  }

  /** One more message pushes the two oldest texts together when there is no room. */
  lemma CondensedNext(texts: seq<string>, text: string, cap: nat)
    requires cap >= 1
    ensures var shown := Condensed(texts, cap) + [text];
            && |shown| <= cap + 1
            && Condensed(texts + [text], cap) ==
               if |shown| <= cap then shown else [QueueSummary.Merge(shown[0], shown[1])] + shown[2..]
  {
    hide QueueSummary.Merge, QueueSummary.Folded;
    var all := texts + [text];
    if |texts| == cap {
      assert all[..2] == [all[0], all[1]];
      TwoFolded(all[0], all[1]);
    } else if |texts| > cap {
      var k := |texts| - cap + 1;
      var head, tail := QueueSummary.Folded(texts[..k]), texts[k..] + [text];
      assert Condensed(texts, cap) + [text] == [head] + tail;
      assert texts[..k] == all[..k] && tail == all[k..];
      FoldedNext(all, k);
      assert ([head] + tail)[2..] == tail[1..] == all[k + 1..];
    }
  }

  lemma FoldedNext(texts: seq<string>, k: nat)
    requires 0 < k < |texts|
    ensures QueueSummary.Folded(texts[..k + 1]) == QueueSummary.Merge(QueueSummary.Folded(texts[..k]), texts[k])
  {
    hide QueueSummary.Merge;
    assert texts[..k + 1][..k] == texts[..k];
  }

  /** The lane's side of it: enqueueing under the cap. */
  lemma LaneCondenses(pending: seq<Command>, cmd: Command, texts: seq<string>, cap: nat)
    requires cap >= 1 && Messages(pending) == Condensed(texts, cap)
    ensures Messages(Overflow(pending + [cmd], cap, Summarize).0) == Condensed(texts + [cmd.message], cap)
  {
    hide QueueSummary.Merge, QueueSummary.Folded, Overflow, Condensed;
    var all := pending + [cmd];
    CondensedNext(texts, cmd.message, cap);
    assert Messages(all) == Messages(pending) + [cmd.message];
    if |all| > cap {
      SummarizeKeeps(all, cap);
      assert Messages(all[..2]) == [all[0].message, all[1].message];
      TwoFolded(all[0].message, all[1].message);
      assert Messages(all[2..]) == Messages(all)[2..];
    } else {
      RoomLeft(all, cap);
    }
  }

  lemma RoomLeft(pending: seq<Command>, cap: nat)
    ensures |pending| <= cap ==> Overflow(pending, cap, Summarize) == (pending, [])
  {
  }

  // ---------------------------------------------------------------- runs

  /** Events that only add to what waits for the session: no dispatch, cancellation, interrupt or abort of
      it, no message that steers past the cap, and no other settings. Other sessions may do anything. */
  ghost predicate Quiet(q: QueueState, e: Event, session: string, cap: nat) {
    match e
    case Submit(_, s, _, _, _, _, _) =>
      s == session ==>
        var lane, cmd := LaneOf(q, s), CommandOf(q, e);
        !(cmd.mode == Interrupt && lane.active.Some?) && !SkipsCap(lane, cmd)
    case Cancel(id) => id !in Ids(PendingOf(q, session))
    case Abort(s) => s != session
    case Configure(s, _, _, _, _) => s != session
    case SetConfig(config) => config.cap == cap && config.drop == Summarize
    case Pass(order, now) => BatchesOf(Passed(q, order, now).1, session) == []
    case Complete(_) => true
  }

  /** The session's lane, now and should it be made anew, summarizes at this cap. */
  ghost predicate Summarizing(q: QueueState, session: string, cap: nat) {
    var lane := LaneOf(q, session);
    (q.config.cap, q.config.drop, lane.cap, lane.drop) == (cap, Summarize, cap, Summarize)
  }

  lemma SubmitCondenses(q: QueueState, e: Event, session: string, cap: nat, texts: seq<string>)
    requires cap >= 1 && e.Submit? && Quiet(q, e, session, cap) && Summarizing(q, session, cap)
    requires Messages(PendingOf(q, session)) == Condensed(texts, cap)
    ensures Summarizing(Next(q, e), session, cap)
    ensures Messages(PendingOf(Next(q, e), session)) ==
            Condensed(if e.session == session then texts + [e.message] else texts, cap)
  {
    hide QueueSummary.Merge, QueueSummary.Folded, Overflow, Condensed;
    if e.session == session {
      LaneCondenses(PendingOf(q, session), CommandOf(q, e), texts, cap);
    }
  }

  /** A pass that gives the session nothing leaves its lane alone. */
  lemma {:induction false} WalkQuiet(q: QueueState, used: set<string>, order: seq<string>, now: int, session: string)
    requires Inv(q, used) && BatchesOf(Walk(q, order, now).1, session) == []
    ensures var q' := Walk(q, order, now).0;
            && q'.config == q.config && (session in q'.lanes <==> session in q.lanes)
            && (session in q.lanes ==> q'.lanes[session] == q.lanes[session])
    decreases |order|
  {
    hide DispatchOf, AfterDispatch, ElapsedMs, DistinctIds, ActiveOk, Inv;
    if order == [] {
    } else {
      var s := order[0];
      if s in q.lanes && q.lanes[s].active.None? && q.activeCount < q.config.maxConcurrent && Ready(q.lanes[s], now) {
        var q', d := DispatchLane(q, s), DispatchOf(q.lanes[s]);
        InvDispatch(q, used, s);
        DispatchedBySession(q, used, s);
        WalkQuiet(q', used, order[1..], now, session);
      } else if !(s in q.lanes && q.lanes[s].active.None? && q.activeCount >= q.config.maxConcurrent) {
        WalkQuiet(q, used, order[1..], now, session);
      }
    }
  }

  lemma DispatchedBySession(q: QueueState, used: set<string>, s: string)
    requires Inv(q, used) && s in q.lanes && q.lanes[s].pending != []
    ensures DispatchOf(q.lanes[s]).command.session == s
    ensures BatchOf(DispatchOf(q.lanes[s]), s) != []
  {
    hide SteeringText, DistinctIds, ActiveOk;
    assert LaneOk(q.lanes[s], s, q.index);
    assert q.lanes[s].pending[0] in q.lanes[s].pending;
  }

  /** No other event touches the lane. */
  lemma OthersQuiet(q: QueueState, used: set<string>, e: Event, session: string, cap: nat)
    requires Inv(q, used) && !e.Submit? && Quiet(q, e, session, cap) && Summarizing(q, session, cap)
    ensures Summarizing(Next(q, e), session, cap) && PendingOf(Next(q, e), session) == PendingOf(q, session)
  {
    hide Submitted, LastN, Ids, RemoveFirst, Walk, BatchesOf, Inv;
    if e.Cancel? {
      RemoveFirstAbsent(PendingOf(q, session), e.id);
    } else if e.Pass? {
      WalkQuiet(q, used, e.order, e.now, session);
    }
  }

  /** After any number of submissions and overflows the lane shows the condensed form of all of them. */
  lemma {:induction false} SummaryOverRuns(config: Config, run: seq<Event>, session: string, cap: nat)
    requires Legal(config, run) && config.cap == cap >= 1 && config.drop == Summarize
    requires forall k :: 0 <= k < |run| ==> Quiet(After(config, run[..k]), run[k], session, cap)
    ensures Summarizing(After(config, run), session, cap)
    ensures Messages(PendingOf(After(config, run), session)) == Condensed(Said(run, session), cap)
  {
    hide Next, Quiet, Summarizing, PendingOf, Messages, Condensed, Inv, Possible;
    if run == [] {
      NothingSaid(config, session, cap);
    } else {
      var n := |run| - 1;
      var before, e := run[..n], run[n];
      assert forall k :: 0 <= k < n ==> before[..k] == run[..k];
      SummaryOverRuns(config, before, session, cap);
      RunsKeepInv(config, before);
      var q, texts := After(config, before), Said(before, session);
      assert texts + [] == texts;
      if e.Submit? {
        SubmitCondenses(q, e, session, cap, texts);
      } else {
        OthersQuiet(q, Used(before), e, session, cap);
      }
    }
  }

  lemma NothingSaid(config: Config, session: string, cap: nat)
    requires config.cap == cap >= 1 && config.drop == Summarize
    ensures Summarizing(Start(config), session, cap)
    ensures Messages(PendingOf(Start(config), session)) == [] == Condensed([], cap)
  {
  }

  /** So after n submissions to a lane of cap c < n its head reads: a header with the count n - c + 1, and a
      snippet of each of the oldest n - c + 1 messages; behind it wait the last c - 1 as they were sent. */
  lemma SummaryReads(config: Config, run: seq<Event>, session: string, cap: nat)
    requires Legal(config, run) && config.cap == cap >= 1 && config.drop == Summarize
    requires forall k :: 0 <= k < |run| ==> Quiet(After(config, run[..k]), run[k], session, cap)
    requires var n := |Said(run, session)|; cap < n && n - cap + 1 <= QueueSummary.INT_MAX
    requires !OccursAt(Said(run, session)[0], QueueSummary.PREFIX, 0)
    ensures var texts := Said(run, session); var k := |texts| - cap + 1;
            Messages(PendingOf(After(config, run), session)) ==
            [QueueSummary.Header(k) + QueueSummary.Snippets(texts[..k])] + texts[k..]
  {
    hide Quiet, After, Legal, Messages, PendingOf, OccursAt;
    hide QueueSummary.Folded, QueueSummary.Header, QueueSummary.Snippets;
    SummaryOverRuns(config, run, session, cap);
    var texts := Said(run, session);
    QueueSummary.FoldedIsSummary(texts[..|texts| - cap + 1]);
  }
}
