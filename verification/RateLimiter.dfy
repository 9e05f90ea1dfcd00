/** The sliding-window limiter of `src/security/rate_limiter.cpp`. */
module RateLimiting {
  // Clock readings are integer ticks, `TICKS` to the second. Every call purges the deque it looks at, so a run mixes
  // all four operations; the theorems are about the times at which `Allow` answered true over such a run.

  const TICKS: nat := 1_000_000_000

  datatype Config = Config(maxRequests: int, windowSeconds: int, burstMax: int) {
    function Window(): int {
      windowSeconds * TICKS
    }
  }

  type Windows = map<string, seq<int>>

  function Deque(w: Windows, key: string): seq<int> {
    if key in w then w[key] else []
  }

  // ---------------------------------------------------------------- one deque

  /** What purge_old leaves: leading entries older than the cutoff are gone. */
  function Purge(ts: seq<int>, cutoff: int): (kept: seq<int>)
    ensures |kept| <= |ts|
  {
    if ts != [] && ts[0] < cutoff then Purge(ts[1..], cutoff) else ts
  }

  /** How many entries at the back are not older than the cutoff. */
  function Trailing(ts: seq<int>, cutoff: int): (n: nat)
    ensures n <= |ts|
  {
    if ts != [] && ts[|ts| - 1] >= cutoff then 1 + Trailing(ts[..|ts| - 1], cutoff) else 0
  }

  ghost predicate Sorted(ts: seq<int>) {
    forall i, j :: 0 <= i <= j < |ts| ==> ts[i] <= ts[j]
  }

  lemma SortedSnoc(ts: seq<int>, t: int)
    requires Sorted(ts) && forall x :: x in ts ==> x <= t
    ensures Sorted(ts + [t])
  {
    forall i | 0 <= i < |ts| ensures ts[i] <= t {
      assert ts[i] in ts;
    }
  }

  /** How many entries lie in the closed interval. */
  function Count(ts: seq<int>, lo: int, hi: int): nat {
    if ts == [] then 0
    else Count(ts[..|ts| - 1], lo, hi) + if lo <= ts[|ts| - 1] <= hi then 1 else 0
  }

  predicate WindowOpen(c: Config, ts: seq<int>, now: int) {
    |Purge(ts, now - c.Window())| < c.maxRequests
  }

  predicate Admits(c: Config, ts: seq<int>, now: int) {
    && WindowOpen(c, ts, now)
    && (c.burstMax > 0 ==> Trailing(Purge(ts, now - c.Window()), now - TICKS) < c.burstMax)
  }

  function RetryAfterOf(c: Config, ts: seq<int>, now: int): int {
    var kept := Purge(ts, now - c.Window());
    if ts == [] || |kept| < c.maxRequests || kept == [] then 0
    else if kept[0] + c.Window() <= now then 0
    else (kept[0] + c.Window() - now) / TICKS + 1
  }

  /** On a sorted deque purging is filtering: what stays is exactly what is not older. */
  lemma {:induction false} PurgeFilters(ts: seq<int>, cutoff: int)
    requires Sorted(ts)
    ensures Purge(ts, cutoff) == ts[|ts| - |Purge(ts, cutoff)|..]
    ensures forall i :: 0 <= i < |ts| ==> (ts[i] >= cutoff <==> i >= |ts| - |Purge(ts, cutoff)|)
    ensures Sorted(Purge(ts, cutoff))
  {
    if ts == [] || ts[0] >= cutoff {
    } else {
      PurgeFilters(ts[1..], cutoff);
      assert forall i :: 0 < i < |ts| ==> ts[i] == ts[1..][i - 1];
    }
  }

  lemma {:induction false} PurgeAgain(ts: seq<int>, early: int, late: int)
    requires early <= late
    ensures Purge(Purge(ts, early), late) == Purge(ts, late)
    ensures |Purge(ts, late)| <= |Purge(ts, early)|
  {
    if ts == [] || ts[0] >= early {
    } else {
      PurgeAgain(ts[1..], early, late);
    }
  }

  lemma {:induction false} PurgeSnoc(ts: seq<int>, t: int, cutoff: int)
    ensures Purge(ts + [t], cutoff) ==
            if Purge(ts, cutoff) == [] then (if t < cutoff then [] else [t]) else Purge(ts, cutoff) + [t]
  {
    if ts == [] {
      assert ts + [t] == [t];
    } else {
      assert (ts + [t])[0] == ts[0] && (ts + [t])[1..] == ts[1..] + [t];
      if ts[0] < cutoff {
        PurgeSnoc(ts[1..], t, cutoff);
      }
    }
  }

  lemma {:induction false} TrailingIsPurge(ts: seq<int>, cutoff: int)
    requires Sorted(ts)
    ensures Trailing(ts, cutoff) == |Purge(ts, cutoff)|
  {
    if ts == [] {
    } else {
      var n := |ts| - 1;
      assert ts == ts[..n] + [ts[n]];
      PurgeSnoc(ts[..n], ts[n], cutoff);
      TrailingIsPurge(ts[..n], cutoff);
      PurgeFilters(ts, cutoff);
    }
  }

  lemma {:induction false} CountWithinPurge(ts: seq<int>, lo: int, hi: int)
    ensures Count(ts, lo, hi) <= |Purge(ts, lo)|
  {
    if ts == [] {
    } else {
      var n := |ts| - 1;
      assert ts == ts[..n] + [ts[n]];
      PurgeSnoc(ts[..n], ts[n], lo);
      CountWithinPurge(ts[..n], lo, hi);
    }
  }

  // ---------------------------------------------------------------- the class

  class RateLimiter {
    var config: Config
    var windows: Windows

    constructor (config: Config)
      ensures this.config == config && windows == map[]
    {
      this.config := config;
      windows := map[];
    }

    method PurgeOld(timestamps: seq<int>, now: int) returns (kept: seq<int>)
      ensures kept == Purge(timestamps, now - config.Window())
    {
      kept := timestamps;
      var cutoff := now - config.Window();
      while kept != [] && kept[0] < cutoff
        invariant Purge(kept, cutoff) == Purge(timestamps, cutoff)
        decreases |kept|
      {
        kept := kept[1..];
      }
    }

    method Allow(key: string, now: int) returns (allowed: bool)
      modifies this`windows
      ensures allowed == Admits(config, Deque(old(windows), key), now)
      ensures windows == Step(config, old(windows), AllowCall(key, now))
    {
      var timestamps := PurgeOld(if key in windows then windows[key] else [], now);
      windows := windows[key := timestamps];
      if |timestamps| >= config.maxRequests {
        return false;
      }
      if config.burstMax > 0 {
        var oneSecAgo := now - TICKS;
        var burstCount, i := 0, |timestamps|;
        assert timestamps[..i] == timestamps;
        while i > 0 && timestamps[i - 1] >= oneSecAgo
          invariant 0 <= i <= |timestamps|
          invariant burstCount + Trailing(timestamps[..i], oneSecAgo) == Trailing(timestamps, oneSecAgo)
        {
          assert timestamps[..i][..i - 1] == timestamps[..i - 1];
          burstCount := burstCount + 1;
          i := i - 1;
        }
        if burstCount >= config.burstMax {
          return false;
        }
      }
      windows := windows[key := timestamps + [now]];
      return true;
    }

    method Remaining(key: string, now: int) returns (left: int)
      modifies this`windows
      ensures left == RemainingOf(config, old(windows), key, now)
      ensures windows == Step(config, old(windows), RemainingCall(key, now))
    {
      if key !in windows {
        return config.maxRequests;
      }
      var timestamps := PurgeOld(windows[key], now);
      windows := windows[key := timestamps];
      return Max(0, config.maxRequests - |timestamps|);
    }

    /** The source reads the front of the purged deque. The requires says no more than that there is one
        when it comes to that; under a positive limit there always is. */
    method RetryAfter(key: string, now: int) returns (seconds: int)
      requires config.maxRequests > 0 || Deque(windows, key) == [] ||
               Purge(Deque(windows, key), now - config.Window()) != []
      modifies this`windows
      ensures seconds == RetryAfterOf(config, Deque(old(windows), key), now)
      ensures windows == Step(config, old(windows), RetryAfterCall(key, now))
    {
      if key !in windows || windows[key] == [] {
        return 0;
      }
      var timestamps := PurgeOld(windows[key], now);
      windows := windows[key := timestamps];
      if |timestamps| < config.maxRequests {
        return 0;
      }
      var expiresAt := timestamps[0] + config.Window();
      if expiresAt <= now {
        return 0;
      }
      return (expiresAt - now) / TICKS + 1;
    }

    method Prune(now: int)
      modifies this`windows
      ensures windows == Step(config, old(windows), PruneCall(now))
    {
      hide Purge, Config.Window;
      var left := windows.Keys;
      var cutoff := now - config.Window();
      while left != {}
        invariant left <= old(windows).Keys
        invariant windows.Keys <= old(windows).Keys
        invariant forall k :: k in left ==> k in windows && windows[k] == old(windows)[k]
        invariant forall k :: k in old(windows) && k !in left ==>
                    (k in windows <==> Purge(old(windows)[k], cutoff) != [])
        invariant forall k :: k in windows && k !in left ==> windows[k] == Purge(old(windows)[k], cutoff)
        decreases |left|
      {
        var key :| key in left;
        left := left - {key};
        var timestamps := PurgeOld(windows[key], now);
        if timestamps == [] {
          windows := windows - {key};
        } else {
          windows := windows[key := timestamps];
        }
      }
    }

    method ResetAll()
      modifies this`windows
      ensures windows == map[]
    {
      windows := map[];
    }

    method Reset(key: string)
      modifies this`windows
      ensures windows == old(windows) - {key}
    {
      windows := windows - {key};
    }

    method Configure(config: Config)
      modifies this`config
      ensures this.config == config
    {
      this.config := config;
    }
  }

  function Max(a: int, b: int): int {
    if a >= b then a else b
  }

  function RemainingOf(c: Config, w: Windows, key: string, now: int): int {
    if key !in w then c.maxRequests else Max(0, c.maxRequests - |Purge(w[key], now - c.Window())|)
  }

  // ---------------------------------------------------------------- runs

  datatype Call =
    | AllowCall(key: string, now: int)
    | RemainingCall(key: string, now: int)
    | RetryAfterCall(key: string, now: int)
    | PruneCall(now: int)

  function Step(c: Config, w: Windows, call: Call): Windows {
    var cutoff := call.now - c.Window();
    match call
    case AllowCall(key, now) =>
      var kept := Purge(Deque(w, key), cutoff);
      w[key := if Admits(c, Deque(w, key), now) then kept + [now] else kept]
    case RemainingCall(key, now) => if key in w then w[key := Purge(w[key], cutoff)] else w
    case RetryAfterCall(key, now) => if Deque(w, key) != [] then w[key := Purge(w[key], cutoff)] else w
    case PruneCall(now) => map k | k in w && Purge(w[k], cutoff) != [] :: Purge(w[k], cutoff)
  }

  /** The limiter after a run of calls from a fresh start. */
  function After(c: Config, run: seq<Call>): Windows {
    if run == [] then map[] else Step(c, After(c, run[..|run| - 1]), run[|run| - 1])
  }

  /** The times at which Allow answered true for the key, in order. */
  function Accepted(c: Config, run: seq<Call>, key: string): seq<int> {
    if run == [] then []
    else
      var before, call := run[..|run| - 1], run[|run| - 1];
      Accepted(c, before, key) + AcceptedBy(c, After(c, before), call, key)
  }

  function AcceptedBy(c: Config, w: Windows, call: Call, key: string): seq<int> {
    if call.AllowCall? && call.key == key && Admits(c, Deque(w, key), call.now) then [call.now] else []
  }

  /** The clock never goes back. */
  ghost predicate Clocked(run: seq<Call>) {
    forall i, j :: 0 <= i <= j < |run| ==> run[i].now <= run[j].now
  }

  /** A deque holds what a list of accepted times holds, for every clock reading from `from` on. */
  ghost predicate Tracks(c: Config, deque: seq<int>, accepted: seq<int>, from: int) {
    forall cutoff :: from - c.Window() <= cutoff ==> Purge(deque, cutoff) == Purge(accepted, cutoff)
  }

  lemma TracksStep(c: Config, w: Windows, call: Call, key: string, accepted: seq<int>, from: int)
    requires from <= call.now
    requires Tracks(c, Deque(w, key), accepted, from)
    ensures Tracks(c, Deque(Step(c, w, call), key), accepted + AcceptedBy(c, w, call, key), call.now)
  {
    var d, cutoff := Deque(w, key), call.now - c.Window();
    var d' := Deque(Step(c, w, call), key);
    var more := AcceptedBy(c, w, call, key);
    forall late | cutoff <= late
      ensures Purge(d', late) == Purge(accepted + more, late)
    {
      PurgeAgain(d, cutoff, late);
      if more == [] {
        assert accepted + more == accepted;
        assert d' == d || d' == Purge(d, cutoff);
      } else {
        PurgeSnoc(accepted, call.now, late);
        PurgeSnoc(Purge(d, cutoff), call.now, late);
      }
    }
  }

  /** In every run each deque, once purged at any later reading, is exactly the accepted times that
      are still in the window, in order. */
  lemma {:induction false} DequesTrackAccepted(c: Config, run: seq<Call>, key: string, now: int)
    requires Clocked(run)
    requires run != [] ==> run[|run| - 1].now <= now
    ensures Sorted(Accepted(c, run, key))
    ensures forall t :: t in Accepted(c, run, key) ==> t <= now
    ensures Tracks(c, Deque(After(c, run), key), Accepted(c, run, key), now)
  {
    if run == [] {
    } else {
      var before, call := run[..|run| - 1], run[|run| - 1];
      DequesTrackAccepted(c, before, key, call.now);
      var accepted, w := Accepted(c, before, key), After(c, before);
      TracksStep(c, w, call, key, accepted, call.now);
      SortedSnoc(accepted, call.now);
      assert accepted + [] == accepted;
    }
  }

  /** What one call may do to a deque. */
  lemma StepDeque(c: Config, w: Windows, call: Call, key: string)
    ensures var d, d' := Deque(w, key), Deque(Step(c, w, call), key);
            var kept := Purge(d, call.now - c.Window());
            d' == d || d' == kept || (d' == kept + [call.now] && |kept| < c.maxRequests)
  {
  }

  lemma StepBounded(c: Config, w: Windows, call: Call, key: string)
    requires Sorted(Deque(w, key)) && |Deque(w, key)| <= Max(0, c.maxRequests)
    requires forall t :: t in Deque(w, key) ==> t <= call.now
    ensures Sorted(Deque(Step(c, w, call), key)) && |Deque(Step(c, w, call), key)| <= Max(0, c.maxRequests)
    ensures forall t :: t in Deque(Step(c, w, call), key) ==> t <= call.now
  {
    StepDeque(c, w, call, key);
    hide Purge, Step, Admits, Deque;
    var d := Deque(w, key);
    var kept := Purge(d, call.now - c.Window());
    PurgeFilters(d, call.now - c.Window());
    assert forall t :: t in kept ==> t in d;
    SortedSnoc(kept, call.now);
  }

  /** Every deque of a run is sorted, holds no later time than the last call, and is no longer than
      the limit. */
  lemma {:induction false} RunsStayBounded(c: Config, run: seq<Call>, key: string, now: int)
    requires Clocked(run)
    requires run != [] ==> run[|run| - 1].now <= now
    ensures Sorted(Deque(After(c, run), key))
    ensures forall t :: t in Deque(After(c, run), key) ==> t <= now
    ensures |Deque(After(c, run), key)| <= Max(0, c.maxRequests)
  {
    hide Step;
    if run == [] {
    } else {
      RunsStayBounded(c, run[..|run| - 1], key, run[|run| - 1].now);
      StepBounded(c, After(c, run[..|run| - 1]), run[|run| - 1], key);
    }
  }

  /** If nothing is accepted while `limit` acceptances are younger than `length`, no closed interval of
      that length holds more than `limit`. */
  lemma IntervalStep(accepted: seq<int>, t: int, length: int, limit: nat, lo: int)
    requires Count(accepted, lo, lo + length) <= limit
    requires |Purge(accepted, t - length)| < limit
    ensures Count(accepted + [t], lo, lo + length) <= limit
  {
    assert (accepted + [t])[..|accepted + [t]| - 1] == accepted;
    if lo <= t <= lo + length {
      CountWithinPurge(accepted, lo, lo + length);
      PurgeAgain(accepted, t - length, lo);
    }
  }

  lemma WindowStep(c: Config, w: Windows, call: Call, key: string, accepted: seq<int>, lo: int, hi: int)
    requires Tracks(c, Deque(w, key), accepted, call.now)
    requires hi == lo + c.Window() && Count(accepted, lo, hi) <= Max(0, c.maxRequests)
    ensures Count(accepted + AcceptedBy(c, w, call, key), lo, hi) <= Max(0, c.maxRequests)
  {
    if AcceptedBy(c, w, call, key) == [] {
      assert accepted + [] == accepted;
    } else {
      IntervalStep(accepted, call.now, hi - lo, c.maxRequests, lo);
    }
  }

  /** Every closed interval of one window holds at most max_requests acceptances. */
  lemma {:induction false} WindowBound(c: Config, run: seq<Call>, key: string, lo: int, hi: int)
    requires Clocked(run) && hi == lo + c.Window()
    ensures Count(Accepted(c, run, key), lo, hi) <= Max(0, c.maxRequests)
  {
    if run == [] {
    } else {
      var before, call := run[..|run| - 1], run[|run| - 1];
      WindowBound(c, before, key, lo, hi);
      DequesTrackAccepted(c, before, key, call.now);
      WindowStep(c, After(c, before), call, key, Accepted(c, before, key), lo, hi);
    }
  }

  /** What the burst check of Allow sees: the acceptances of the last second. */
  lemma BurstCheckSees(c: Config, d: seq<int>, accepted: seq<int>, now: int)
    requires Sorted(d) && Tracks(c, d, accepted, now)
    requires c.windowSeconds >= 1
    ensures Trailing(Purge(d, now - c.Window()), now - TICKS) == |Purge(accepted, now - TICKS)|
  {
    PurgeFilters(d, now - c.Window());
    TrailingIsPurge(Purge(d, now - c.Window()), now - TICKS);
    PurgeAgain(d, now - c.Window(), now - TICKS);
  }

  lemma BurstStep(c: Config, w: Windows, call: Call, key: string, accepted: seq<int>, lo: int)
    requires Sorted(Deque(w, key)) && Tracks(c, Deque(w, key), accepted, call.now)
    requires c.burstMax > 0 && c.windowSeconds >= 1
    requires Count(accepted, lo, lo + TICKS) <= c.burstMax
    ensures Count(accepted + AcceptedBy(c, w, call, key), lo, lo + TICKS) <= c.burstMax
  {
    hide Tracks, Purge, Count, Trailing, Sorted, Deque, Step, Config.Window;
    if AcceptedBy(c, w, call, key) == [] {
      assert accepted + [] == accepted;
    } else {
      BurstCheckSees(c, Deque(w, key), accepted, call.now);
      IntervalStep(accepted, call.now, TICKS, c.burstMax, lo);
    }
  }

  /** With a burst limit and a window of a second or more, every closed second holds at most
      burst_max acceptances. */
  lemma {:induction false} BurstBound(c: Config, run: seq<Call>, key: string, lo: int)
    requires Clocked(run)
    requires c.burstMax > 0 && c.windowSeconds >= 1
    ensures Count(Accepted(c, run, key), lo, lo + TICKS) <= c.burstMax
  {
    if run == [] {
    } else {
      var before, call := run[..|run| - 1], run[|run| - 1];
      BurstBound(c, before, key, lo);
      DequesTrackAccepted(c, before, key, call.now);
      RunsStayBounded(c, before, key, call.now);
      BurstStep(c, After(c, before), call, key, Accepted(c, before, key), lo);
    }
  }

  // ------------------------------------------------ the answers, told from what was accepted

  lemma {:induction false} PurgeCounts(ts: seq<int>, lo: int, hi: int)
    requires Sorted(ts) && forall t :: t in ts ==> t <= hi
    ensures |Purge(ts, lo)| == Count(ts, lo, hi)
  {
    if ts == [] {
    } else {
      var n := |ts| - 1;
      assert ts == ts[..n] + [ts[n]] && ts[n] in ts;
      PurgeSnoc(ts[..n], ts[n], lo);
      PurgeFilters(ts, lo);
      PurgeCounts(ts[..n], lo, hi);
    }
  }

  /** The burst check counts what is younger than a second, as far as the window keeps it. */
  lemma TrailingCounts(ts: seq<int>, early: int, late: int)
    requires Sorted(ts)
    ensures Trailing(Purge(ts, early), late) == |Purge(ts, Max(early, late))|
  {
    PurgeFilters(ts, early);
    TrailingIsPurge(Purge(ts, early), late);
    if early <= late {
      PurgeAgain(ts, early, late);
    } else {
      PurgeFilters(Purge(ts, early), late);
    }
  }

  /** In every run, what Allow, Remaining and Prune answer is fixed by the times accepted before: a call is admitted
      exactly when fewer than max_requests of them lie in its window, the borders included, and, under a burst limit,
      fewer than burst_max of these in its last second; Remaining answers how many are left; and Prune keeps
      exactly the keys that have one in the window. */
  lemma AnswersExact(c: Config, run: seq<Call>, key: string, now: int)
    requires Clocked(run) && (run != [] ==> run[|run| - 1].now <= now)
    ensures var accepted, w := Accepted(c, run, key), After(c, run);
            var opens := now - c.windowSeconds * 1_000_000_000;
            var live := Count(accepted, opens, now);
            && (Admits(c, Deque(w, key), now) <==>
                live < c.maxRequests &&
                (c.burstMax > 0 ==> Count(accepted, Max(opens, now - 1_000_000_000), now) < c.burstMax))
            && (c.maxRequests >= 0 ==> RemainingOf(c, w, key, now) == Max(0, c.maxRequests - live))
            && (key in Step(c, w, PruneCall(now)) <==> live > 0)
  {
    hide After, Accepted, Sorted, Trailing, Count;
    var accepted, d := Accepted(c, run, key), Deque(After(c, run), key);
    var opens := now - c.Window();
    DequesTrackAccepted(c, run, key, now);
    RunsStayBounded(c, run, key, now);
    PurgeCounts(accepted, opens, now);
    PurgeCounts(accepted, Max(opens, now - TICKS), now);
    TrailingCounts(d, opens, now - TICKS);
    assert Purge(d, opens) == Purge(accepted, opens);
    assert Purge(d, Max(opens, now - TICKS)) == Purge(accepted, Max(opens, now - TICKS));
  }

  // ------------------------------------------------ the burst limit and short windows

  lemma {:induction false} CountSplit(ts: seq<int>, lo: int, mid: int, hi: int)
    requires lo <= mid + 1 <= hi + 1
    ensures Count(ts, lo, hi) == Count(ts, lo, mid) + Count(ts, mid + 1, hi)
  {
    if ts == [] {
    } else {
      CountSplit(ts[..|ts| - 1], lo, mid, hi);
    }
  }

  lemma CountSnoc(ts: seq<int>, t: int)
    ensures forall lo, hi :: Count(ts + [t], lo, hi) == Count(ts, lo, hi) + if lo <= t <= hi then 1 else 0
  {
    assert (ts + [t])[..|ts|] == ts;
  }

  lemma {:induction false} CountByTick(ts: seq<int>, lo: int, n: nat, perTick: nat)
    requires forall t :: Count(ts, t, t) <= perTick
    ensures Count(ts, lo, lo + n) <= (n + 1) * perTick
  {
    hide Count;
    if n == 0 {
      assert Count(ts, lo, lo) <= perTick;
    } else {
      CountByTick(ts, lo, n - 1, perTick);
      CountSplit(ts, lo, lo + n - 1, lo + n);
      assert Count(ts, lo + n, lo + n) <= perTick;
      Products(n, n, perTick);
    }
  }

  lemma {:induction false} PurgeSame(ts: seq<int>, q: int, cutoff: int)
    requires forall i :: 0 <= i < |ts| ==> ts[i] == q
    ensures Purge(ts, cutoff) == if q < cutoff then [] else ts
  {
    if ts == [] {
    } else {
      if q < cutoff {
        PurgeSame(ts[1..], q, cutoff);
      }
    }
  }

  ghost predicate AllAt(ts: seq<int>, q: int) {
    forall i :: 0 <= i < |ts| ==> ts[i] == q
  }

  /** One more accepted call, at the tick of the deque or at a later one. */
  lemma AcceptNext(c: Config, before: seq<Call>, p: int, q: int, room: nat) returns (run: seq<Call>)
    requires c.maxRequests > 0 && c.burstMax > 0 && c.windowSeconds <= 0
    requires AllAt(Deque(After(c, before), "k"), p) && |Deque(After(c, before), "k")| <= room && p <= q
    requires p == q && c.windowSeconds == 0 ==> room < c.maxRequests && room < c.burstMax
    ensures run == before + [AllowCall("k", q)]
    ensures Accepted(c, run, "k") == Accepted(c, before, "k") + [q]
    ensures AllAt(Deque(After(c, run), "k"), q)
    ensures |Deque(After(c, run), "k")| <= if p == q then room + 1 else 1
  {
    hide Purge, Trailing, Step, Deque, AcceptedBy;
    run := before + [AllowCall("k", q)];
    assert run[..|run| - 1] == before;
    var d, cutoff := Deque(After(c, before), "k"), q - c.Window();
    PurgeSame(d, p, cutoff);
    NarrowWindow(c);
    assert Admits(c, d, q) by { hide After, Accepted; }
    AdmittedStep(c, After(c, before), "k", q);
  }

  lemma NarrowWindow(c: Config)
    requires c.windowSeconds <= 0
    ensures c.windowSeconds == 0 ==> c.Window() == 0
    ensures c.windowSeconds < 0 ==> c.Window() < 0
  {
  }

  lemma AdmittedStep(c: Config, w: Windows, key: string, now: int)
    requires Admits(c, Deque(w, key), now)
    ensures Deque(Step(c, w, AllowCall(key, now)), key) == Purge(Deque(w, key), now - c.Window()) + [now]
    ensures AcceptedBy(c, w, AllowCall(key, now), key) == [now]
  {
  }

  lemma Products(a: nat, b: nat, m: nat)
    ensures (a + 1) * m == a * m + m
    ensures a <= b ==> a * m <= b * m
  {
  }

  /** How many calls have been made when `used` of them fall on tick `q`. */
  function Filled(q: nat, perTick: nat, used: nat): nat {
    q * perTick + used
  }

  lemma FilledNext(p: nat, perTick: nat, used: nat)
    ensures Filled(0, perTick, 1) == 1
    ensures Filled(p, perTick, used + 1) == Filled(p, perTick, used) + 1
    ensures Filled(p + 1, perTick, 1) == Filled(p, perTick, perTick) + 1
  {
    Products(p, p, perTick);
  }

  /** A run of n accepted calls, `perTick` at every tick and `used` at the last one. */
  ghost predicate Fills(c: Config, run: seq<Call>, q: nat, used: nat, n: nat, perTick: nat) {
    && Clocked(run) && run != [] && run[|run| - 1].now == q
    && n == Filled(q, perTick, used) && 0 < used <= perTick
    && AllAt(Deque(After(c, run), "k"), q) && |Deque(After(c, run), "k")| <= used
    && forall hi :: hi >= q ==> Count(Accepted(c, run, "k"), 0, hi) == n
  }

  lemma FirstCall(c: Config, perTick: nat)
    requires c.maxRequests > 0 && c.burstMax > 0 && c.windowSeconds <= 0 && perTick > 0
    ensures Fills(c, [AllowCall("k", 0)], 0, 1, 1, perTick)
  {
    hide Filled;
    var run := AcceptNext(c, [], 0, 0, 0);
    CountSnoc([], 0);
    FilledNext(0, perTick, 0);
  }

  /** Under a window of zero or less, `perTick` calls at every tick are all accepted. */
  lemma {:induction false} FillTicks(c: Config, n: nat, perTick: nat)
    requires n > 0 && perTick > 0 && c.maxRequests > 0 && c.burstMax > 0
    requires c.windowSeconds < 0 || (c.windowSeconds == 0 && perTick <= c.maxRequests && perTick <= c.burstMax)
    ensures exists run, q, used :: Fills(c, run, q, used, n, perTick)
  {
    hide Count, After, Accepted, Filled, Deque, AllAt, Step, Config.Window;
    if n == 1 {
      FirstCall(c, perTick);
    } else {
      FillTicks(c, n - 1, perTick);
      var before, p: nat, u: nat :| Fills(c, before, p, u, n - 1, perTick);
      var q, used := if u < perTick then p else p + 1, if u < perTick then u + 1 else 1;
      FilledNext(p, perTick, u);
      var run := AcceptNext(c, before, p, q, u);
      CountSnoc(Accepted(c, before, "k"), q);
      assert Fills(c, run, q, used, n, perTick);
    }
  }

  lemma {:induction false} NothingAccepted(c: Config, run: seq<Call>, key: string)
    requires c.maxRequests <= 0
    ensures Accepted(c, run, key) == []
  {
    if run == [] {
    } else {
      NothingAccepted(c, run[..|run| - 1], key);
    }
  }

  /** Every closed second of every run stays within the burst limit. */
  ghost predicate BurstsBounded(c: Config) {
    forall run, key, lo, hi :: Clocked(run) && hi == lo + TICKS ==> Count(Accepted(c, run, key), lo, hi) <= c.burstMax
  }

  /** Otherwise there is a run that breaks it. */
  lemma BurstBroken(c: Config)
    requires c.burstMax > 0 && c.maxRequests > 0 && c.windowSeconds <= 0
    requires c.windowSeconds == 0 ==> (TICKS + 1) * c.maxRequests > c.burstMax
    ensures !BurstsBounded(c)
  {
    var m := if c.windowSeconds < 0 then c.burstMax + 1
             else if c.maxRequests < c.burstMax then c.maxRequests else c.burstMax;
    FillTicks(c, c.burstMax + 1, m);
    var run, q: nat, used: nat :| Fills(c, run, q, used, c.burstMax + 1, m);
    Products(1, m, TICKS);
    assert c.burstMax + 1 <= (TICKS + 1) * m;
    if q > TICKS {
      Products(TICKS + 1, q, m);
      assert false;
    }
    assert Count(Accepted(c, run, "k"), 0, TICKS) == c.burstMax + 1;
  }

  lemma BurstKept(c: Config, run: seq<Call>, key: string, lo: int)
    requires c.burstMax > 0 && Clocked(run)
    requires || c.windowSeconds >= 1
             || c.maxRequests <= 0
             || (c.windowSeconds == 0 && (TICKS + 1) * c.maxRequests <= c.burstMax)
    ensures Count(Accepted(c, run, key), lo, lo + TICKS) <= c.burstMax
  {
    if c.windowSeconds >= 1 {
      BurstBound(c, run, key, lo);
    } else if c.maxRequests <= 0 {
      NothingAccepted(c, run, key);
    } else {
      forall t ensures Count(Accepted(c, run, key), t, t) <= c.maxRequests {
        WindowBound(c, run, key, t, t);
      }
      CountByTick(Accepted(c, run, key), lo, TICKS, c.maxRequests);
    }
  }

  /** The burst limit holds of every run exactly when the window is at least a second, or nothing is
      ever accepted, or the window limit alone keeps every tick small enough. */
  lemma BurstExact(c: Config)
    requires c.burstMax > 0
    ensures BurstsBounded(c) <==>
            || c.windowSeconds >= 1
            || c.maxRequests <= 0
            || (c.windowSeconds == 0 && (TICKS + 1) * c.maxRequests <= c.burstMax)
  {
    if c.windowSeconds >= 1 || c.maxRequests <= 0 ||
       (c.windowSeconds == 0 && (TICKS + 1) * c.maxRequests <= c.burstMax) {
      forall run, key, lo, hi | Clocked(run) && hi == lo + TICKS
        ensures Count(Accepted(c, run, key), lo, hi) <= c.burstMax
      {
        BurstKept(c, run, key, lo);
      }
    } else {
      BurstBroken(c);
    }
  }

  // ---------------------------------------------------------------- RetryAfter

  /** A positive answer is the least whole number of seconds after which the window has room. */
  lemma {:induction false} RetryAfterIsLeast(c: Config, ts: seq<int>, now: int, q: nat)
    requires Sorted(ts) && |ts| <= Max(0, c.maxRequests)
    requires RetryAfterOf(c, ts, now) > 0
    ensures WindowOpen(c, ts, now + q * TICKS) <==> q >= RetryAfterOf(c, ts, now)
  {
  }

  /** The same over runs: when RetryAfter answers r > 0 and nothing is accepted for the key meanwhile,
      whatever else is asked, Allow's window check passes q seconds later exactly when q >= r. */
  lemma RetryAfterInRuns(c: Config, run: seq<Call>, more: seq<Call>, key: string, now: int, q: nat)
    requires Clocked(run) && (run != [] ==> run[|run| - 1].now <= now)
    requires Clocked(run + more) && (more != [] ==> more[|more| - 1].now <= now + q * TICKS)
    requires Accepted(c, run + more, key) == Accepted(c, run, key)
    requires RetryAfterOf(c, Deque(After(c, run), key), now) > 0
    ensures WindowOpen(c, Deque(After(c, run + more), key), now + q * TICKS) <==>
            q >= RetryAfterOf(c, Deque(After(c, run), key), now)
  {
    hide After, Accepted, RetryAfterOf, Purge, Sorted, Deque;
    var later := now + q * TICKS;
    DequesTrackAccepted(c, run, key, later);
    DequesTrackAccepted(c, run + more, key, later);
    RunsStayBounded(c, run, key, now);
    RetryAfterIsLeast(c, Deque(After(c, run), key), now, q);
  }

  /** From the second second on nothing of the burst is left, so the whole of Allow follows the answer. */
  lemma {:induction false} RetryAfterAdmits(c: Config, ts: seq<int>, now: int, q: nat)
    requires Sorted(ts) && |ts| <= Max(0, c.maxRequests) && forall t :: t in ts ==> t <= now
    requires RetryAfterOf(c, ts, now) > 0 && q > 1
    ensures Admits(c, ts, now + q * TICKS) <==> q >= RetryAfterOf(c, ts, now)
  {
    hide Config.Window;
    RetryAfterIsLeast(c, ts, now, q);
    var later := now + q * TICKS;
    var kept := Purge(ts, later - c.Window());
    PurgeFilters(ts, later - c.Window());
    assert q * TICKS >= 2 * TICKS;
    assert kept != [] ==> kept[|kept| - 1] == ts[|ts| - 1] && ts[|ts| - 1] in ts;
  }

  /** A zero answer after a refusal: under a limit of nothing, at the very tick at which the oldest entry
      expires, or when it was the burst limit that refused. */
  lemma {:induction false} RetryAfterZero(c: Config, ts: seq<int>, now: int)
    requires |ts| <= Max(0, c.maxRequests)
    ensures RetryAfterOf(c, ts, now) == 0 && !WindowOpen(c, ts, now) <==>
            c.maxRequests <= 0 || (|ts| == c.maxRequests && ts[0] + c.Window() == now)
    ensures RetryAfterOf(c, ts, now) == 0 && !Admits(c, ts, now) <==>
            || c.maxRequests <= 0
            || (|ts| == c.maxRequests && ts[0] + c.Window() == now)
            || (WindowOpen(c, ts, now) && c.burstMax > 0
                && Trailing(Purge(ts, now - c.Window()), now - TICKS) >= c.burstMax)
  {
  }

  /** Both happen after a single accepted call: one request a second, asked again a second later; and a burst
      of one, asked again at once. */
  lemma ZeroHappens()
    ensures var c, d := Config(1, 1, 0), Deque(After(Config(1, 1, 0), [AllowCall("k", 0)]), "k");
            RetryAfterOf(c, d, TICKS) == 0 && !Admits(c, d, TICKS)
    ensures var c, d := Config(5, 10, 1), Deque(After(Config(5, 10, 1), [AllowCall("k", 0)]), "k");
            RetryAfterOf(c, d, 0) == 0 && !Admits(c, d, 0)
  {
    OneAccepted(Config(1, 1, 0));
    OneAccepted(Config(5, 10, 1));
    assert ([0])[..0] == [];
  }

  lemma OneAccepted(c: Config)
    requires c.maxRequests >= 1 && c.burstMax >= 0
    ensures Deque(After(c, [AllowCall("k", 0)]), "k") == [0]
  {
    var call := AllowCall("k", 0);
    assert [call][..0] == [];
    assert Step(c, map[], call)["k"] == [] + [0];
  }
}
