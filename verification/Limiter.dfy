/** The supervisor's restart limiter: at most three restarts in any 60 seconds. */
module Limiter {
  import opened Protocol

  const WINDOW: Time := 60_000_000_000
  const HEARTBEAT_TIMEOUT: Time := 15_000_000_000
  const LIMIT: nat := 3

  /** `retain(|t| now - t < 60s)`. */
  function Recent(times: seq<Time>, now: Time): seq<Time> {
    if times == [] then []
    else
      var last := times[|times| - 1];
      Recent(times[..|times| - 1], now) + if now - last < WINDOW then [last] else []
  }

  /** `window` is the monitor's memory, `restarts` everything it ever recorded, `done` that
      it has given up. */
  datatype Monitor = Monitor(window: seq<Time>, restarts: seq<Time>, done: bool)

  datatype Tick = Tick(now: Time, alive: bool)

  function MonitorStep(m: Monitor, t: Tick): Monitor {
    if m.done || t.alive then m
    else
      var window := Recent(m.window, t.now);
      if |window| >= LIMIT then m.(window := window, done := true)
      else Monitor(window + [t.now], m.restarts + [t.now], false)
  }

  function MonitorRun(ticks: seq<Tick>): Monitor {
    if ticks == [] then Monitor([], [], false)
    else MonitorStep(MonitorRun(ticks[..|ticks| - 1]), ticks[|ticks| - 1])
  }

  /** The times at which the monitor found the plugin stale. */
  function Stale(ticks: seq<Tick>): seq<Time> {
    if ticks == [] then []
    else
      var last := ticks[|ticks| - 1];
      Stale(ticks[..|ticks| - 1]) + if last.alive then [] else [last.now]
  }

  ghost predicate Ordered(times: seq<Time>) {
    forall i, j | 0 <= i < j < |times| :: times[i] <= times[j]
  }

  ghost predicate OrderedTicks(ticks: seq<Tick>) {
    forall i, j | 0 <= i < j < |ticks| :: ticks[i].now <= ticks[j].now
  }

  /** On ordered times the window is a suffix: it has at least `k` entries exactly when the
      k-th from the end is recent. */
  lemma {:induction false} RecentCounts(times: seq<Time>, now: Time, k: nat)
    requires Ordered(times) && k > 0
    ensures |Recent(times, now)| >= k <==> k <= |times| && now - times[|times| - k] < WINDOW
    decreases |times|
  {
    if times != [] {
      var before := times[..|times| - 1];
      if k > 1 {
        RecentCounts(before, now, k - 1);
      }
      if now - times[|times| - 1] >= WINDOW {
        assert forall i | 0 <= i < |before| :: before[i] == times[i] <= times[|times| - 1];
        RecentEmpty(before, now);
      }
    }
  }

  lemma {:induction false} RecentEmpty(times: seq<Time>, now: Time)
    requires forall i | 0 <= i < |times| :: now - times[i] >= WINDOW
    ensures Recent(times, now) == []
    decreases |times|
  {
    if times != [] {
      RecentEmpty(times[..|times| - 1], now);
    }
  }

  /** Cutting twice is cutting at the later time. */
  lemma {:induction false} RecentTwice(times: seq<Time>, a: Time, b: Time)
    requires a <= b
    ensures Recent(Recent(times, a), b) == Recent(times, b)
    decreases |times|
  {
    if times != [] {
      var before, last := times[..|times| - 1], times[|times| - 1];
      RecentTwice(before, a, b);
      var kept := Recent(before, a);
      if a - last < WINDOW {
        assert (kept + [last])[..|kept|] == kept;
      } else {
        assert kept + [] == kept;
      }
    }
  }

  lemma RecentSnoc(times: seq<Time>, t: Time, now: Time)
    ensures Recent(times + [t], now) == Recent(times, now) + if now - t < WINDOW then [t] else []
  {
    assert (times + [t])[..|times|] == times;
  }

  /** The monitor depends only on the stale ticks. */
  function StaleRun(times: seq<Time>): Monitor {
    if times == [] then Monitor([], [], false)
    else MonitorStep(StaleRun(times[..|times| - 1]), Tick(times[|times| - 1], false))
  }

  lemma {:induction false} OnlyStaleTicksMatter(ticks: seq<Tick>)
    ensures MonitorRun(ticks) == StaleRun(Stale(ticks))
    decreases |ticks|
  {
    if ticks != [] {
      var before, t := ticks[..|ticks| - 1], ticks[|ticks| - 1];
      OnlyStaleTicksMatter(before);
      if t.alive {
        assert Stale(ticks) == Stale(before);
      } else {
        assert (Stale(before) + [t.now])[..|Stale(before)|] == Stale(before);
        assert t == Tick(t.now, false);
      }
    }
  }

  predicate BurstAt(times: seq<Time>, i: nat) {
    i + LIMIT < |times| && times[i + LIMIT] - times[i] < WINDOW
  }

  /** Four consecutive times within less than 60 s. */
  ghost predicate Burst(times: seq<Time>) {
    exists i :: BurstAt(times, i)
  }

  lemma {:induction false} BurstSnoc(times: seq<Time>, t: Time)
    ensures Burst(times + [t]) <==> Burst(times) || (|times| >= LIMIT && t - times[|times| - LIMIT] < WINDOW)
  {
    var all := times + [t];
    if i: nat :| BurstAt(times, i) {
      assert BurstAt(all, i);
    }
    if i: nat :| BurstAt(all, i) {
      if i + LIMIT < |times| {
        assert BurstAt(times, i);
      }
    }
    if |times| >= LIMIT && t - times[|times| - LIMIT] < WINDOW {
      assert BurstAt(all, |times| - LIMIT);
    }
  }

  lemma OrderedSnoc(before: seq<Time>, t: Time)
    requires Ordered(before + [t])
    ensures Ordered(before) && (before != [] ==> before[|before| - 1] <= t)
  {
    var all := before + [t];
    assert forall i | 0 <= i < |before| :: all[i] == before[i];
    if before != [] {
      assert all[|before| - 1] <= all[|before|];
    }
  }

  /** What the monitor sees in its memory at the next stale tick. */
  lemma {:induction false} WindowAt(before: seq<Time>, t: Time)
    requires Ordered(before + [t])
    ensures before != [] ==> Recent(Recent(before, before[|before| - 1]), t) == Recent(before, t)
    ensures |Recent(before, t)| >= LIMIT <==> |before| >= LIMIT && t - before[|before| - LIMIT] < WINDOW
  {
    OrderedSnoc(before, t);
    if before != [] {
      RecentTwice(before, before[|before| - 1], t);
    }
    RecentCounts(before, t, LIMIT);
  }

  /** The monitor's whole state after the stale ticks `times`: it has recorded the first `k`
      of them, and if it gave up it did so at the next one. */
  ghost predicate Explained(m: Monitor, times: seq<Time>, k: nat) {
    && k <= |times| && m.restarts == times[..k] && !Burst(times[..k])
    && (if m.done then k < |times| && Burst(times[..k + 1]) && m.window == Recent(times[..k], times[k])
        else k == |times| && m.window == if k == 0 then [] else Recent(times, times[k - 1]))
  }

  lemma StillGivenUp(m: Monitor, before: seq<Time>, t: Time, k: nat)
    requires Explained(m, before, k) && m.done
    ensures Explained(m, before + [t], k)
  {
    var all := before + [t];
    assert all[..k] == before[..k] && all[..k + 1] == before[..k + 1] && all[k] == before[k];
  }

  lemma GivesUp(m: Monitor, before: seq<Time>, t: Time)
    requires Ordered(before + [t]) && Explained(m, before, |before|) && !m.done && Burst(before + [t])
    ensures Explained(MonitorStep(m, Tick(t, false)), before + [t], |before|)
  {
    var all := before + [t];
    assert all[..|before|] == before == before[..|before|] && all[..|all|] == all;
    BurstSnoc(before, t);
    WindowAt(before, t);
  }

  lemma Records(m: Monitor, before: seq<Time>, t: Time)
    requires Ordered(before + [t]) && Explained(m, before, |before|) && !m.done && !Burst(before + [t])
    ensures Explained(MonitorStep(m, Tick(t, false)), before + [t], |before| + 1)
  {
    var all := before + [t];
    assert before[..|before|] == before && all[..|all|] == all;
    BurstSnoc(before, t);
    WindowAt(before, t);
    RecentSnoc(before, t, t);
  }

  lemma {:induction false} StaleRunExplained(times: seq<Time>) returns (k: nat)
    requires Ordered(times)
    ensures Explained(StaleRun(times), times, k)
    decreases |times|
  {
    if times == [] {
      k := 0;
    } else {
      var before, t := times[..|times| - 1], times[|times| - 1];
      assert times == before + [t];
      k := StaleRunExplained(before);
      if StaleRun(before).done {
        StillGivenUp(StaleRun(before), before, t, k);
      } else if Burst(times) {
        GivesUp(StaleRun(before), before, t);
      } else {
        Records(StaleRun(before), before, t);
        k := |times|;
      }
    }
  }

  lemma BurstPrefix(times: seq<Time>, n: nat)
    requires n <= |times| && Burst(times[..n])
    ensures Burst(times)
  {
    var i: nat :| BurstAt(times[..n], i);
    assert BurstAt(times, i);
  }

  /** The limiter over whole runs. For every sequence of ticks in order of time, any recorded
      restart comes at least 60 s after the third one before it; the monitor's memory equals
      the full history cut to the 60 s before its last stale tick; it gives up exactly when
      some four consecutive stale ticks span less than 60 s; and until then it records every
      stale tick. */
  lemma LimiterHolds(ticks: seq<Tick>) returns (k: nat)
    requires OrderedTicks(ticks)
    ensures var m, stale := MonitorRun(ticks), Stale(ticks);
            && (forall i | 0 <= i < |m.restarts| - LIMIT :: m.restarts[i + LIMIT] - m.restarts[i] >= WINDOW)
            && (m.done <==> Burst(stale))
            && (!m.done ==> m.restarts == stale)
            && Explained(m, stale, k)
  {
    OnlyStaleTicksMatter(ticks);
    StaleOrdered(ticks);
    k := StaleRunExplained(Stale(ticks));
    ExplainedMeans(MonitorRun(ticks), Stale(ticks), k);
  }

  lemma ExplainedMeans(m: Monitor, stale: seq<Time>, k: nat)
    requires Explained(m, stale, k)
    ensures forall i | 0 <= i < |m.restarts| - LIMIT :: m.restarts[i + LIMIT] - m.restarts[i] >= WINDOW
    ensures m.done <==> Burst(stale)
    ensures !m.done ==> m.restarts == stale
  {
    forall i | 0 <= i < |m.restarts| - LIMIT ensures m.restarts[i + LIMIT] - m.restarts[i] >= WINDOW {
      assert !BurstAt(m.restarts, i);
    }
    if m.done {
      BurstPrefix(stale, k + 1);
    } else {
      assert stale[..k] == stale;
    }
  }

  lemma {:induction false} StaleOrdered(ticks: seq<Tick>)
    requires OrderedTicks(ticks)
    ensures Ordered(Stale(ticks))
    ensures forall t | t in Stale(ticks) :: ticks != [] && t <= ticks[|ticks| - 1].now
    decreases |ticks|
  {
    if ticks != [] {
      var before, last := ticks[..|ticks| - 1], ticks[|ticks| - 1];
      StaleOrdered(before);
      var seen := Stale(before);
      forall t | t in seen ensures t <= last.now {
        assert before[|before| - 1].now <= ticks[|ticks| - 1].now;
      }
      forall i | 0 <= i < |seen| ensures seen[i] <= last.now {
        assert seen[i] in seen;
      }
      assert Stale(ticks) == seen + if last.alive then [] else [last.now];
    }
  }

  /** Since nothing in the daemon records a heartbeat, `last` never moves. */
  function Silent(times: seq<Time>, last: Time): seq<Tick> {
    seq(|times|, i requires 0 <= i < |times| => Tick(times[i], times[i] - last < HEARTBEAT_TIMEOUT))
  }

  /** A plugin that stays silent is given up on at exactly the fourth stale tick, as long as
      any four consecutive ticks span under 60 s. */
  lemma SilentPluginGivenUp(times: seq<Time>, last: Time)
    requires Ordered(times)
    requires forall i | 0 <= i < |times| - LIMIT :: times[i + LIMIT] - times[i] < WINDOW
    ensures MonitorRun(Silent(times, last)).done <==> |Stale(Silent(times, last))| > LIMIT
  {
    var ticks := Silent(times, last);
    var _ := LimiterHolds(ticks);
    var n := SilentSuffix(times, last);
    var stale := Stale(ticks);
    if |stale| > LIMIT {
      assert times[n + LIMIT] - times[n] < WINDOW;
      assert BurstAt(stale, 0);
    }
  }

  /** Once stale, a silent plugin stays stale. */
  lemma {:induction false} SilentSuffix(times: seq<Time>, last: Time) returns (n: nat)
    requires Ordered(times)
    ensures n <= |times| && Stale(Silent(times, last)) == times[n..]
    ensures n < |times| ==> times[n] - last >= HEARTBEAT_TIMEOUT
    decreases |times|
  {
    if times == [] {
      n := 0;
    } else {
      var before := times[..|times| - 1];
      n := SilentSuffix(before, last);
      assert Silent(times, last)[..|times| - 1] == Silent(before, last);
      if times[|times| - 1] - last < HEARTBEAT_TIMEOUT {
        assert n == |before|;
        n := |times|;
      } else {
        assert times[n..] == before[n..] + [times[|times| - 1]];
      }
    }
  }

  /** The monitor task's loop body. */
  class MonitorTask {
    var restartsInWindow: seq<Time>
    var gaveUp: bool
    ghost var restarts: seq<Time>

    ghost function View(): Monitor
      reads this
    {
      Monitor(restartsInWindow, restarts, gaveUp)
    }

    constructor ()
      ensures View() == MonitorRun([])
    {
      restartsInWindow, gaveUp, restarts := [], false, [];
    }

    method OnTick(now: Time, alive: bool)
      modifies this
      ensures View() == MonitorStep(old(View()), Tick(now, alive))
    {
      if gaveUp || alive { return; }
      var kept: seq<Time> := [];
      for i := 0 to |restartsInWindow|
        invariant View() == old(View()) && kept == Recent(restartsInWindow[..i], now)
      {
        assert restartsInWindow[..i + 1][..i] == restartsInWindow[..i];
        if now - restartsInWindow[i] < WINDOW { kept := kept + [restartsInWindow[i]]; }
      }
      assert restartsInWindow[..|restartsInWindow|] == restartsInWindow;
      restartsInWindow := kept;
      if |restartsInWindow| >= LIMIT {
        gaveUp := true;
        return;
      }
      restartsInWindow := restartsInWindow + [now];
      restarts := restarts + [now];
    }
  }
}
