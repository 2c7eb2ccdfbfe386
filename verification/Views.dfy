/** Two views computed from the rows: the status-line cache and the list of recent
    directories. */
module Views {
  import opened Protocol
  import opened Sequences
  import opened Dashboard

  // ---------------------------------------------------------------------- status cache

  datatype FormattedStatus = FormattedStatus(
    agent: AgentType,
    status: SessionStatus,
    task: Option<string>,
    cost: Option<real>)

  datatype Summary = Summary(total: nat, byStatus: map<SessionStatus, nat>, cost: real)

  function Formatted(s: Session): FormattedStatus {
    FormattedStatus(s.agentType, s.status, s.currentTask, s.costUsd)
  }

  /** A pane's entry shows the session's agent, status, task and cost. */
  predicate Shows(f: FormattedStatus, s: Session) {
    f.agent == s.agentType && f.status == s.status && f.task == s.currentTask && f.cost == s.costUsd
  }

  function TotalCost(list: seq<Session>): real {
    if list == [] then 0.0
    else
      var last := list[|list| - 1];
      TotalCost(list[..|list| - 1]) + if last.costUsd.Some? then last.costUsd.value else 0.0
  }

  /** Position `i` holds the last session of the list in its pane. */
  ghost predicate LastInPane(list: seq<Session>, i: int, pane: string) {
    && 0 <= i < |list| && list[i].tmuxPaneId == Some(pane)
    && forall j | i < j < |list| :: list[j].tmuxPaneId != Some(pane)
  }

  /** Every pane with a session shows the last one, and no other pane shows anything. */
  ghost predicate PanesExact(byPane: map<string, FormattedStatus>, list: seq<Session>) {
    && (forall p | p in byPane :: exists i :: LastInPane(list, i, p) && Shows(byPane[p], list[i]))
    && (forall i | 0 <= i < |list| && list[i].tmuxPaneId.Some? :: list[i].tmuxPaneId.value in byPane)
  }

  ghost predicate SummaryExact(s: Summary, list: seq<Session>) {
    && s.total == |list|
    && (forall st :: (if st in s.byStatus then s.byStatus[st] else 0) == CountOf(list, st))
    && s.cost == TotalCost(list)
  }

  /** The status cache cannot tell the rows apart by anything else: two rebuilds from the same
      list agree, whatever the cache held before. */
  lemma PanesDetermined(a: map<string, FormattedStatus>, b: map<string, FormattedStatus>, list: seq<Session>)
    requires PanesExact(a, list) && PanesExact(b, list)
    ensures a == b
  {
    forall p ensures p in a <==> p in b
             ensures p in a ==> a[p] == b[p] {
      if p in a {
        var i :| LastInPane(list, i, p) && Shows(a[p], list[i]);
        assert list[i].tmuxPaneId.value in b;
        var j :| LastInPane(list, j, p) && Shows(b[p], list[j]);
        assert i == j;
      }
      if p in b {
        var j :| LastInPane(list, j, p) && Shows(b[p], list[j]);
        assert list[j].tmuxPaneId.value in a;
      }
    }
  }

  /** The per-status figures of an exact summary account for its total. */
  lemma SummaryAddsUp(s: Summary, list: seq<Session>)
    requires SummaryExact(s, list)
    ensures CountOf(list, Working) + CountOf(list, WaitingForUser) + CountOf(list, Errored) + CountOf(list, Idle)
            + CountOf(list, Starting) + CountOf(list, Finished) == s.total
  {
    CountersSumToLength(Counters(CountOf(list, Working), CountOf(list, WaitingForUser), CountOf(list, Errored),
                                 CountOf(list, Idle), CountOf(list, Starting), CountOf(list, Finished)), list);
  }

  /** The total is a sum: it adds up over any split of the list, and one session contributes its
      cost, or nothing if it has none. */
  lemma {:induction false} TotalCostAppend(a: seq<Session>, b: seq<Session>)
    ensures TotalCost(a + b) == TotalCost(a) + TotalCost(b)
    decreases |b|
  {
    if b == [] {
      assert a + b == a;
    } else {
      assert (a + b)[..|a + b| - 1] == a + b[..|b| - 1];
      TotalCostAppend(a, b[..|b| - 1]);
    }
  }

  lemma TotalCostOne(s: Session)
    ensures TotalCost([]) == 0.0
    ensures TotalCost([s]) == match s.costUsd
                              case Some(cost) => cost
                              case None => 0.0
  {
    assert [s][..0] == [];
  }

  /** `list_non_finished`. */
  function Unfinished(list: seq<Session>): seq<Session> {
    Filter(list, (s: Session) => s.status != Finished)
  }

  lemma UnfinishedSnoc(list: seq<Session>, s: Session)
    ensures Unfinished(list + [s]) == if s.status != Finished then Unfinished(list) + [s] else Unfinished(list)
  {
    assert (list + [s])[..|list|] == list;
  }

  lemma PaneSnoc(before: map<string, FormattedStatus>, list: seq<Session>, s: Session)
    requires PanesExact(before, list)
    ensures PanesExact(if s.tmuxPaneId.Some? then before[s.tmuxPaneId.value := Formatted(s)] else before, list + [s])
  {
    var after := if s.tmuxPaneId.Some? then before[s.tmuxPaneId.value := Formatted(s)] else before;
    var all := list + [s];
    forall p | p in after ensures exists i :: LastInPane(all, i, p) && Shows(after[p], all[i]) {
      if s.tmuxPaneId == Some(p) {
        assert LastInPane(all, |list|, p);
      } else {
        var i :| LastInPane(list, i, p) && Shows(before[p], list[i]);
        assert LastInPane(all, i, p) && all[i] == list[i];
      }
    }
  }

  lemma SummarySnoc(before: Summary, list: seq<Session>, s: Session)
    requires SummaryExact(before, list)
    ensures var count := if s.status in before.byStatus then before.byStatus[s.status] else 0;
            SummaryExact(Summary(before.total + 1, before.byStatus[s.status := count + 1],
                                 before.cost + if s.costUsd.Some? then s.costUsd.value else 0.0), list + [s])
  {
    assert (list + [s])[..|list|] == list;
  }

  class StatusCache {
    var byPane: map<string, FormattedStatus>
    var global: Summary

    /** `rebuild`, from the table in order of creation. */
    method Rebuild(rows: seq<Session>) returns (panes: nat)
      modifies this
      ensures PanesExact(byPane, Unfinished(rows)) && SummaryExact(global, Unfinished(rows))
      ensures panes == |byPane|
    {
      byPane := map[];
      var summary := Summary(0, map[], 0.0);
      for i := 0 to |rows|
        invariant PanesExact(byPane, Unfinished(rows[..i])) && SummaryExact(summary, Unfinished(rows[..i]))
      {
        var s := rows[i];
        ghost var list := Unfinished(rows[..i]);
        assert rows[..i + 1] == rows[..i] + [s];
        UnfinishedSnoc(rows[..i], s);
        if s.status != Finished {
          summary := AddToSummary(summary, s, list);
          AddPane(s, list);
        }
      }
      assert rows[..|rows|] == rows;
      global := summary;
      panes := |byPane|;
    }

    static method AddToSummary(summary: Summary, s: Session, ghost list: seq<Session>) returns (next: Summary)
      requires SummaryExact(summary, list)
      ensures SummaryExact(next, list + [s])
    {
      SummarySnoc(summary, list, s);
      var count := if s.status in summary.byStatus then summary.byStatus[s.status] else 0;
      next := Summary(summary.total + 1, summary.byStatus[s.status := count + 1],
                      summary.cost + if s.costUsd.Some? then s.costUsd.value else 0.0);
    }

    method AddPane(s: Session, ghost list: seq<Session>)
      requires PanesExact(byPane, list)
      modifies this`byPane
      ensures PanesExact(byPane, list + [s])
    {
      PaneSnoc(byPane, list, s);
      if s.tmuxPaneId.Some? {
        byPane := byPane[s.tmuxPaneId.value := Formatted(s)];
      }
    }
  }

  // ------------------------------------------------------------------- recent directories

  const RECENTS: nat := 10

  /** An entry of `session.list_active` that has both a directory and a last event time. */
  datatype Use = Use(dir: string, at: Time)

  /** The newest use of each directory. */
  function Latest(uses: seq<Use>): map<string, Time> {
    if uses == [] then map[]
    else
      var before, u := Latest(uses[..|uses| - 1]), uses[|uses| - 1];
      if u.dir in before && u.at <= before[u.dir] then before else before[u.dir := u.at]
  }

  lemma {:induction false} LatestIsMaximum(uses: seq<Use>)
    ensures forall d | d in Latest(uses) :: Use(d, Latest(uses)[d]) in uses
    ensures forall u | u in uses :: u.dir in Latest(uses) && u.at <= Latest(uses)[u.dir]
    decreases |uses|
  {
    if uses != [] {
      LatestIsMaximum(uses[..|uses| - 1]);
      assert uses == uses[..|uses| - 1] + [uses[|uses| - 1]];
    }
  }

  ghost predicate NewestFirst(list: seq<Use>) {
    forall i, j | 0 <= i < j < |list| :: list[i].at >= list[j].at
  }

  ghost predicate OncePerDir(list: seq<Use>) {
    forall i, j | 0 <= i < j < |list| :: list[i].dir != list[j].dir
  }

  /** The directory is shown, or the list is full of entries at least as new. */
  ghost predicate Covered(u: Use, shown: seq<Use>) {
    || (exists s | s in shown :: s.dir == u.dir)
    || (|shown| == RECENTS && forall s | s in shown :: u.at <= s.at)
  }

  /** What the modal shows: at most ten directories, each once, newest first, each with the
      time of its newest use, and nothing left out is newer than anything shown. */
  ghost predicate RecentsExact(shown: seq<Use>, uses: seq<Use>) {
    && |shown| <= RECENTS && NewestFirst(shown) && OncePerDir(shown)
    && (forall s | s in shown :: s in uses && forall u | u in uses && u.dir == s.dir :: u.at <= s.at)
    && (forall u | u in uses :: Covered(u, shown))
  }

  lemma InsertKeepsOrder(list: seq<Use>, i: nat, u: Use)
    requires i <= |list| && NewestFirst(list)
    requires i > 0 ==> list[i - 1].at >= u.at
    requires i < |list| ==> list[i].at <= u.at
    ensures NewestFirst(list[..i] + [u] + list[i..])
  {
  }

  lemma InsertKeepsDirs(list: seq<Use>, i: nat, u: Use)
    requires i <= |list| && OncePerDir(list) && forall x | x in list :: x.dir != u.dir
    ensures OncePerDir(list[..i] + [u] + list[i..])
    ensures forall x :: x in list[..i] + [u] + list[i..] <==> x in list || x == u
  {
    assert list == list[..i] + list[i..];
    assert forall k | 0 <= k < |list| :: list[k] in list;
  }

  /** `extract_recents`. */
  method ExtractRecents(uses: seq<Use>) returns (shown: seq<Use>)
    ensures RecentsExact(shown, uses)
  {
    var byDir: map<string, Time> := map[];
    for i := 0 to |uses|
      invariant byDir == Latest(uses[..i])
    {
      assert uses[..i + 1][..i] == uses[..i];
      var u := uses[i];
      if u.dir !in byDir || u.at > byDir[u.dir] {
        byDir := byDir[u.dir := u.at];
      }
    }
    assert uses[..|uses|] == uses;
    var sorted := SortByTime(byDir);
    shown := if |sorted| <= RECENTS then sorted else sorted[..RECENTS];
    TopOfSorted(sorted, shown, uses);
  }

  lemma TopCovers(sorted: seq<Use>, shown: seq<Use>, top: Use, u: Use)
    requires NewestFirst(sorted) && top in sorted && top.dir == u.dir && u.at <= top.at
    requires shown == if |sorted| <= RECENTS then sorted else sorted[..RECENTS]
    ensures Covered(u, shown)
  {
    var k :| 0 <= k < |sorted| && sorted[k] == top;
    if k < |shown| {
      assert shown[k] == top;
    } else {
      forall s | s in shown ensures u.at <= s.at {
        var i :| 0 <= i < |shown| && shown[i] == s;
        assert sorted[i] == s && sorted[i].at >= sorted[k].at;
      }
    }
  }

  lemma TopOfSorted(sorted: seq<Use>, shown: seq<Use>, uses: seq<Use>)
    requires NewestFirst(sorted) && OncePerDir(sorted)
    requires forall x :: x in sorted <==> x.dir in Latest(uses) && Latest(uses)[x.dir] == x.at
    requires shown == if |sorted| <= RECENTS then sorted else sorted[..RECENTS]
    ensures RecentsExact(shown, uses)
  {
    LatestIsMaximum(uses);
    forall s | s in shown ensures s in uses && forall u | u in uses && u.dir == s.dir :: u.at <= s.at {
      var i :| 0 <= i < |shown| && shown[i] == s;
      assert sorted[i] == s;
      assert s == Use(s.dir, Latest(uses)[s.dir]);
    }
    forall u | u in uses ensures Covered(u, shown) {
      TopCovers(sorted, shown, Use(u.dir, Latest(uses)[u.dir]), u);
    }
  }

  method SortByTime(byDir: map<string, Time>) returns (sorted: seq<Use>)
    ensures NewestFirst(sorted) && OncePerDir(sorted)
    ensures forall x :: x in sorted <==> x.dir in byDir && byDir[x.dir] == x.at
  {
    sorted := [];
    var rest := byDir.Keys;
    while rest != {}
      invariant NewestFirst(sorted) && OncePerDir(sorted) && rest <= byDir.Keys
      invariant forall x :: x in sorted <==> x.dir in byDir && x.dir !in rest && byDir[x.dir] == x.at
      decreases |rest|
    {
      var d :| d in rest;
      var u := Use(d, byDir[d]);
      var i := |sorted|;
      while i > 0 && sorted[i - 1].at < u.at
        invariant 0 <= i <= |sorted| && (i < |sorted| ==> sorted[i].at <= u.at)
      {
        i := i - 1;
      }
      InsertKeepsOrder(sorted, i, u);
      InsertKeepsDirs(sorted, i, u);
      sorted := sorted[..i] + [u] + sorted[i..];
      rest := rest - {d};
    }
  }
}
