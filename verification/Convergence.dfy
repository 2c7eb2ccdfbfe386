/** The replication theorem. The dashboard subscribes first and takes its snapshot later, so
    it replays some events that the snapshot already contains. It still ends up with the
    daemon's rows. */
module Convergence {
  import opened Protocol
  import opened Daemon
  import opened Integrity
  import opened Replica

  // ------------------------------------------------- what an event writes, column by column

  datatype Column = NameCol | StatusCol | TaskCol | UsedCol | TotalCol | CostCol | IdentityCol

  datatype Value =
    | TextV(text: string)
    | StatusV(status: SessionStatus)
    | TaskV(task: Option<string>)
    | TokensV(tokens: Option<nat>)
    | CostV(cost: Option<real>)
    | IdentityV(identity: Session)

  function Read(s: Session, c: Column): Value {
    match c
    case NameCol => TextV(s.displayName)
    case StatusCol => StatusV(s.status)
    case TaskCol => TaskV(s.currentTask)
    case UsedCol => TokensV(s.usedTokens)
    case TotalCol => TokensV(s.totalTokens)
    case CostCol => CostV(s.costUsd)
    case IdentityCol => IdentityV(Identity(s))
  }

  /** A usage figure that a report left out. */
  predicate Blank(v: Value) {
    v == TokensV(None) || v == CostV(None)
  }

  /** The value an event writes to a column of a row, if it writes it. */
  function StoreWrites(e: Event, id: Id, c: Column): Option<Value> {
    if Inserted(e).Some? && Inserted(e).value.id == id then Some(Read(Inserted(e).value, c))
    else if Patched(e) != Some(id) then None
    else match (e, c)
      case (SessionRenamed(_, name), NameCol) => Some(TextV(name))
      case (SessionKilled(_), StatusCol) => Some(StatusV(Finished))
      case (SessionFinished(_), StatusCol) => Some(StatusV(Finished))
      case (StatusChanged(_, status), StatusCol) => Some(StatusV(status))
      case (DismissedError(_), StatusCol) => Some(StatusV(Idle))
      case (TaskChanged(_, task), TaskCol) => Some(TaskV(Some(task)))
      case (UsageUpdated(_, used, _, _), UsedCol) => Some(TokensV(used))
      case (UsageUpdated(_, _, total, _), TotalCol) => Some(TokensV(total))
      case (UsageUpdated(_, _, _, cost), CostCol) => Some(CostV(cost))
      case _ => None
  }

  /** The dashboard writes the same, except that a left-out usage figure writes nothing. */
  function ReplicaWrites(e: Event, id: Id, c: Column): Option<Value> {
    var w := StoreWrites(e, id, c);
    if w.Some? && Inserted(e).None? && Blank(w.value) then None else w
  }

  function StoreLast(events: seq<Event>, id: Id, c: Column): Option<Value> {
    if events == [] then None
    else
      var w := StoreWrites(events[|events| - 1], id, c);
      if w.Some? then w else StoreLast(events[..|events| - 1], id, c)
  }

  function ReplicaLast(events: seq<Event>, id: Id, c: Column): Option<Value> {
    if events == [] then None
    else
      var w := ReplicaWrites(events[|events| - 1], id, c);
      if w.Some? then w else ReplicaLast(events[..|events| - 1], id, c)
  }

  lemma {:induction false} StoreLastAppend(a: seq<Event>, b: seq<Event>, id: Id, c: Column)
    ensures StoreLast(a + b, id, c) == if StoreLast(b, id, c).Some? then StoreLast(b, id, c) else StoreLast(a, id, c)
    decreases |b|
  {
    if b == [] {
      assert a + b == a;
    } else {
      assert (a + b)[..|a + b| - 1] == a + b[..|b| - 1];
      StoreLastAppend(a, b[..|b| - 1], id, c);
    }
  }

  /** The last full figure in a stretch of events is also the last one the dashboard took;
      and where the store took nothing, neither did the dashboard. */
  lemma {:induction false} ReplicaLastFollows(events: seq<Event>, id: Id, c: Column)
    ensures StoreLast(events, id, c).None? ==> ReplicaLast(events, id, c).None?
    ensures StoreLast(events, id, c).Some? && !Blank(StoreLast(events, id, c).value) ==>
              ReplicaLast(events, id, c) == StoreLast(events, id, c)
    decreases |events|
  {
    if events != [] {
      ReplicaLastFollows(events[..|events| - 1], id, c);
    }
  }

  // ------------------------------------------------------------ inserts and retirements

  function CreatedIds(events: seq<Event>): set<Id> {
    if events == [] then {}
    else
      var e := events[|events| - 1];
      CreatedIds(events[..|events| - 1]) + if Inserted(e).Some? then {Inserted(e).value.id} else {}
  }

  predicate Retired(events: seq<Event>, id: Id) {
    exists e | e in events :: Retires(e) && Patched(e) == Some(id)
  }

  lemma {:induction false} CreatedIdsAppend(a: seq<Event>, b: seq<Event>)
    ensures CreatedIds(a + b) == CreatedIds(a) + CreatedIds(b)
    decreases |b|
  {
    if b == [] {
      assert a + b == a;
    } else {
      assert (a + b)[..|a + b| - 1] == a + b[..|b| - 1];
      CreatedIdsAppend(a, b[..|b| - 1]);
    }
  }

  /** No session is inserted after an event about it. */
  ghost predicate FreshInserts(events: seq<Event>) {
    forall i, j | 0 <= i < j < |events| && Inserted(events[j]).Some? ::
      Patched(events[i]) != Some(Inserted(events[j]).value.id)
  }

  // -------------------------------------------------------------- the daemon's side

  lemma RowAfter(rows: map<Id, Session>, e: Event, at: Time, id: Id, c: Column)
    requires Applicable(rows, e) && id in Effect(rows, e, at)
    ensures StoreWrites(e, id, c).None? ==> id in rows
    ensures Read(Effect(rows, e, at)[id], c) ==
            if StoreWrites(e, id, c).Some? then StoreWrites(e, id, c).value else Read(rows[id], c)
  {
  }

  /** A row is what the boot left, overwritten by the last event that wrote each column. */
  ghost predicate Explained(boot: State, s: State, id: Id, c: Column)
    requires id in s.rows
  {
    if StoreLast(s.log, id, c).Some? then Read(s.rows[id], c) == StoreLast(s.log, id, c).value
    else id in boot.rows && Read(s.rows[id], c) == Read(boot.rows[id], c)
  }

  ghost predicate FinishExplained(boot: State, s: State, id: Id)
    requires id in s.rows
  {
    s.rows[id].finishedAt.None? <==>
      !Retired(s.log, id) && (id in boot.rows ==> boot.rows[id].finishedAt.None?)
  }

  predicate NoUsage(s: Session) {
    s.usedTokens.None? && s.totalTokens.None? && s.costUsd.None?
  }

  /** Every insert brings a session not seen before, without usage figures. */
  ghost predicate NewInserts(boot: State, log: seq<Event>) {
    forall j | 0 <= j < |log| && Inserted(log[j]).Some? ::
      && Inserted(log[j]).value.id !in boot.rows.Keys + CreatedIds(log[..j])
      && NoUsage(Inserted(log[j]).value)
  }

  /** The set of rows, read off the log. */
  ghost predicate KeysExplained(boot: State, s: State) {
    && s.rows.Keys == boot.rows.Keys + CreatedIds(s.log)
    && FreshInserts(s.log) && NewInserts(boot, s.log)
    && (forall e | e in s.log && Patched(e).Some? :: Patched(e).value in s.rows)
  }

  ghost predicate History(boot: State, s: State) {
    && KeysExplained(boot, s)
    && (forall id, c | id in s.rows :: Explained(boot, s, id, c))
    && (forall id | id in s.rows :: FinishExplained(boot, s, id))
  }

  lemma KeysGrow(boot: State, s: State, e: Event, at: Time, t: State)
    requires KeysExplained(boot, s) && Applicable(s.rows, e)
    requires t.log == s.log + [e] && t.rows == Effect(s.rows, e, at)
    requires Inserted(e).Some? ==> NoUsage(Inserted(e).value)
    ensures KeysExplained(boot, t)
  {
    assert t.log[..|t.log| - 1] == s.log;
    forall j | 0 <= j < |t.log| && Inserted(t.log[j]).Some?
      ensures Inserted(t.log[j]).value.id !in boot.rows.Keys + CreatedIds(t.log[..j])
      ensures NoUsage(Inserted(t.log[j]).value)
    {
      if j < |s.log| {
        assert t.log[j] == s.log[j] && t.log[..j] == s.log[..j];
      }
    }
    assert t.rows.Keys == s.rows.Keys + if Inserted(e).Some? then {Inserted(e).value.id} else {};
    forall i, j | 0 <= i < j < |t.log| && Inserted(t.log[j]).Some?
      ensures Patched(t.log[i]) != Some(Inserted(t.log[j]).value.id)
    {
      assert t.log[i] == s.log[i];
      assert s.log[i] in s.log;
      if j < |s.log| {
        assert t.log[j] == s.log[j];
      }
    }
  }

  lemma ColumnGrows(boot: State, s: State, e: Event, at: Time, t: State, id: Id, c: Column)
    requires id in s.rows ==> Explained(boot, s, id, c)
    requires Applicable(s.rows, e) && t.log == s.log + [e] && t.rows == Effect(s.rows, e, at) && id in t.rows
    ensures Explained(boot, t, id, c)
  {
    assert t.log[..|t.log| - 1] == s.log;
    RowAfter(s.rows, e, at, id, c);
  }

  lemma RetiredAppend(log: seq<Event>, e: Event, id: Id)
    ensures Retired(log + [e], id) <==> Retired(log, id) || (Retires(e) && Patched(e) == Some(id))
  {
    if Retired(log, id) {
      var x :| x in log && Retires(x) && Patched(x) == Some(id);
      assert x in log + [e];
    }
    if Retires(e) && Patched(e) == Some(id) {
      assert e in log + [e];
    }
  }

  lemma FinishGrows(boot: State, s: State, e: Event, at: Time, t: State, id: Id)
    requires id in s.rows ==> FinishExplained(boot, s, id)
    requires id !in s.rows ==> id !in boot.rows && !Retired(s.log, id)
    requires Applicable(s.rows, e) && t.log == s.log + [e] && t.rows == Effect(s.rows, e, at) && id in t.rows
    requires Inserted(e).Some? ==> Inserted(e).value.finishedAt.None?
    ensures FinishExplained(boot, t, id)
  {
    RetiredAppend(s.log, e, id);
  }

  lemma HistoryGrows(boot: State, s: State, e: Event, at: Time, t: State)
    requires History(boot, s) && Applicable(s.rows, e)
    requires t.log == s.log + [e] && t.rows == Effect(s.rows, e, at)
    requires Inserted(e).Some? ==> Inserted(e).value.finishedAt.None? && NoUsage(Inserted(e).value)
    ensures History(boot, t)
  {
    KeysGrow(boot, s, e, at, t);
    forall id, c | id in t.rows ensures Explained(boot, t, id, c) {
      ColumnGrows(boot, s, e, at, t, id, c);
    }
    forall id | id in t.rows ensures FinishExplained(boot, t, id) {
      FinishGrows(boot, s, e, at, t, id);
    }
  }

  lemma InsertsAreNew(s: State, call: Call, now: Time)
    ensures var o := Respond(s, call, now);
            o.emitted.Some? && Inserted(o.emitted.value).Some? ==>
              Inserted(o.emitted.value).value.finishedAt.None? && NoUsage(Inserted(o.emitted.value).value)
  {
  }

  lemma HistoryStep(boot: State, s: State, call: Call, now: Time)
    requires History(boot, s)
    ensures History(boot, Step(s, call, now))
  {
    var o := Respond(s, call, now);
    if o.emitted.Some? {
      EmittedApplicable(s, call, now);
      InsertsAreNew(s, call, now);
      HistoryGrows(boot, s, o.emitted.value, o.at, Commit(s, o));
    } else {
      HistoryCore(boot, s, Commit(s, o));
    }
  }

  lemma {:induction false} RunHistory(boot: State, inputs: seq<Input>)
    requires Valid(boot) && boot.log == []
    ensures History(boot, Run(boot, inputs))
    decreases |inputs|
  {
    if inputs != [] {
      var last := |inputs| - 1;
      RunHistory(boot, inputs[..last]);
      HistoryStep(boot, Run(boot, inputs[..last]), inputs[last].call, inputs[last].now);
    }
  }

  lemma HistoryCore(boot: State, s: State, t: State)
    requires History(boot, s) && SameCore(s, t)
    ensures History(boot, t)
  {
    forall id, c | id in t.rows ensures Explained(boot, t, id, c) {
      assert Explained(boot, s, id, c);
    }
    forall id | id in t.rows ensures FinishExplained(boot, t, id) {
      assert FinishExplained(boot, s, id);
    }
  }

  /** The bus log only grows. */
  lemma {:induction false} LogGrows(s: State, inputs: seq<Input>, m: nat)
    requires m <= |inputs|
    ensures Run(s, inputs[..m]).log <= Run(s, inputs).log
    decreases |inputs|
  {
    if m == |inputs| {
      assert inputs[..m] == inputs;
    } else {
      var last := |inputs| - 1;
      assert inputs[..last][..m] == inputs[..m];
      LogGrows(s, inputs[..last], m);
    }
  }

  // ------------------------------------------------------------- the dashboard's side

  lemma ReplicaAfter(m: map<Id, Session>, e: Event, id: Id, c: Column)
    requires id in ReplicaStep(m, e)
    ensures ReplicaWrites(e, id, c).None? ==> id in m
    ensures Read(ReplicaStep(m, e)[id], c) ==
            if ReplicaWrites(e, id, c).Some? then ReplicaWrites(e, id, c).value else Read(m[id], c)
  {
  }

  /** A listed session shows, column by column, the last value the replayed events wrote,
      or else what the snapshot held. */
  lemma {:induction false} ReplayValue(m: map<Id, Session>, events: seq<Event>, id: Id, c: Column)
    requires id in Replay(m, events)
    ensures ReplicaLast(events, id, c).None? ==> id in m
    ensures Read(Replay(m, events)[id], c) ==
            if ReplicaLast(events, id, c).Some? then ReplicaLast(events, id, c).value else Read(m[id], c)
    decreases |events|
  {
    if events != [] {
      var last := |events| - 1;
      var before := Replay(m, events[..last]);
      ReplicaAfter(before, events[last], id, c);
      if ReplicaWrites(events[last], id, c).None? {
        ReplayValue(m, events[..last], id, c);
      }
    }
  }

  lemma {:induction false} ReplayPresence(m: map<Id, Session>, events: seq<Event>, id: Id)
    requires FreshInserts(events)
    ensures id in Replay(m, events) <==> (id in m || id in CreatedIds(events)) && !Retired(events, id)
    decreases |events|
  {
    if events != [] {
      var last := |events| - 1;
      var before, e := events[..last], events[last];
      ReplayPresence(m, before, id);
      assert events == before + [e];
      RetiredAppend(before, e, id);
      if Inserted(e).Some? && Inserted(e).value.id == id {
        assert !Retired(before, id);
      }
    }
  }

  // -------------------------------------------------------------------- the theorem

  /** Name, status, task and all the fixed columns are equal. */
  ghost predicate SameFace(shown: Session, row: Session) {
    && shown.displayName == row.displayName
    && shown.status == row.status
    && shown.currentTask == row.currentTask
    && Identity(shown) == Identity(row)
  }

  /** No usage figure on screen contradicts the row. */
  ghost predicate UsageCarried(shown: Session, row: Session) {
    && (row.usedTokens.Some? ==> shown.usedTokens == row.usedTokens)
    && (row.totalTokens.Some? ==> shown.totalTokens == row.totalTokens)
    && (row.costUsd.Some? ==> shown.costUsd == row.costUsd)
  }

  /** One column: a replay from `p` over the snapshot `at` agrees with the row at `end`
      unless the row's figure was blanked by a partial report. */
  lemma ColumnConverges(boot: State, at: State, end: State, p: nat, id: Id, c: Column)
    requires at.log <= end.log && p <= |at.log|
    requires id in Replay(at.rows, end.log[p..]) && id in end.rows
    requires id in at.rows ==> Explained(boot, at, id, c)
    requires Explained(boot, end, id, c)
    ensures var shown := Read(Replay(at.rows, end.log[p..])[id], c);
            Blank(Read(end.rows[id], c)) || shown == Read(end.rows[id], c)
  {
    var head, overlap, tail := at.log[..p], at.log[p..], end.log[|at.log|..];
    assert end.log[p..] == overlap + tail && at.log == head + overlap && end.log == head + (overlap + tail);
    ReplayValue(at.rows, overlap + tail, id, c);
    ReplicaLastFollows(overlap + tail, id, c);
    StoreLastAppend(head, overlap + tail, id, c);
    StoreLastAppend(overlap, tail, id, c);
    StoreLastAppend(head, overlap, id, c);
  }

  lemma FreshInsertsSuffix(events: seq<Event>, p: nat)
    requires FreshInserts(events) && p <= |events|
    ensures FreshInserts(events[p..])
  {
  }

  /** The overlap between the snapshot and the stream creates nothing new. */
  lemma CreatedOverlap(before: seq<Event>, log: seq<Event>, p: nat)
    requires before <= log && p <= |before|
    ensures CreatedIds(log) == CreatedIds(before) + CreatedIds(log[p..])
  {
    var overlap, tail := before[p..], log[|before|..];
    assert log[p..] == overlap + tail && before == before[..p] + overlap && log == before + tail;
    CreatedIdsAppend(overlap, tail);
    CreatedIdsAppend(before[..p], overlap);
    CreatedIdsAppend(before, tail);
  }

  lemma PresenceConverges(boot: State, at: State, end: State, p: nat, id: Id)
    requires at.log <= end.log && p <= |at.log| && FreshInserts(end.log)
    requires at.rows.Keys == boot.rows.Keys + CreatedIds(at.log)
    requires end.rows.Keys == boot.rows.Keys + CreatedIds(end.log)
    ensures id in Replay(at.rows, end.log[p..]) <==> id in end.rows && !Retired(end.log[p..], id)
  {
    CreatedOverlap(at.log, end.log, p);
    FreshInsertsSuffix(end.log, p);
    ReplayPresence(at.rows, end.log[p..], id);
    assert id in end.rows <==> id in at.rows.Keys || id in CreatedIds(end.log[p..]);
  }

  lemma FaceOfColumns(shown: Session, row: Session)
    requires forall c :: Blank(Read(row, c)) || Read(shown, c) == Read(row, c)
    ensures SameFace(shown, row) && UsageCarried(shown, row)
  {
    assert Read(shown, NameCol) == Read(row, NameCol) && Read(shown, StatusCol) == Read(row, StatusCol);
    assert Read(shown, TaskCol) == Read(row, TaskCol) && Read(shown, IdentityCol) == Read(row, IdentityCol);
    assert Blank(Read(row, UsedCol)) || Read(shown, UsedCol) == Read(row, UsedCol);
    assert Blank(Read(row, TotalCol)) || Read(shown, TotalCol) == Read(row, TotalCol);
    assert Blank(Read(row, CostCol)) || Read(shown, CostCol) == Read(row, CostCol);
  }

  lemma FaceConverges(boot: State, at: State, end: State, p: nat, id: Id)
    requires at.log <= end.log && p <= |at.log|
    requires id in Replay(at.rows, end.log[p..]) && id in end.rows
    requires forall c :: id in at.rows ==> Explained(boot, at, id, c)
    requires forall c :: Explained(boot, end, id, c)
    ensures var shown := Replay(at.rows, end.log[p..])[id];
            SameFace(shown, end.rows[id]) && UsageCarried(shown, end.rows[id])
  {
    var shown := Replay(at.rows, end.log[p..])[id];
    forall c ensures Blank(Read(end.rows[id], c)) || Read(shown, c) == Read(end.rows[id], c) {
      ColumnConverges(boot, at, end, p, id, c);
    }
    FaceOfColumns(shown, end.rows[id]);
  }

  /** The screen mirrors the daemon: it lists exactly the rows that were not killed or
      reported finished during the replayed window, in particular every row without a finish
      time; each with the row's name, status, task and fixed columns, and without
      contradicting its usage figures. */
  ghost predicate Mirrors(shown: map<Id, Session>, window: seq<Event>, end: State) {
    && (forall id :: id in shown <==> id in end.rows && !Retired(window, id))
    && (forall id | id in end.rows && end.rows[id].finishedAt.None? :: id in shown)
    && (forall id | id in shown :: SameFace(shown[id], end.rows[id]))
    && (forall id | id in shown :: UsageCarried(shown[id], end.rows[id]))
  }

  lemma Converges(boot: State, at: State, end: State, p: nat)
    requires History(boot, at) && History(boot, end) && at.log <= end.log && p <= |at.log|
    ensures Mirrors(Replay(at.rows, end.log[p..]), end.log[p..], end)
  {
    var shown := Replay(at.rows, end.log[p..]);
    forall id ensures id in shown <==> id in end.rows && !Retired(end.log[p..], id) {
      PresenceConverges(boot, at, end, p, id);
    }
    forall id | id in end.rows && end.rows[id].finishedAt.None? ensures id in shown {
      StillOpen(boot, end, p, id);
    }
    forall id | id in shown ensures SameFace(shown[id], end.rows[id]) && UsageCarried(shown[id], end.rows[id]) {
      FaceConverges(boot, at, end, p, id);
    }
  }

  lemma StillOpen(boot: State, end: State, p: nat, id: Id)
    requires p <= |end.log| && id in end.rows && FinishExplained(boot, end, id) && end.rows[id].finishedAt.None?
    ensures !Retired(end.log[p..], id)
  {
    assert forall e | e in end.log[p..] :: e in end.log;
  }

  /** Overlapping replay converges. Take any run of the daemon from boot, a snapshot after
      the first `m` calls, and a subscription that began at bus position `p`, no later than
      the snapshot. Replaying the stream from `p` over the snapshot mirrors the daemon. */
  lemma ReplicaConverges(boot: State, inputs: seq<Input>, m: nat, p: nat)
    requires Valid(boot) && boot.log == [] && m <= |inputs|
    requires p <= |Run(boot, inputs[..m]).log|
    ensures p <= |Run(boot, inputs).log|
    ensures var end := Run(boot, inputs);
            Mirrors(Replay(Run(boot, inputs[..m]).rows, end.log[p..]), end.log[p..], end)
  {
    RunHistory(boot, inputs[..m]);
    RunHistory(boot, inputs);
    LogGrows(boot, inputs, m);
    Converges(boot, Run(boot, inputs[..m]), Run(boot, inputs), p);
  }

  // ------------------------------------------------------ usage figures, exactly

  predicate UsageColumn(c: Column) {
    c == UsedCol || c == TotalCol || c == CostCol
  }

  /** Some usage report in the stretch had the figure. */
  predicate Carried(events: seq<Event>, id: Id, c: Column) {
    exists e | e in events :: CarriesFigure(e, id, c)
  }

  predicate CarriesFigure(e: Event, id: Id, c: Column) {
    match e
    case UsageUpdated(x, used, total, cost) =>
      x == id && ((c == UsedCol && used.Some?) || (c == TotalCol && total.Some?) || (c == CostCol && cost.Some?))
    case _ => false
  }

  ghost predicate BlankInserts(events: seq<Event>) {
    forall i | 0 <= i < |events| && Inserted(events[i]).Some? :: NoUsage(Inserted(events[i]).value)
  }

  lemma NoFigureBeforeInsert(before: seq<Event>, e: Event, id: Id, c: Column)
    requires FreshInserts(before + [e]) && Inserted(e).Some? && Inserted(e).value.id == id
    ensures !Carried(before, id, c)
  {
    var all := before + [e];
    forall i | 0 <= i < |before| ensures !CarriesFigure(before[i], id, c) {
      assert all[i] == before[i] && Patched(all[i]) != Some(Inserted(all[|before|]).value.id);
    }
  }

  lemma CarriedSnoc(before: seq<Event>, e: Event, id: Id, c: Column)
    ensures Carried(before + [e], id, c) <==> Carried(before, id, c) || CarriesFigure(e, id, c)
  {
    assert e in before + [e];
  }

  lemma FigureWritten(e: Event, id: Id, c: Column)
    requires UsageColumn(c) && (Inserted(e).Some? ==> NoUsage(Inserted(e).value))
    ensures var w := ReplicaWrites(e, id, c);
            && (CarriesFigure(e, id, c) <==> w.Some? && !Blank(w.value))
            && (w.Some? && Blank(w.value) ==> Inserted(e).Some? && Inserted(e).value.id == id)
  {
  }

  /** What a stretch leaves on screen: its last figure, or a blank from an insert, or nothing. */
  lemma {:induction false} CarriedShows(events: seq<Event>, id: Id, c: Column)
    requires UsageColumn(c) && FreshInserts(events) && BlankInserts(events)
    ensures Carried(events, id, c) <==> ReplicaLast(events, id, c).Some? && !Blank(ReplicaLast(events, id, c).value)
    ensures ReplicaLast(events, id, c).Some? ==> Carried(events, id, c) || id in CreatedIds(events)
    decreases |events|
  {
    if events != [] {
      var before, e := events[..|events| - 1], events[|events| - 1];
      assert events == before + [e];
      CarriedShows(before, id, c);
      CarriedSnoc(before, e, id, c);
      FigureWritten(e, id, c);
      if Inserted(e).Some? && Inserted(e).value.id == id {
        NoFigureBeforeInsert(before, e, id, c);
      }
    }
  }

  /** What a stretch leaves in the store, if it holds the insert and never carried the figure. */
  lemma {:induction false} NeverCarriedStaysBlank(events: seq<Event>, id: Id, c: Column)
    requires UsageColumn(c) && BlankInserts(events) && !Carried(events, id, c)
    ensures StoreLast(events, id, c).Some? ==> Blank(StoreLast(events, id, c).value)
    ensures id in CreatedIds(events) ==> StoreLast(events, id, c).Some?
    decreases |events|
  {
    if events != [] {
      var before, e := events[..|events| - 1], events[|events| - 1];
      assert events == before + [e];
      assert !Carried(before, id, c) && !CarriesFigure(e, id, c);
      NeverCarriedStaysBlank(before, id, c);
    }
  }

  lemma {:induction false} CreatedAt(events: seq<Event>, id: Id) returns (j: nat)
    requires id in CreatedIds(events)
    ensures j < |events| && Inserted(events[j]).Some? && Inserted(events[j]).value.id == id
    decreases |events|
  {
    var last := |events| - 1;
    if id in CreatedIds(events[..last]) {
      j := CreatedAt(events[..last], id);
    } else {
      j := last;
    }
  }

  lemma NotCreatedAgain(boot: State, before: seq<Event>, tail: seq<Event>, id: Id)
    requires NewInserts(boot, before + tail) && id in boot.rows.Keys + CreatedIds(before)
    ensures id !in CreatedIds(tail)
  {
    if id in CreatedIds(tail) {
      var j := CreatedAt(tail, id);
      var log := before + tail;
      assert log[|before| + j] == tail[j] && log[..|before| + j] == before + tail[..j];
      CreatedIdsAppend(before, tail[..j]);
    }
  }

  lemma CarriedPrefix(a: seq<Event>, b: seq<Event>, id: Id, c: Column)
    ensures Carried(a, id, c) ==> Carried(a + b, id, c)
    ensures BlankInserts(a + b) ==> BlankInserts(a)
  {
    assert forall e | e in a :: e in a + b;
    assert forall i | 0 <= i < |a| :: (a + b)[i] == a[i];
  }

  /** A stretch that created the session and never gave it the figure leaves the column blank,
      whatever came before. */
  lemma OverlapBlank(head: seq<Event>, overlap: seq<Event>, id: Id, c: Column)
    requires UsageColumn(c) && BlankInserts(overlap) && !Carried(overlap, id, c) && id in CreatedIds(overlap)
    ensures StoreLast(head + overlap, id, c).Some? && Blank(StoreLast(head + overlap, id, c).value)
  {
    NeverCarriedStaysBlank(overlap, id, c);
    StoreLastAppend(head, overlap, id, c);
  }

  /** A listed session that the window created and never gave the figure: the snapshot, which
      lies between `overlap` and `tail`, has none either. */
  lemma SnapshotBlank(boot: State, at: State, head: seq<Event>, overlap: seq<Event>, tail: seq<Event>,
                      id: Id, c: Column)
    requires UsageColumn(c) && at.log == head + overlap && NewInserts(boot, at.log + tail)
    requires at.rows.Keys == boot.rows.Keys + CreatedIds(at.log)
    requires id in at.rows && Explained(boot, at, id, c)
    requires BlankInserts(overlap) && !Carried(overlap, id, c) && id in CreatedIds(overlap + tail)
    ensures Blank(Read(at.rows[id], c))
  {
    CreatedIdsAppend(overlap, tail);
    NotCreatedAgain(boot, at.log, tail, id);
    OverlapBlank(head, overlap, id, c);
  }

  lemma WindowSplits(before: seq<Event>, log: seq<Event>, p: nat)
    requires before <= log && p <= |before|
    ensures var overlap, tail := before[p..], log[|before|..];
            log[p..] == overlap + tail && before == before[..p] + overlap && log == before + tail
  {
  }

  lemma WindowBlank(boot: State, at: State, end: State, p: nat, id: Id, c: Column)
    requires UsageColumn(c) && at.log <= end.log && p <= |at.log|
    requires NewInserts(boot, end.log) && BlankInserts(end.log[p..])
    requires at.rows.Keys == boot.rows.Keys + CreatedIds(at.log)
    requires id in at.rows && Explained(boot, at, id, c)
    requires !Carried(end.log[p..], id, c) && id in CreatedIds(end.log[p..])
    ensures Blank(Read(at.rows[id], c))
  {
    var head, overlap, tail := at.log[..p], at.log[p..], end.log[|at.log|..];
    WindowSplits(at.log, end.log, p);
    CarriedPrefix(overlap, tail, id, c);
    SnapshotBlank(boot, at, head, overlap, tail, id, c);
  }

  lemma BlankSuffix(boot: State, log: seq<Event>, p: nat)
    requires NewInserts(boot, log) && p <= |log|
    ensures BlankInserts(log[p..])
  {
  }

  lemma FigureAgrees(boot: State, at: State, end: State, p: nat, id: Id, c: Column)
    requires UsageColumn(c) && at.log <= end.log && p <= |at.log|
    requires FreshInserts(end.log) && NewInserts(boot, end.log)
    requires at.rows.Keys == boot.rows.Keys + CreatedIds(at.log)
    requires id in Replay(at.rows, end.log[p..]) && id in end.rows
    requires id in at.rows ==> Explained(boot, at, id, c)
    requires Explained(boot, end, id, c)
    ensures Read(Replay(at.rows, end.log[p..])[id], c) == Read(end.rows[id], c) <==>
              !Blank(Read(end.rows[id], c)) ||
              (!Carried(end.log[p..], id, c) && (id in at.rows ==> Blank(Read(at.rows[id], c))))
  {
    var window := end.log[p..];
    ColumnConverges(boot, at, end, p, id, c);
    FreshInsertsSuffix(end.log, p);
    BlankSuffix(boot, end.log, p);
    ReplayValue(at.rows, window, id, c);
    CarriedShows(window, id, c);
    if !Carried(window, id, c) && id in CreatedIds(window) && id in at.rows {
      WindowBlank(boot, at, end, p, id, c);
    }
  }

  /** When the screen shows exactly the row's usage. For every run, snapshot and earlier
      subscription, and each of the three figures of a listed session: the screen agrees with
      the row if and only if the row has the figure, or neither the snapshot nor any usage
      event since the subscription had it. So it disagrees exactly where a figure that was
      once on screen has been left out by a later report. */
  lemma UsageAgrees(boot: State, inputs: seq<Input>, m: nat, p: nat, id: Id, c: Column)
    requires Valid(boot) && boot.log == [] && m <= |inputs| && UsageColumn(c)
    requires p <= |Run(boot, inputs[..m]).log|
    ensures p <= |Run(boot, inputs).log|
    ensures var at, end := Run(boot, inputs[..m]), Run(boot, inputs);
            var window := end.log[p..];
            var shown := Replay(at.rows, window);
            id in shown ==>
              && id in end.rows
              && (Read(shown[id], c) == Read(end.rows[id], c) <==>
                    !Blank(Read(end.rows[id], c)) ||
                    (!Carried(window, id, c) && (id in at.rows ==> Blank(Read(at.rows[id], c)))))
  {
    var at, end := Run(boot, inputs[..m]), Run(boot, inputs);
    RunHistory(boot, inputs[..m]);
    RunHistory(boot, inputs);
    LogGrows(boot, inputs, m);
    if id in Replay(at.rows, end.log[p..]) {
      PresenceConverges(boot, at, end, p, id);
      assert Explained(boot, end, id, c);
      FigureAgrees(boot, at, end, p, id, c);
    }
  }

  // ------------------------------------------------------------------- the plugin list

  /** The daemon announces a plugin only under its canonical binary and socket, and never
      announces a disconnect. */
  ghost predicate CanonicalPlugins(events: seq<Event>) {
    forall e | e in events :: !e.PluginDisconnected? && (e.PluginConnected? ==> e.plugin == PluginOf(e.plugin.name))
  }

  predicate Announced(events: seq<Event>, name: string) {
    exists e | e in events :: e.PluginConnected? && e.plugin.name == name
  }

  lemma {:induction false} ReplayPluginsValue(m: map<string, Plugin>, events: seq<Event>, name: string)
    requires CanonicalPlugins(events)
    ensures name in ReplayPlugins(m, events) <==> name in m || Announced(events, name)
    ensures name in ReplayPlugins(m, events) ==>
              ReplayPlugins(m, events)[name] == if Announced(events, name) then PluginOf(name) else m[name]
    decreases |events|
  {
    if events != [] {
      var before, e := events[..|events| - 1], events[|events| - 1];
      assert events == before + [e];
      ReplayPluginsValue(m, before, name);
      assert Announced(events, name) <==> Announced(before, name) || (e.PluginConnected? && e.plugin.name == name);
    }
  }

  lemma StepPlugins(s: State, call: Call, now: Time)
    ensures var o := Respond(s, call, now);
            o.emitted.Some? ==>
              && Step(s, call, now).plugins == PluginStep(s.plugins, o.emitted.value)
              && CanonicalPlugins([o.emitted.value])
  {
  }

  lemma {:induction false} RunPlugins(boot: State, inputs: seq<Input>)
    requires boot.log == []
    ensures Run(boot, inputs).plugins == ReplayPlugins(boot.plugins, Run(boot, inputs).log)
    ensures CanonicalPlugins(Run(boot, inputs).log)
    decreases |inputs|
  {
    if inputs != [] {
      var last := |inputs| - 1;
      RunPlugins(boot, inputs[..last]);
      var s := Run(boot, inputs[..last]);
      StepPlugins(s, inputs[last].call, inputs[last].now);
      PluginsGrow(boot.plugins, s, Respond(s, inputs[last].call, inputs[last].now));
    }
  }

  lemma PluginsGrow(base: map<string, Plugin>, s: State, o: Outcome)
    requires s.plugins == ReplayPlugins(base, s.log) && CanonicalPlugins(s.log)
    requires o.emitted.Some? ==> Commit(s, o).plugins == PluginStep(s.plugins, o.emitted.value)
    requires o.emitted.Some? ==> CanonicalPlugins([o.emitted.value])
    ensures Commit(s, o).plugins == ReplayPlugins(base, Commit(s, o).log) && CanonicalPlugins(Commit(s, o).log)
  {
    if o.emitted.Some? {
      assert (s.log + [o.emitted.value])[..|s.log|] == s.log;
      assert o.emitted.value in [o.emitted.value];
    }
  }

  lemma AnnouncedOverlap(before: seq<Event>, log: seq<Event>, p: nat, name: string)
    requires before <= log && p <= |before|
    ensures Announced(log, name) <==> Announced(before, name) || Announced(log[p..], name)
    ensures CanonicalPlugins(log) ==> CanonicalPlugins(before) && CanonicalPlugins(log[p..])
  {
    assert log == before[..p] + log[p..];
    assert log == before + log[|before|..];
  }

  /** The plugin list converges exactly under the same overlap. */
  lemma PluginsConverge(boot: State, inputs: seq<Input>, m: nat, p: nat)
    requires boot.log == [] && m <= |inputs| && p <= |Run(boot, inputs[..m]).log|
    ensures p <= |Run(boot, inputs).log|
    ensures ReplayPlugins(Run(boot, inputs[..m]).plugins, Run(boot, inputs).log[p..]) == Run(boot, inputs).plugins
  {
    LogGrows(boot, inputs, m);
    RunPlugins(boot, inputs[..m]);
    RunPlugins(boot, inputs);
    PluginTablesAgree(boot.plugins, Run(boot, inputs[..m]).log, Run(boot, inputs).log, p);
  }

  lemma PluginTablesAgree(base: map<string, Plugin>, before: seq<Event>, log: seq<Event>, p: nat)
    requires before <= log && p <= |before| && CanonicalPlugins(log)
    ensures ReplayPlugins(ReplayPlugins(base, before), log[p..]) == ReplayPlugins(base, log)
  {
    forall name: string
      ensures name in ReplayPlugins(ReplayPlugins(base, before), log[p..]) <==> name in ReplayPlugins(base, log)
      ensures name in ReplayPlugins(base, log) ==>
                ReplayPlugins(ReplayPlugins(base, before), log[p..])[name] == ReplayPlugins(base, log)[name]
    {
      AnnouncedOverlap(before, log, p, name);
      ReplayPluginsValue(ReplayPlugins(base, before), log[p..], name);
      ReplayPluginsValue(base, before, name);
      ReplayPluginsValue(base, log, name);
    }
  }

  // ------------------------------------------------------------------ what is not promised

  function SampleRow(): Session {
    Session(7, Opencode, "/w", Some("dev"), Some("%0"), "w", Idle, None, None, None, None, None,
            Discovered, 0, None, None, Some("opencode"))
  }

  function SampleBoot(): State {
    State(map[7 := SampleRow()], [], 1, map[], [], false)
  }

  function SampleReport(report: Report): Input {
    Input(FromPlugin("opencode", ReportEvent(Some(7), Some(report), None)), 1)
  }

  /** Subscribing after the snapshot would not do: an event published in the gap is lost. */
  lemma SubscribingLateLosesEvents()
    ensures var boot, inputs := SampleBoot(), [SampleReport(ReportStatus(KnownStatus(Working)))];
            var end := Run(boot, inputs);
            && Valid(boot) && boot.log == [] && |Run(boot, inputs[..0]).log| < 1 == |end.log|
            && 7 in end.rows && 7 in Replay(Run(boot, inputs[..0]).rows, end.log[1..])
            && Replay(Run(boot, inputs[..0]).rows, end.log[1..])[7].status == Idle
            && end.rows[7].status == Working
  {
    var input := SampleReport(ReportStatus(KnownStatus(Working)));
    assert [input][..0] == [];
    assert Run(SampleBoot(), []) == SampleBoot();
    assert Run(SampleBoot(), [input]) == Step(SampleBoot(), input.call, input.now);
    assert [StatusChanged(7, Working)][1..] == [];
  }

  /** A report that leaves a figure out clears it in the row but not on screen, which is why
      usage is only promised not to contradict the row. */
  lemma PartialUsageStaysOnScreen()
    ensures var boot := SampleBoot();
            var inputs := [SampleReport(ReportUsage(Some(5), None, None)), SampleReport(ReportUsage(None, None, None))];
            var end := Run(boot, inputs);
            && 7 in end.rows && end.rows[7].usedTokens == None
            && 7 in Replay(boot.rows, end.log) && Replay(boot.rows, end.log)[7].usedTokens == Some(5)
  {
    var boot := SampleBoot();
    var a, b := SampleReport(ReportUsage(Some(5), None, None)), SampleReport(ReportUsage(None, None, None));
    RunOfTwo(boot, a, b);
    SampleUsage(boot, Some(5));
    SampleUsage(Step(boot, a.call, a.now), None);
    var x, y := UsageUpdated(7, Some(5), None, None), UsageUpdated(7, None, None, None);
    assert Run(boot, [a, b]).log == [x, y];
    ReplayOfTwo(boot.rows, x, y);
  }

  lemma SampleUsage(s: State, used: Option<nat>)
    requires 7 in s.rows && s.rows[7].plugin == Some("opencode") && Fits(used)
    ensures var input := SampleReport(ReportUsage(used, None, None));
            var t := Step(s, input.call, input.now);
            && t.log == s.log + [UsageUpdated(7, used, None, None)]
            && 7 in t.rows && t.rows[7].plugin == Some("opencode") && t.rows[7].usedTokens == used
  {
  }

  lemma RunOfTwo(s: State, a: Input, b: Input)
    ensures Run(s, [a, b]) == Step(Step(s, a.call, a.now), b.call, b.now)
  {
    assert [a, b][..1] == [a] && [a][..0] == [];
    assert Run(s, [a]) == Step(Run(s, []), a.call, a.now);
  }

  lemma ReplayOfTwo(m: map<Id, Session>, x: Event, y: Event)
    ensures Replay(m, [x, y]) == ReplicaStep(ReplicaStep(m, x), y)
  {
    assert [x, y][..1] == [x] && [x][..0] == [];
    assert Replay(m, [x]) == ReplicaStep(Replay(m, []), x);
  }
}
