/** What every run of the daemon keeps: the schema's rules, write authority, and the
    exact trace that a refused call leaves. */
module Integrity {
  import opened Protocol
  import opened Daemon

  /** Primary keys and the unique tmux binding. */
  ghost predicate ValidRows(rows: map<Id, Session>) {
    && (forall id | id in rows :: rows[id].id == id)
    && (forall a, b | a in rows && b in rows && a != b :: !SamePane(rows[a], rows[b]))
  }

  /** The foreign key and the rising event ids. */
  ghost predicate ValidEvents(s: State) {
    && (forall i | 0 <= i < |s.events| :: s.events[i].session in s.rows && s.events[i].id < s.nextEventId)
    && (forall i, j | 0 <= i < j < |s.events| :: s.events[i].id < s.events[j].id)
  }

  ghost predicate Valid(s: State) {
    ValidRows(s.rows) && ValidEvents(s)
  }

  /** An event never describes a change the tables could not take. */
  ghost predicate Applicable(rows: map<Id, Session>, e: Event) {
    && (Inserted(e).Some? ==> CanInsert(rows, Inserted(e).value))
    && (Patched(e).Some? ==> Patched(e).value in rows)
  }

  lemma EmittedApplicable(s: State, call: Call, now: Time)
    ensures var o := Respond(s, call, now);
            o.emitted.Some? ==> Applicable(s.rows, o.emitted.value)
  {
  }

  lemma EffectValid(rows: map<Id, Session>, e: Event, at: Time)
    requires ValidRows(rows) && Applicable(rows, e)
    ensures ValidRows(Effect(rows, e, at))
    ensures rows.Keys <= Effect(rows, e, at).Keys
  {
    if Inserted(e).Some? {
      var s := Inserted(e).value;
      assert forall k | k in rows :: SamePane(rows[k], s) == SamePane(s, rows[k]);
    } else if Patched(e).Some? {
      var id := Patched(e).value;
      var row := RowEffect(rows[id], e, at);
      assert row.id == id && row.tmuxSession == rows[id].tmuxSession && row.tmuxPaneId == rows[id].tmuxPaneId;
      assert forall k | k in rows :: SamePane(rows[k], row) == SamePane(rows[k], rows[id]);
      assert forall k | k in rows :: SamePane(row, rows[k]) == SamePane(rows[id], rows[k]);
    }
  }

  lemma AuditedSessionExists(s: State, call: Call, now: Time)
    ensures var o := Respond(s, call, now); o.audit.Some? ==> o.audit.value.0 in s.rows
  {
  }

  lemma StepValid(s: State, call: Call, now: Time)
    requires Valid(s)
    ensures Valid(Step(s, call, now))
  {
    var o := Respond(s, call, now);
    var next := Commit(s, o);
    EmittedApplicable(s, call, now);
    AuditedSessionExists(s, call, now);
    if o.emitted.Some? {
      EffectValid(s.rows, o.emitted.value, o.at);
    }
    assert s.rows.Keys <= next.rows.Keys;
    assert ValidEvents(next);
  }

  /** Store integrity holds in every reachable state. */
  lemma {:induction false} RunValid(s: State, inputs: seq<Input>)
    requires Valid(s)
    ensures Valid(Run(s, inputs))
    decreases |inputs|
  {
    if inputs != [] {
      var last := |inputs| - 1;
      RunValid(s, inputs[..last]);
      StepValid(Run(s, inputs[..last]), inputs[last].call, inputs[last].now);
    }
  }

  lemma {:induction false} RunAppend(s: State, a: seq<Input>, b: seq<Input>)
    ensures Run(s, a + b) == Run(Run(s, a), b)
    decreases |b|
  {
    if b == [] {
      assert a + b == a;
    } else {
      var last := |b| - 1;
      RunAppend(s, a, b[..last]);
      assert (a + b)[..|a + b| - 1] == a + b[..last];
    }
  }

  /** Everything but the audit trail. */
  ghost predicate SameCore(a: State, b: State) {
    a.rows == b.rows && a.plugins == b.plugins && a.log == b.log && a.shutdown == b.shutdown
  }

  lemma RefusedStep(s: State, call: Call, now: Time)
    requires Respond(s, call, now).reply.Err?
    ensures SameCore(Step(s, call, now), s)
  {
  }

  lemma StepRespectsCore(a: State, b: State, call: Call, now: Time)
    requires SameCore(a, b)
    ensures SameCore(Step(a, call, now), Step(b, call, now))
    ensures Respond(a, call, now).reply.Err? == Respond(b, call, now).reply.Err?
  {
    var oa, ob := Respond(a, call, now), Respond(b, call, now);
    assert oa.emitted == ob.emitted && oa.at == ob.at;
  }

  /** An owner's report on its session that is found unusable only after its audit row was
      written: an unknown status, or a token count that does not fit the column. */
  predicate LateRefused(s: State, call: Call) {
    match call
    case FromPlugin(plugin, ReportEvent(Some(id), Some(report), _)) =>
      id in s.rows && s.rows[id].plugin == Some(plugin) && LateRefusal(report).Some?
    case _ => false
  }

  /** The whole trace of a refused call: none at all if and only if it is not refused late,
      and otherwise exactly one audit row. A late refusal is a refusal. */
  lemma RefusalTrace(s: State, call: Call, now: Time)
    ensures LateRefused(s, call) ==> Respond(s, call, now).reply.Err?
    ensures Respond(s, call, now).reply.Err? ==> (Step(s, call, now) == s <==> !LateRefused(s, call))
    ensures LateRefused(s, call) ==>
              Step(s, call, now) ==
                s.(events := s.events + [EventRow(s.nextEventId, call.request.id.value, call.request.report.value)],
                   nextEventId := s.nextEventId + 1)
  {
  }

  /** For instance: an owner's report of a status outside the table. */
  lemma UnknownStatusIsAudited(row: Session, now: Time)
    requires row.plugin == Some("opencode")
    ensures var s := State(map[row.id := row], [], 1, map[], [], false);
            var report := ReportStatus(UnknownStatus);
            var call := FromPlugin("opencode", ReportEvent(Some(row.id), Some(report), None));
            && Respond(s, call, now).reply == Err(InvalidParams)
            && Step(s, call, now) == s.(events := [EventRow(1, row.id, report)], nextEventId := 2)
  {
    var s := State(map[row.id := row], [], 1, map[], [], false);
    var call := FromPlugin("opencode", ReportEvent(Some(row.id), Some(ReportStatus(UnknownStatus)), None));
    assert LateRefused(s, call);
    RefusalTrace(s, call, now);
  }

  /** The calls of a run that were not refused. */
  function Honoured(s: State, inputs: seq<Input>): seq<Input> {
    if inputs == [] then []
    else
      var last := |inputs| - 1;
      var before := inputs[..last];
      var refused := Respond(Run(s, before), inputs[last].call, inputs[last].now).reply.Err?;
      Honoured(s, before) + if refused then [] else [inputs[last]]
  }

  /** Refused calls change nothing but the audit table: striking all of them out of a run
      leaves the rows, the plugin table, the bus log and the shutdown flag as they were. */
  lemma {:induction false} RefusedCallsLeaveNoTrace(s: State, inputs: seq<Input>)
    ensures SameCore(Run(s, inputs), Run(s, Honoured(s, inputs)))
    decreases |inputs|
  {
    if inputs != [] {
      var last := |inputs| - 1;
      var before, input := inputs[..last], inputs[last];
      RefusedCallsLeaveNoTrace(s, before);
      var was := Run(s, before);
      if Respond(was, input.call, input.now).reply.Err? {
        RefusedStep(was, input.call, input.now);
        assert Honoured(s, inputs) == Honoured(s, before);
      } else {
        var kept := Honoured(s, before);
        assert (kept + [input])[..|kept + [input]| - 1] == kept;
        StepRespectsCore(was, Run(s, kept), input.call, input.now);
      }
    }
  }

  // ---------------------------------------------------------------- write authority

  /** The columns no call ever rewrites; `plugin` decides who may write the others. */
  function Identity(r: Session): Session {
    r.(displayName := "", status := Starting, currentTask := None, usedTokens := None,
       totalTokens := None, costUsd := None, lastEventAt := None, finishedAt := None)
  }

  /** The columns under write authority. */
  function Work(r: Session): (SessionStatus, Option<string>, Option<nat>, Option<nat>, Option<real>, Option<Time>) {
    (r.status, r.currentTask, r.usedTokens, r.totalTokens, r.costUsd, r.finishedAt)
  }

  /** The only calls that may touch a row's work columns: its owner's report, and the
      user's dismiss-error or kill. */
  predicate Authorised(row: Session, call: Call) {
    match call
    case FromPlugin(plugin, ReportEvent(id, _, _)) => id == Some(row.id) && row.plugin == Some(plugin)
    case Control(DismissError(id)) => id == Some(row.id)
    case Control(Kill(id)) => id == Some(row.id)
    case _ => false
  }

  lemma StepAuthority(s: State, call: Call, now: Time, id: Id)
    requires Valid(s) && id in s.rows
    ensures id in Step(s, call, now).rows
    ensures Identity(Step(s, call, now).rows[id]) == Identity(s.rows[id])
    ensures !Authorised(s.rows[id], call) ==> Work(Step(s, call, now).rows[id]) == Work(s.rows[id])
  {
    EmittedApplicable(s, call, now);
  }

  /** Over a whole run a row keeps its identity, owner included, and its status, task,
      usage and finish change only if an authorised call was made on the way. */
  lemma {:induction false} RunAuthority(s: State, inputs: seq<Input>, id: Id)
    requires Valid(s) && id in s.rows
    ensures id in Run(s, inputs).rows
    ensures Identity(Run(s, inputs).rows[id]) == Identity(s.rows[id])
    ensures Work(Run(s, inputs).rows[id]) != Work(s.rows[id]) ==>
              exists k :: 0 <= k < |inputs| && Authorised(s.rows[id], inputs[k].call)
    decreases |inputs|
  {
    if inputs != [] {
      var last := |inputs| - 1;
      var before := inputs[..last];
      RunAuthority(s, before, id);
      RunValid(s, before);
      var was := Run(s, before);
      StepAuthority(was, inputs[last].call, inputs[last].now, id);
      assert was.rows[id].id == s.rows[id].id && was.rows[id].plugin == s.rows[id].plugin by {
        assert Identity(was.rows[id]).id == was.rows[id].id && Identity(s.rows[id]).id == s.rows[id].id;
        assert Identity(was.rows[id]).plugin == was.rows[id].plugin;
        assert Identity(s.rows[id]).plugin == s.rows[id].plugin;
      }
      assert Authorised(was.rows[id], inputs[last].call) == Authorised(s.rows[id], inputs[last].call);
      if Work(Run(s, inputs).rows[id]) != Work(s.rows[id]) {
        if Work(was.rows[id]) != Work(s.rows[id]) {
          var k :| 0 <= k < |before| && Authorised(s.rows[id], before[k].call);
          assert inputs[k] == before[k];
        }
      }
    }
  }

  /** A row without an owner that is still starting, or over. */
  predicate Unowned(r: Session) {
    r.plugin.None? && (r.status == Starting || r.status == Finished)
  }

  lemma StepUnowned(s: State, call: Call, now: Time, id: Id)
    requires Valid(s) && id in Step(s, call, now).rows
    requires id in s.rows ==> s.rows[id].plugin.None? ==> Unowned(s.rows[id])
    ensures Step(s, call, now).rows[id].plugin.None? ==> Unowned(Step(s, call, now).rows[id])
  {
    EmittedApplicable(s, call, now);
  }

  /** So a session made by `session.create`, which no plugin owns, is never seen in any
      status but starting or finished, unless it was left otherwise before boot. */
  lemma {:induction false} CreatedSessionsNeverWork(s: State, inputs: seq<Input>, id: Id)
    requires Valid(s) && id in Run(s, inputs).rows && Run(s, inputs).rows[id].plugin.None?
    requires id in s.rows ==> Unowned(s.rows[id])
    ensures Unowned(Run(s, inputs).rows[id])
    decreases |inputs|
  {
    if inputs != [] {
      var last := |inputs| - 1;
      var before := inputs[..last];
      RunValid(s, before);
      var was := Run(s, before);
      if id in was.rows {
        StepAuthority(was, inputs[last].call, inputs[last].now, id);
        assert Identity(was.rows[id]).plugin == was.rows[id].plugin;
        assert Identity(Run(s, inputs).rows[id]).plugin == Run(s, inputs).rows[id].plugin;
        CreatedSessionsNeverWork(s, before, id);
      }
      StepUnowned(was, inputs[last].call, inputs[last].now, id);
    }
  }

  // ------------------------------------------------------------------- which panes are free

  predicate HoldsPane(rows: map<Id, Session>, session: string, pane: string) {
    exists k :: k in rows && InPane(rows[k], session, pane)
  }

  predicate InPane(row: Session, session: string, pane: string) {
    row.tmuxSession == Some(session) && row.tmuxPaneId == Some(pane)
  }

  predicate DiscoversPane(e: Event, session: string, pane: string) {
    e.SessionDiscovered? && InPane(e.session, session, pane)
  }

  /** Some session was discovered in the pane. */
  predicate PaneDiscovered(log: seq<Event>, session: string, pane: string) {
    exists i :: 0 <= i < |log| && DiscoversPane(log[i], session, pane)
  }

  lemma DiscoveredSnoc(log: seq<Event>, e: Event, session: string, pane: string)
    ensures PaneDiscovered(log + [e], session, pane) <==>
              PaneDiscovered(log, session, pane) || DiscoversPane(e, session, pane)
  {
    var all := log + [e];
    if i :| 0 <= i < |log| && DiscoversPane(log[i], session, pane) {
      assert DiscoversPane(all[i], session, pane);
    }
    if DiscoversPane(e, session, pane) {
      assert DiscoversPane(all[|log|], session, pane);
    }
  }

  /** A published change binds no pane but that of a discovered session, and frees none. */
  lemma EffectOnPane(rows: map<Id, Session>, e: Event, at: Time, session: string, pane: string)
    requires Applicable(rows, e) && (e.SessionCreated? ==> e.session.tmuxSession.None?)
    ensures HoldsPane(Effect(rows, e, at), session, pane) <==>
              HoldsPane(rows, session, pane) || DiscoversPane(e, session, pane)
  {
    var after := Effect(rows, e, at);
    if k :| k in rows && InPane(rows[k], session, pane) {
      assert k in after && InPane(after[k], session, pane);
    }
    if DiscoversPane(e, session, pane) {
      assert InPane(after[e.session.id], session, pane);
    }
    if k :| k in after && InPane(after[k], session, pane) {
      if k in rows {
        assert InPane(rows[k], session, pane);
      }
    }
  }

  lemma CreatedUnbound(s: State, call: Call, now: Time)
    ensures var o := Respond(s, call, now);
            o.emitted.Some? && o.emitted.value.SessionCreated? ==> o.emitted.value.session.tmuxSession.None?
  {
  }

  lemma {:induction false} RunHoldsPane(boot: State, inputs: seq<Input>, session: string, pane: string)
    requires boot.log == []
    ensures var s := Run(boot, inputs);
            HoldsPane(s.rows, session, pane) <==>
              HoldsPane(boot.rows, session, pane) || PaneDiscovered(s.log, session, pane)
    decreases |inputs|
  {
    if inputs != [] {
      var last := |inputs| - 1;
      RunHoldsPane(boot, inputs[..last], session, pane);
      var s := Run(boot, inputs[..last]);
      var o := Respond(s, inputs[last].call, inputs[last].now);
      if o.emitted.Some? {
        EmittedApplicable(s, inputs[last].call, inputs[last].now);
        CreatedUnbound(s, inputs[last].call, inputs[last].now);
        EffectOnPane(s.rows, o.emitted.value, o.at, session, pane);
        DiscoveredSnoc(s.log, o.emitted.value, session, pane);
      }
    }
  }

  /** One discover call: it is accepted exactly from a known plugin, with a directory, under a
      new id, and for a pane that no row holds. */
  lemma DiscoverAccepted(s: State, plugin: string, session: string, pane: string, dir: Option<Dir>,
                         newId: Id, now: Time)
    ensures Respond(s, FromPlugin(plugin, Discover(Some(session), Some(pane), dir, newId)), now).reply.Ok? <==>
              AgentOf(plugin).Some? && dir.Some? && newId !in s.rows && !HoldsPane(s.rows, session, pane)
  {
    if AgentOf(plugin).Some? && dir.Some? {
      var row := NewRow(newId, AgentOf(plugin).value, dir.value.path, Some(session), Some(pane), NameOf(dir.value),
                        Discovered, now, Some(plugin));
      assert forall k | k in s.rows :: SamePane(s.rows[k], row) <==> InPane(s.rows[k], session, pane);
    }
  }

  /** When a pane can be discovered. After any run a discover call from a known plugin, with a
      directory and a fresh id, is accepted if and only if no row of the boot holds the pane
      and no session has been discovered in it since. Whether those sessions have finished
      does not matter. */
  lemma RediscoveryExact(boot: State, inputs: seq<Input>, plugin: string, session: string, pane: string,
                         dir: Option<Dir>, newId: Id, now: Time)
    requires boot.log == []
    ensures var later := Run(boot, inputs);
            var call := FromPlugin(plugin, Discover(Some(session), Some(pane), dir, newId));
            Respond(later, call, now).reply.Ok? <==>
              && AgentOf(plugin).Some? && dir.Some? && newId !in later.rows
              && !HoldsPane(boot.rows, session, pane) && !PaneDiscovered(later.log, session, pane)
  {
    RunHoldsPane(boot, inputs, session, pane);
    DiscoverAccepted(Run(boot, inputs), plugin, session, pane, dir, newId, now);
  }

  /** A pane that ever held a session cannot be discovered again before the next boot, not
      even after that session finished: its row keeps the binding, and the unique index
      refuses the new one. */
  lemma RediscoveryRefused(s: State, inputs: seq<Input>, id: Id, plugin: string, dir: Option<Dir>,
                           newId: Id, now: Time)
    requires Valid(s) && id in s.rows && Bound(s.rows[id])
    ensures var call := FromPlugin(plugin, Discover(s.rows[id].tmuxSession, s.rows[id].tmuxPaneId, dir, newId));
            var later := Run(s, inputs);
            && Respond(later, call, now).reply.Err?
            && SameCore(Step(later, call, now), later)
  {
    RunAuthority(s, inputs, id);
    var later := Run(s, inputs);
    assert SamePane(later.rows[id], s.rows[id]) by {
      assert Identity(later.rows[id]).tmuxSession == later.rows[id].tmuxSession;
      assert Identity(later.rows[id]).tmuxPaneId == later.rows[id].tmuxPaneId;
      assert Identity(s.rows[id]).tmuxSession == s.rows[id].tmuxSession;
      assert Identity(s.rows[id]).tmuxPaneId == s.rows[id].tmuxPaneId;
    }
  }
}
