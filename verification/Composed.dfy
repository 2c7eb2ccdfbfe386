/** Watchers driving the daemon. Nothing in the store stops a late report from reviving a
    finished session; that it never happens is a property of the whole system. */
module Composed {
  import opened Protocol
  import opened Daemon
  import opened Integrity
  import opened Discovery
  import opened Watcher

  /** A watcher of `plugin`. It polls the panes it found at startup, and no others. */
  datatype Agent = Agent(plugin: string, startKeys: set<string>, watch: Watch)

  /** Any number of watchers, of any plugins; one that crashed just never moves again. */
  datatype System = System(daemon: State, agents: seq<Agent>)

  /** A call can get lost on the way to the daemon, or its answer on the way back. */
  datatype Link = Whole | RequestLost | ReplyLost

  datatype Act =
    | User(request: ControlRequest)
    | Spawn(plugin: string, startKeys: set<string>)
    | Chat(plugin: string, talk: PluginRequest)   // hello, heartbeat, bye
    | Find(agent: nat, session: string, pane: string, dir: Dir, newId: Id, link: Link)
    | See(agent: nat, key: string, status: PaneStatus, ts: Option<Time>, link: Link)
    | Lose(agent: nat, key: string, ts: Option<Time>, link: Link)

  function Wire(status: PaneStatus): SessionStatus {
    match status
    case PaneStarting => Starting
    case PaneWorking => Working
    case PaneIdle => Idle
    case PaneErrored => Errored
  }

  /** The daemon's side of a call over a link. */
  function Send(s: State, call: Call, now: Time, link: Link): State {
    if link == RequestLost then s else Step(s, call, now)
  }

  /** The session id the watcher reads out of the answer to a discover call. */
  function AnswerOf(s: State, call: Call, now: Time, link: Link): Option<Id> {
    if link == Whole then
      match Respond(s, call, now).reply
      case Ok(NewSession(id)) => Some(id)
      case _ => None
    else None
  }

  function FindCall(plugin: string, session: string, pane: string, dir: Dir, newId: Id): Call {
    FromPlugin(plugin, Discover(Some(session), Some(pane), Some(dir), newId))
  }

  function SeeCall(plugin: string, id: Id, status: PaneStatus, ts: Option<Time>): Call {
    FromPlugin(plugin, ReportEvent(Some(id), Some(ReportStatus(KnownStatus(Wire(status)))), ts))
  }

  function LoseCall(plugin: string, id: Id, ts: Option<Time>): Call {
    FromPlugin(plugin, ReportEvent(Some(id), Some(ReportFinished), ts))
  }

  function Moved(sys: System, i: nat, m: Move): seq<Agent>
    requires i < |sys.agents|
  {
    sys.agents[i := sys.agents[i].(watch := Apply(sys.agents[i].watch, m))]
  }

  function SysStep(sys: System, act: Act, now: Time): System {
    match act
    case User(request) => System(Step(sys.daemon, Control(request), now), sys.agents)
    case Spawn(plugin, startKeys) => System(sys.daemon, sys.agents + [Agent(plugin, startKeys, Watch(map[], []))])
    case Chat(plugin, talk) =>
      if talk.Discover? || talk.ReportEvent? then sys
      else System(Step(sys.daemon, FromPlugin(plugin, talk), now), sys.agents)
    case Find(i, session, pane, dir, newId, link) =>
      if i >= |sys.agents| then sys
      else
        var call := FindCall(sys.agents[i].plugin, session, pane, dir, newId);
        System(Send(sys.daemon, call, now, link),
               Moved(sys, i, Learn(PaneKey(session, pane), AnswerOf(sys.daemon, call, now, link))))
    case See(i, key, status, ts, link) =>
      if i >= |sys.agents| || key !in sys.agents[i].watch.known || sys.agents[i].watch.known[key].status == status
         || status == PaneStarting || key !in sys.agents[i].startKeys then sys
      else
        var call := SeeCall(sys.agents[i].plugin, sys.agents[i].watch.known[key].id, status, ts);
        System(Send(sys.daemon, call, now, link), Moved(sys, i, Observe(key, status)))
    case Lose(i, key, ts, link) =>
      if i >= |sys.agents| || key !in sys.agents[i].watch.known then sys
      else System(Send(sys.daemon, LoseCall(sys.agents[i].plugin, sys.agents[i].watch.known[key].id, ts), now, link),
                  Moved(sys, i, Forget(key)))
  }

  function SysRun(sys: System, acts: seq<(Act, Time)>): System {
    if acts == [] then sys
    else SysStep(SysRun(sys, acts[..|acts| - 1]), acts[|acts| - 1].0, acts[|acts| - 1].1)
  }

  // ------------------------------------------------------------------- the invariant

  predicate Killed(s: State, id: Id) {
    SessionKilled(id) in s.log
  }

  /** A session still being watched has not been finished, except by a kill. */
  predicate Alive(s: State, id: Id) {
    id in s.rows && (s.rows[id].status != Finished || Killed(s, id))
  }

  ghost predicate Owns(s: State, a: Agent) {
    forall id | id in Issued(a.watch.sent) :: id in s.rows && s.rows[id].plugin == Some(a.plugin)
  }

  ghost predicate Watches(s: State, a: Agent) {
    forall k | k in a.watch.known :: Alive(s, a.watch.known[k].id)
  }

  ghost predicate Good(s: State, a: Agent) {
    Inv(a.watch) && Owns(s, a) && Watches(s, a)
  }

  ghost predicate Separate(agents: seq<Agent>) {
    forall i, j | 0 <= i < j < |agents| :: Issued(agents[i].watch.sent) !! Issued(agents[j].watch.sent)
  }

  ghost predicate SysInv(sys: System) {
    Valid(sys.daemon) && Separate(sys.agents) && forall a | a in sys.agents :: Good(sys.daemon, a)
  }

  /** Between two daemon states: owners stay, and what was alive stays alive, with at most
      one exception. */
  ghost predicate Steady(s: State, t: State, except: Option<Id>) {
    && (forall id | id in s.rows :: id in t.rows && t.rows[id].plugin == s.rows[id].plugin)
    && (forall id: Id | Alive(s, id) && except != Some(id) :: Alive(t, id))
  }

  /** The session a call finishes without killing it. */
  function FinishedBy(call: Call): Option<Id> {
    match call
    case FromPlugin(_, ReportEvent(id, Some(ReportFinished), _)) => id
    case FromPlugin(_, ReportEvent(id, Some(ReportStatus(KnownStatus(Finished))), _)) => id
    case _ => None
  }

  lemma CallSteady(s: State, call: Call, now: Time, id: Id)
    requires Valid(s) && id in s.rows
    ensures var t := Step(s, call, now);
            && id in t.rows && t.rows[id].plugin == s.rows[id].plugin
            && (Alive(s, id) && FinishedBy(call) != Some(id) ==> Alive(t, id))
  {
    EmittedApplicable(s, call, now);
    assert forall e | e in s.log :: e in Step(s, call, now).log;
  }

  lemma SendSteady(s: State, call: Call, now: Time, link: Link)
    requires Valid(s)
    ensures Valid(Send(s, call, now, link))
    ensures Steady(s, Send(s, call, now, link), FinishedBy(call))
  {
    StepValid(s, call, now);
    forall id | id in s.rows
      ensures id in Send(s, call, now, link).rows && Send(s, call, now, link).rows[id].plugin == s.rows[id].plugin
      ensures Alive(s, id) && FinishedBy(call) != Some(id) ==> Alive(Send(s, call, now, link), id)
    {
      CallSteady(s, call, now, id);
    }
  }

  lemma GoodStays(s: State, t: State, a: Agent, except: Option<Id>)
    requires Good(s, a) && Steady(s, t, except)
    requires forall k | k in a.watch.known :: except != Some(a.watch.known[k].id)
    ensures Good(t, a)
  {
  }

  /** A step of agent `i` that sends `call` and makes the move `m`. */
  lemma AgentStep(sys: System, i: nat, call: Call, m: Move, now: Time, link: Link)
    requires SysInv(sys) && i < |sys.agents|
    requires var t := Send(sys.daemon, call, now, link);
             && Good(t, Moved(sys, i, m)[i])
             && Issued(Moved(sys, i, m)[i].watch.sent) * sys.daemon.rows.Keys <= Issued(sys.agents[i].watch.sent)
    requires FinishedBy(call).Some? ==> FinishedBy(call).value in Issued(sys.agents[i].watch.sent)
    ensures SysInv(System(Send(sys.daemon, call, now, link), Moved(sys, i, m)))
  {
    var t, agents := Send(sys.daemon, call, now, link), Moved(sys, i, m);
    SendSteady(sys.daemon, call, now, link);
    forall j | 0 <= j < |agents| ensures Good(t, agents[j]) {
      if j != i {
        var a := sys.agents[j];
        assert Good(sys.daemon, a);
        assert Issued(a.watch.sent) !! Issued(sys.agents[i].watch.sent);
        GoodStays(sys.daemon, t, a, FinishedBy(call));
      }
    }
    forall j | 0 <= j < |agents| && j != i
      ensures Issued(agents[j].watch.sent) !! Issued(agents[i].watch.sent)
    {
      assert Good(sys.daemon, sys.agents[j]);
      assert Issued(sys.agents[j].watch.sent) <= sys.daemon.rows.Keys;
      assert Issued(sys.agents[j].watch.sent) !! Issued(sys.agents[i].watch.sent);
    }
    forall j, k | 0 <= j < k < |agents| ensures Issued(agents[j].watch.sent) !! Issued(agents[k].watch.sent) {
      if j != i && k != i {
        assert agents[j] == sys.agents[j] && agents[k] == sys.agents[k];
      }
    }
  }

  lemma GoodMove(t: State, a: Agent, m: Move)
    requires Inv(a.watch) && Proper(a.watch, m)
    requires var b := a.(watch := Apply(a.watch, m));
             Owns(t, b) && Watches(t, b)
    ensures Good(t, a.(watch := Apply(a.watch, m)))
  {
    MoveKeepsInv(a.watch, m);
  }

  /** The session is new in `t` and belongs to `plugin`. */
  predicate Brought(s: State, t: State, id: Id, plugin: string) {
    id !in s.rows && id in t.rows && t.rows[id].status == Starting && t.rows[id].plugin == Some(plugin)
  }

  lemma NewSessionRow(s: State, plugin: string, session: string, pane: string, dir: Dir, newId: Id,
                      link: Link, now: Time)
    ensures var call := FindCall(plugin, session, pane, dir, newId);
            var answer := AnswerOf(s, call, now, link);
            var t := Send(s, call, now, link);
            answer.Some? ==> Brought(s, t, answer.value, plugin)
  {
  }

  /** An answered discover call adds one owned and running session. */
  lemma FindOwned(t: State, a: Agent, key: string, answer: Option<Id>)
    requires Owns(t, a) && Watches(t, a)
    requires answer.Some? ==> Alive(t, answer.value) && t.rows[answer.value].plugin == Some(a.plugin)
    ensures var b := a.(watch := Apply(a.watch, Learn(key, answer)));
            && Owns(t, b) && Watches(t, b)
            && Issued(b.watch.sent) == Issued(a.watch.sent) + if answer.Some? then {answer.value} else {}
  {
    SentSnoc(a.watch.sent, Asked(key, answer), 0);
  }

  lemma FindGood(s: State, t: State, a: Agent, key: string, answer: Option<Id>)
    requires Good(s, a) && Good(t, a)
    requires answer.Some? ==> Brought(s, t, answer.value, a.plugin)
    ensures var b := a.(watch := Apply(a.watch, Learn(key, answer)));
            Good(t, b) && Issued(b.watch.sent) * s.rows.Keys <= Issued(a.watch.sent)
  {
    assert answer.Some? ==> answer.value !in Issued(a.watch.sent);
    FindOwned(t, a, key, answer);
    GoodMove(t, a, Learn(key, answer));
  }

  lemma FindStep(sys: System, i: nat, session: string, pane: string, dir: Dir, newId: Id, link: Link, now: Time)
    requires SysInv(sys) && i < |sys.agents|
    ensures SysInv(SysStep(sys, Find(i, session, pane, dir, newId, link), now))
  {
    var s, a := sys.daemon, sys.agents[i];
    var call := FindCall(a.plugin, session, pane, dir, newId);
    var answer := AnswerOf(s, call, now, link);
    assert Good(s, a);
    SendSteady(s, call, now, link);
    GoodStays(s, Send(s, call, now, link), a, FinishedBy(call));
    NewSessionRow(s, a.plugin, session, pane, dir, newId, link, now);
    FindGood(s, Send(s, call, now, link), a, PaneKey(session, pane), answer);
    AgentStep(sys, i, call, Learn(PaneKey(session, pane), answer), now, link);
  }

  /** A move that leaves the sessions where they are, or drops one. */
  lemma KnownShrinks(t: State, a: Agent, m: Move, s: Sent)
    requires Owns(t, a) && s.Reported?
    requires Apply(a.watch, m).sent == a.watch.sent + [s]
    requires forall k | k in Apply(a.watch, m).known ::
      k in a.watch.known && Apply(a.watch, m).known[k].id == a.watch.known[k].id && Alive(t, a.watch.known[k].id)
    ensures var b := a.(watch := Apply(a.watch, m));
            Owns(t, b) && Watches(t, b) && Issued(b.watch.sent) == Issued(a.watch.sent)
  {
    SentSnoc(a.watch.sent, s, 0);
  }

  lemma SeeGood(t: State, a: Agent, key: string, status: PaneStatus)
    requires Good(t, a) && key in a.watch.known && status != PaneStarting && a.watch.known[key].status != status
    ensures var b := a.(watch := Apply(a.watch, Observe(key, status)));
            Good(t, b) && Issued(b.watch.sent) == Issued(a.watch.sent)
  {
    KnownShrinks(t, a, Observe(key, status), Reported(a.watch.known[key].id, Status(status)));
    GoodMove(t, a, Observe(key, status));
  }

  lemma AgentSurvives(s: State, a: Agent, call: Call, now: Time, link: Link)
    requires Valid(s) && Good(s, a) && FinishedBy(call).None?
    ensures Good(Send(s, call, now, link), a)
  {
    SendSteady(s, call, now, link);
    GoodStays(s, Send(s, call, now, link), a, None);
  }

  lemma SeeFinishesNothing(plugin: string, id: Id, status: PaneStatus, ts: Option<Time>)
    ensures FinishedBy(SeeCall(plugin, id, status, ts)).None?
  {
  }

  lemma SeeStep(sys: System, i: nat, key: string, status: PaneStatus, ts: Option<Time>, link: Link, now: Time)
    requires SysInv(sys)
    ensures SysInv(SysStep(sys, See(i, key, status, ts, link), now))
  {
    if i < |sys.agents| && key in sys.agents[i].watch.known && sys.agents[i].watch.known[key].status != status
       && status != PaneStarting && key in sys.agents[i].startKeys {
      var s, a := sys.daemon, sys.agents[i];
      assert Good(s, a);
      var call := SeeCall(a.plugin, a.watch.known[key].id, status, ts);
      SeeFinishesNothing(a.plugin, a.watch.known[key].id, status, ts);
      AgentSurvives(s, a, call, now, link);
      SeeGood(Send(s, call, now, link), a, key, status);
      AgentStep(sys, i, call, Observe(key, status), now, link);
    }
  }

  lemma LoseGood(s: State, t: State, a: Agent, key: string)
    requires Good(s, a) && key in a.watch.known && Steady(s, t, Some(a.watch.known[key].id))
    ensures var b := a.(watch := Apply(a.watch, Forget(key)));
            Good(t, b) && Issued(b.watch.sent) == Issued(a.watch.sent)
  {
    assert forall k | k in a.watch.known && k != key :: a.watch.known[k].id != a.watch.known[key].id;
    KnownShrinks(t, a, Forget(key), Reported(a.watch.known[key].id, Ended));
    GoodMove(t, a, Forget(key));
  }

  lemma LoseStep(sys: System, i: nat, key: string, ts: Option<Time>, link: Link, now: Time)
    requires SysInv(sys)
    ensures SysInv(SysStep(sys, Lose(i, key, ts, link), now))
  {
    if i < |sys.agents| && key in sys.agents[i].watch.known {
      var a := sys.agents[i];
      assert Good(sys.daemon, a);
      var call := LoseCall(a.plugin, a.watch.known[key].id, ts);
      SendSteady(sys.daemon, call, now, link);
      LoseGood(sys.daemon, Send(sys.daemon, call, now, link), a, key);
      AgentStep(sys, i, call, Forget(key), now, link);
    }
  }

  lemma DaemonStep(sys: System, call: Call, now: Time)
    requires SysInv(sys) && FinishedBy(call).None?
    ensures SysInv(System(Step(sys.daemon, call, now), sys.agents))
  {
    SendSteady(sys.daemon, call, now, Whole);
    forall a | a in sys.agents ensures Good(Step(sys.daemon, call, now), a) {
      GoodStays(sys.daemon, Step(sys.daemon, call, now), a, FinishedBy(call));
    }
  }

  lemma SpawnStep(sys: System, plugin: string, startKeys: set<string>)
    requires SysInv(sys)
    ensures SysInv(System(sys.daemon, sys.agents + [Agent(plugin, startKeys, Watch(map[], []))]))
  {
    assert Issued([]) == {};
    assert Good(sys.daemon, Agent(plugin, startKeys, Watch(map[], [])));
  }

  lemma SysStepInv(sys: System, act: Act, now: Time)
    requires SysInv(sys)
    ensures SysInv(SysStep(sys, act, now))
  {
    match act
    case User(request) => DaemonStep(sys, Control(request), now);
    case Spawn(plugin, startKeys) => SpawnStep(sys, plugin, startKeys);
    case Chat(plugin, talk) =>
      if !talk.Discover? && !talk.ReportEvent? {
        DaemonStep(sys, FromPlugin(plugin, talk), now);
      }
    case Find(i, session, pane, dir, newId, link) =>
      if i < |sys.agents| {
        FindStep(sys, i, session, pane, dir, newId, link, now);
      }
    case See(i, key, status, ts, link) => SeeStep(sys, i, key, status, ts, link, now);
    case Lose(i, key, ts, link) => LoseStep(sys, i, key, ts, link, now);
  }

  /** In every reachable state of the composed system each watcher's reports are disciplined,
      with no assumption about the daemon's answers; every session belongs to one watcher;
      and a session that is still being watched has not been finished, except by a kill. */
  lemma {:induction false} ReachableInv(boot: State, acts: seq<(Act, Time)>)
    requires Valid(boot)
    ensures SysInv(SysRun(System(boot, []), acts))
    decreases |acts|
  {
    if acts != [] {
      ReachableInv(boot, acts[..|acts| - 1]);
      SysStepInv(SysRun(System(boot, []), acts[..|acts| - 1]), acts[|acts| - 1].0, acts[|acts| - 1].1);
    }
  }

  // -------------------------------------------------------------- finished is final

  ghost predicate Unwatched(sys: System, id: Id) {
    forall a, k | a in sys.agents && k in a.watch.known :: a.watch.known[k].id != id
  }

  /** No watcher knows the session under a key that it polls. */
  ghost predicate Unpolled(sys: System, id: Id) {
    forall a, k | a in sys.agents && k in a.watch.known && k in a.startKeys :: a.watch.known[k].id != id
  }

  /** The call an act sends to the daemon. */
  function CallOf(sys: System, act: Act): Option<Call> {
    match act
    case User(request) => Some(Control(request))
    case Spawn(_, _) => None
    case Chat(plugin, talk) => if talk.Discover? || talk.ReportEvent? then None else Some(FromPlugin(plugin, talk))
    case Find(i, session, pane, dir, newId, _) =>
      if i >= |sys.agents| then None else Some(FindCall(sys.agents[i].plugin, session, pane, dir, newId))
    case See(i, key, status, ts, _) =>
      if i >= |sys.agents| || key !in sys.agents[i].watch.known || sys.agents[i].watch.known[key].status == status
         || status == PaneStarting || key !in sys.agents[i].startKeys then None
      else Some(SeeCall(sys.agents[i].plugin, sys.agents[i].watch.known[key].id, status, ts))
    case Lose(i, key, ts, _) =>
      if i >= |sys.agents| || key !in sys.agents[i].watch.known then None
      else Some(LoseCall(sys.agents[i].plugin, sys.agents[i].watch.known[key].id, ts))
  }

  function LinkOf(act: Act): Link {
    if act.Find? || act.See? || act.Lose? then act.link else Whole
  }

  lemma DaemonOf(sys: System, act: Act, now: Time)
    ensures SysStep(sys, act, now).daemon ==
              if CallOf(sys, act).Some? then Send(sys.daemon, CallOf(sys, act).value, now, LinkOf(act)) else sys.daemon
  {
  }

  predicate ReportsOn(call: Call, id: Id) {
    call.FromPlugin? && call.request.ReportEvent? && call.request.id == Some(id)
  }

  lemma UnwatchedSilent(sys: System, act: Act, id: Id)
    requires Unwatched(sys, id) && CallOf(sys, act).Some?
    ensures !ReportsOn(CallOf(sys, act).value, id)
  {
    if act.See? || act.Lose? {
      assert sys.agents[act.agent] in sys.agents;
    }
  }

  lemma UnpolledSilent(sys: System, act: Act, id: Id)
    requires Unpolled(sys, id) && CallOf(sys, act).Some? && ReportsOn(CallOf(sys, act).value, id)
    ensures CallOf(sys, act).value.request.report == Some(ReportFinished)
  {
  }

  lemma MovedUnwatched(sys: System, i: nat, m: Move, id: Id, t: State)
    requires i < |sys.agents| && (m.Learn? ==> m.answer != Some(id))
    ensures Unwatched(sys, id) ==> Unwatched(System(t, Moved(sys, i, m)), id)
    ensures Unpolled(sys, id) ==> Unpolled(System(t, Moved(sys, i, m)), id)
  {
    var a, b := sys.agents[i], Moved(sys, i, m)[i];
    assert a in sys.agents;
    forall k | k in b.watch.known && b.watch.known[k].id == id
      ensures k in a.watch.known && a.watch.known[k].id == id
    {
    }
    forall j | 0 <= j < |Moved(sys, i, m)| && j != i ensures Moved(sys, i, m)[j] in sys.agents {
      assert Moved(sys, i, m)[j] == sys.agents[j];
    }
  }

  /** No watcher ever learns of a session that is already a row. */
  lemma NeverLearned(sys: System, act: Act, now: Time, id: Id)
    requires id in sys.daemon.rows
    ensures Unwatched(sys, id) ==> Unwatched(SysStep(sys, act, now), id)
    ensures Unpolled(sys, id) ==> Unpolled(SysStep(sys, act, now), id)
  {
    var t := SysStep(sys, act, now).daemon;
    match act
    case User(request) =>
    case Spawn(plugin, startKeys) =>
    case Chat(plugin, talk) =>
    case Find(i, session, pane, dir, newId, link) =>
      if i < |sys.agents| {
        var call := FindCall(sys.agents[i].plugin, session, pane, dir, newId);
        NewSessionRow(sys.daemon, sys.agents[i].plugin, session, pane, dir, newId, link, now);
        MovedUnwatched(sys, i, Learn(PaneKey(session, pane), AnswerOf(sys.daemon, call, now, link)), id, t);
      }
    case See(i, key, status, ts, link) =>
      if CallOf(sys, act).Some? {
        MovedUnwatched(sys, i, Observe(key, status), id, t);
      }
    case Lose(i, key, ts, link) =>
      if CallOf(sys, act).Some? {
        MovedUnwatched(sys, i, Forget(key), id, t);
      }
  }

  lemma RowStays(sys: System, act: Act, now: Time, id: Id)
    requires Valid(sys.daemon) && id in sys.daemon.rows
    ensures id in SysStep(sys, act, now).daemon.rows
  {
    DaemonOf(sys, act, now);
    if CallOf(sys, act).Some? {
      StepAuthority(sys.daemon, CallOf(sys, act).value, now, id);
    }
  }

  lemma {:induction false} StaysUnwatched(sys: System, acts: seq<(Act, Time)>, id: Id)
    requires SysInv(sys) && Unwatched(sys, id) && id in sys.daemon.rows
    ensures var end := SysRun(sys, acts);
            SysInv(end) && Unwatched(end, id) && id in end.daemon.rows
    decreases |acts|
  {
    if acts != [] {
      var last := acts[|acts| - 1];
      var mid := SysRun(sys, acts[..|acts| - 1]);
      StaysUnwatched(sys, acts[..|acts| - 1], id);
      SysStepInv(mid, last.0, last.1);
      NeverLearned(mid, last.0, last.1, id);
      RowStays(mid, last.0, last.1, id);
    }
  }

  /** A session that survives a restart of the daemon is never watched again. Its pane cannot
      be discovered, so whatever users and watchers do, it stays a row, no watcher ever knows
      it, and no report about it is ever sent. */
  lemma SurvivorsUnwatched(boot: State, acts: seq<(Act, Time)>, act: Act, id: Id)
    requires Valid(boot) && id in boot.rows
    ensures var end := SysRun(System(boot, []), acts);
            && id in end.daemon.rows && Unwatched(end, id)
            && (CallOf(end, act).Some? ==> !ReportsOn(CallOf(end, act).value, id))
  {
    ReachableInv(boot, []);
    StaysUnwatched(System(boot, []), acts, id);
    var end := SysRun(System(boot, []), acts);
    if CallOf(end, act).Some? {
      UnwatchedSilent(end, act, id);
    }
  }

  /** All its work fields are as they were. */
  predicate Kept(s: State, t: State, id: Id) {
    id in s.rows && id in t.rows && Work(t.rows[id]) == Work(s.rows[id])
  }

  /** Calls that cannot touch a finished session that no one watches. */
  lemma FrozenCall(s: State, call: Call, now: Time, link: Link, id: Id)
    requires Valid(s) && id in s.rows && s.rows[id].status == Finished && !ReportsOn(call, id)
    ensures Kept(s, Send(s, call, now, link), id)
  {
    StepAuthority(s, call, now, id);
  }

  lemma FrozenStep(sys: System, act: Act, now: Time, id: Id)
    requires Valid(sys.daemon) && Unwatched(sys, id) && id in sys.daemon.rows && sys.daemon.rows[id].status == Finished
    ensures Kept(sys.daemon, SysStep(sys, act, now).daemon, id)
  {
    DaemonOf(sys, act, now);
    if CallOf(sys, act).Some? {
      UnwatchedSilent(sys, act, id);
      FrozenCall(sys.daemon, CallOf(sys, act).value, now, LinkOf(act), id);
    }
  }

  lemma {:induction false} Frozen(sys: System, acts: seq<(Act, Time)>, id: Id)
    requires SysInv(sys) && Unwatched(sys, id) && id in sys.daemon.rows && sys.daemon.rows[id].status == Finished
    ensures Kept(sys.daemon, SysRun(sys, acts).daemon, id)
    decreases |acts|
  {
    if acts != [] {
      var last := acts[|acts| - 1];
      Frozen(sys, acts[..|acts| - 1], id);
      StaysUnwatched(sys, acts[..|acts| - 1], id);
      FrozenStep(SysRun(sys, acts[..|acts| - 1]), last.0, last.1, id);
    }
  }

  /** Calls that leave a finished session finished. */
  lemma FinishedStays(s: State, call: Call, now: Time, link: Link, id: Id)
    requires Valid(s) && id in s.rows && s.rows[id].status == Finished
    requires ReportsOn(call, id) ==> call.request.report == Some(ReportFinished)
    ensures var t := Send(s, call, now, link); id in t.rows && t.rows[id].status == Finished
  {
    EmittedApplicable(s, call, now);
  }

  lemma {:induction false} StatusFrozen(sys: System, acts: seq<(Act, Time)>, id: Id)
    requires SysInv(sys) && Unpolled(sys, id) && id in sys.daemon.rows && sys.daemon.rows[id].status == Finished
    ensures var end := SysRun(sys, acts);
            SysInv(end) && Unpolled(end, id) && id in end.daemon.rows && end.daemon.rows[id].status == Finished
    decreases |acts|
  {
    if acts != [] {
      var last := acts[|acts| - 1];
      StatusFrozen(sys, acts[..|acts| - 1], id);
      SysStepInv(SysRun(sys, acts[..|acts| - 1]), last.0, last.1);
      StatusStep(SysRun(sys, acts[..|acts| - 1]), last.0, last.1, id);
    }
  }

  lemma StatusStep(sys: System, act: Act, now: Time, id: Id)
    requires Valid(sys.daemon) && Unpolled(sys, id) && id in sys.daemon.rows && sys.daemon.rows[id].status == Finished
    ensures var next := SysStep(sys, act, now);
            Unpolled(next, id) && id in next.daemon.rows && next.daemon.rows[id].status == Finished
  {
    NeverLearned(sys, act, now, id);
    DaemonOf(sys, act, now);
    if CallOf(sys, act).Some? {
      var call := CallOf(sys, act).value;
      if ReportsOn(call, id) {
        UnpolledSilent(sys, act, id);
      }
      FinishedStays(sys.daemon, call, now, LinkOf(act), id);
    }
  }

  /** What the daemon stores of each status a watcher reports. */
  lemma ReportedStatus(s: State, plugin: string, id: Id, status: PaneStatus, ts: Option<Time>, now: Time)
    requires id in s.rows && s.rows[id].plugin == Some(plugin)
    ensures var t := Step(s, SeeCall(plugin, id, status, ts), now);
            && id in t.rows
            && (t.rows[id].status == Starting <==> status == PaneStarting)
            && (t.rows[id].status == Working <==> status == PaneWorking)
            && (t.rows[id].status == Idle <==> status == PaneIdle)
            && (t.rows[id].status == Errored <==> status == PaneErrored)
  {
  }

  lemma StatusLands(s: State, plugin: string, id: Id, status: PaneStatus, now: Time)
    requires id in s.rows && s.rows[id].plugin == Some(plugin)
    ensures var t := Step(s, SeeCall(plugin, id, status, None), now);
            id in t.rows && t.rows[id].status == Wire(status)
  {
  }

  lemma EndLands(s: State, plugin: string, id: Id, ts: Time, now: Time)
    requires id in s.rows && s.rows[id].plugin == Some(plugin)
    ensures var t := Step(s, LoseCall(plugin, id, Some(ts)), now);
            id in t.rows && t.rows[id].finishedAt == Some(ts)
  {
  }

  lemma WatcherOf(sys: System, id: Id, i: nat, key: string)
    requires SysInv(sys) && i < |sys.agents|
    requires key in sys.agents[i].watch.known && sys.agents[i].watch.known[key].id == id
    ensures id in sys.daemon.rows && sys.daemon.rows[id].plugin == Some(sys.agents[i].plugin)
  {
    assert Good(sys.daemon, sys.agents[i]);
  }

  lemma RunOne(sys: System, last: (Act, Time))
    ensures SysRun(sys, [last]) == SysStep(sys, last.0, last.1)
  {
    RunSnoc(sys, [], last);
    assert [] + [last] == [last];
  }

  /** A watcher that knows the session can still report its end, with another finish time. */
  lemma EndAgain(sys: System, id: Id, i: nat, key: string) returns (future: seq<(Act, Time)>)
    requires SysInv(sys) && i < |sys.agents|
    requires key in sys.agents[i].watch.known && sys.agents[i].watch.known[key].id == id
    ensures !Kept(sys.daemon, SysRun(sys, future).daemon, id)
  {
    WatcherOf(sys, id, i, key);
    var ts: Time := if sys.daemon.rows[id].finishedAt == Some(0) then 1 else 0;
    EndLands(sys.daemon, sys.agents[i].plugin, id, ts, 0);
    var last: (Act, Time) := (Lose(i, key, Some(ts), Whole), 0);
    future := [last];
    RunOne(sys, last);
  }

  /** A watcher that polls the session can report a status; the finished session comes back. */
  lemma Revive(sys: System, id: Id, i: nat, key: string) returns (future: seq<(Act, Time)>)
    requires SysInv(sys) && i < |sys.agents| && key in sys.agents[i].startKeys
    requires key in sys.agents[i].watch.known && sys.agents[i].watch.known[key].id == id
    ensures var end := SysRun(sys, future).daemon; id in end.rows && end.rows[id].status != Finished
  {
    WatcherOf(sys, id, i, key);
    var status := if sys.agents[i].watch.known[key].status == PaneWorking then PaneIdle else PaneWorking;
    StatusLands(sys.daemon, sys.agents[i].plugin, id, status, 0);
    var last: (Act, Time) := (See(i, key, status, None, Whole), 0);
    future := [last];
    RunOne(sys, last);
  }

  lemma WatchingAgent(sys: System, id: Id) returns (i: nat, key: string)
    requires !Unwatched(sys, id)
    ensures i < |sys.agents| && key in sys.agents[i].watch.known && sys.agents[i].watch.known[key].id == id
  {
    var a, k :| a in sys.agents && k in a.watch.known && a.watch.known[k].id == id;
    i :| 0 <= i < |sys.agents| && sys.agents[i] == a;
    key := k;
  }

  lemma FinalIff(sys: System, id: Id)
    requires SysInv(sys) && id in sys.daemon.rows && sys.daemon.rows[id].status == Finished
    ensures Unwatched(sys, id) <==> forall future :: Kept(sys.daemon, SysRun(sys, future).daemon, id)
  {
    if Unwatched(sys, id) {
      forall future ensures Kept(sys.daemon, SysRun(sys, future).daemon, id) {
        Frozen(sys, future, id);
      }
    } else {
      var i, k := WatchingAgent(sys, id);
      var future := EndAgain(sys, id, i, k);
    }
  }

  predicate IsFinished(s: State, id: Id) {
    id in s.rows && s.rows[id].status == Finished
  }

  lemma StatusFinalIff(sys: System, id: Id)
    requires SysInv(sys) && IsFinished(sys.daemon, id)
    ensures Unpolled(sys, id) <==> forall future :: IsFinished(SysRun(sys, future).daemon, id)
  {
    if Unpolled(sys, id) {
      forall future ensures IsFinished(SysRun(sys, future).daemon, id) {
        StatusFrozen(sys, future, id);
      }
    } else {
      var a, k :| a in sys.agents && k in a.watch.known && k in a.startKeys && a.watch.known[k].id == id;
      var i :| 0 <= i < |sys.agents| && sys.agents[i] == a;
      var future := Revive(sys, id, i, k);
      assert !IsFinished(SysRun(sys, future).daemon, id);
    }
  }

  /** When finished is final. In every reachable state of the system a finished row keeps its
      status, task, usage and finish time under everything users and watchers can do next, if
      and only if no watcher knows its session any more. */
  lemma FinalIffUnwatched(boot: State, past: seq<(Act, Time)>, id: Id)
    requires Valid(boot)
    requires var rows := SysRun(System(boot, []), past).daemon.rows;
             id in rows && rows[id].status == Finished
    ensures var now := SysRun(System(boot, []), past);
            Unwatched(now, id) <==> forall future :: Kept(now.daemon, SysRun(now, future).daemon, id)
  {
    ReachableInv(boot, past);
    FinalIff(SysRun(System(boot, []), past), id);
  }

  /** And when the status `finished` alone is final: if and only if no watcher knows the
      session under a key that it polls, that is under one of its startup panes. */
  lemma StatusFinalIffUnpolled(boot: State, past: seq<(Act, Time)>, id: Id)
    requires Valid(boot) && IsFinished(SysRun(System(boot, []), past).daemon, id)
    ensures var now := SysRun(System(boot, []), past);
            Unpolled(now, id) <==> forall future :: IsFinished(SysRun(now, future).daemon, id)
  {
    ReachableInv(boot, past);
    StatusFinalIff(SysRun(System(boot, []), past), id);
  }

  /** A watcher drops a session before it finishes it, so only a kill leaves a finished one
      watched. */
  lemma NotKilledUnwatched(sys: System, id: Id)
    requires SysInv(sys) && id in sys.daemon.rows && sys.daemon.rows[id].status == Finished
    requires !Killed(sys.daemon, id)
    ensures Unwatched(sys, id)
  {
    forall a, k | a in sys.agents && k in a.watch.known ensures a.watch.known[k].id != id {
      assert Good(sys.daemon, a);
      assert Alive(sys.daemon, a.watch.known[k].id);
    }
  }

  /** Finished is final. Once a row is marked finished, and was not killed since boot, then
      whatever users and watchers do next, its status, task, usage and finish time never
      change again. */
  lemma FinishedIsFinal(boot: State, past: seq<(Act, Time)>, future: seq<(Act, Time)>, id: Id)
    requires Valid(boot)
    requires var now := SysRun(System(boot, []), past).daemon;
             id in now.rows && now.rows[id].status == Finished && !Killed(now, id)
    ensures var now := SysRun(System(boot, []), past);
            var end := SysRun(now, future).daemon;
            id in end.rows && Work(end.rows[id]) == Work(now.daemon.rows[id])
  {
    ReachableInv(boot, past);
    var now := SysRun(System(boot, []), past);
    NotKilledUnwatched(now, id);
    Frozen(now, future, id);
  }

  // ------------------------------------------------------- a finished session revived

  const SAMPLE_KEY := PaneKey("dev", "%0")

  function SampleBoot(): State {
    State(map[], [], 1, map[], [], false)
  }

  function SampleRow(): Session {
    NewRow(7, Opencode, "/w", Some("dev"), Some("%0"), "w", Discovered, 1, Some("opencode"))
  }

  function SampleFound(): System {
    System(State(map[7 := SampleRow()], [], 1, map[], [SessionDiscovered(SampleRow())], false),
           [Agent("opencode", {SAMPLE_KEY},
                  Watch(map[SAMPLE_KEY := PaneState(7, PaneStarting)], [Asked(SAMPLE_KEY, Some(7))]))])
  }

  function SampleKilled(): System {
    var found := SampleFound();
    var row := SampleRow().(status := Finished, finishedAt := Some(2), lastEventAt := Some(2));
    System(found.daemon.(rows := map[7 := row], log := [SessionDiscovered(SampleRow()), SessionKilled(7)]),
           found.agents)
  }

  lemma SampleFinds()
    ensures SysStep(System(SampleBoot(), [Agent("opencode", {SAMPLE_KEY}, Watch(map[], []))]),
                    Find(0, "dev", "%0", Dir("/w", Some("w")), 7, Whole), 1) == SampleFound()
  {
    var s := System(SampleBoot(), [Agent("opencode", {SAMPLE_KEY}, Watch(map[], []))]);
    var next := SysStep(s, Find(0, "dev", "%0", Dir("/w", Some("w")), 7, Whole), 1);
    assert next.daemon.rows == map[7 := SampleRow()];
    assert next.daemon.log == [SessionDiscovered(SampleRow())];
    assert next.agents[0].watch.known == SampleFound().agents[0].watch.known;
    assert next.agents[0].watch.sent == SampleFound().agents[0].watch.sent;
    assert next.agents == SampleFound().agents;
  }

  lemma SampleKills()
    ensures SysStep(SampleFound(), User(Kill(Some(7))), 2) == SampleKilled()
  {
    var next := SysStep(SampleFound(), User(Kill(Some(7))), 2);
    assert next.daemon.rows == SampleKilled().daemon.rows;
    assert next.daemon.log == SampleKilled().daemon.log;
  }

  lemma SampleRevives()
    ensures var after := SysStep(SampleKilled(), See(0, SAMPLE_KEY, PaneWorking, None, Whole), 3).daemon;
            7 in after.rows && after.rows[7].status == Working && after.rows[7].finishedAt == Some(2)
  {
    var s := SampleKilled().daemon;
    assert 7 in s.rows && s.rows[7].plugin == Some("opencode") && s.rows[7].finishedAt == Some(2);
    StatusLands(s, "opencode", 7, PaneWorking, 3);
  }

  function SampleActs(): seq<(Act, Time)> {
    [(Spawn("opencode", {SAMPLE_KEY}), 0),
     (Find(0, "dev", "%0", Dir("/w", Some("w")), 7, Whole), 1),
     (User(Kill(Some(7))), 2)]
  }

  lemma SampleRun()
    ensures SysRun(System(SampleBoot(), []), SampleActs()) == SampleKilled()
  {
    var s0, acts := System(SampleBoot(), []), SampleActs();
    assert acts[..1] == [] + [acts[0]] && acts[..2] == acts[..1] + [acts[1]] && acts == acts[..2] + [acts[2]];
    RunSnoc(s0, [], acts[0]);
    RunSnoc(s0, acts[..1], acts[1]);
    RunSnoc(s0, acts[..2], acts[2]);
    var agent := Agent("opencode", {SAMPLE_KEY}, Watch(map[], []));
    assert [] + [agent] == [agent];
    SampleFinds();
    SampleKills();
  }

  /** The store has no terminal guard. A session killed by the user while its watcher still
      knows the pane comes back with the watcher's next status report. */
  lemma KilledCanRevive()
    ensures var killed := SysRun(System(SampleBoot(), []), SampleActs());
            var after := SysStep(killed, See(0, SAMPLE_KEY, PaneWorking, None, Whole), 3).daemon;
            && Valid(SampleBoot()) && Killed(killed.daemon, 7)
            && 7 in killed.daemon.rows && killed.daemon.rows[7].status == Finished
            && 7 in after.rows && after.rows[7].status == Working && after.rows[7].finishedAt == Some(2)
  {
    SampleRun();
    SampleRevives();
    assert SampleKilled().daemon.log[1] == SessionKilled(7);
  }

  lemma RunSnoc(sys: System, acts: seq<(Act, Time)>, last: (Act, Time))
    ensures SysRun(sys, acts + [last]) == SysStep(SysRun(sys, acts), last.0, last.1)
  {
    assert (acts + [last])[..|acts|] == acts;
  }
}
