/** What each call does, from the caller's side: when it is accepted, what it answers, and the
    whole state afterwards, field by field. A refused call is covered by the trace lemmas in
    `Integrity`; here it is only said which error it draws. */
module Effects {
  import opened Protocol
  import opened Daemon
  import opened Integrity

  function ReplyTo(s: State, call: Call, now: Time): Result<Reply, ProtocolError> {
    Respond(s, call, now).reply
  }

  /** `t` is `s` with one row written and one event published. */
  predicate Writes(s: State, t: State, row: Session, e: Event) {
    t == s.(rows := s.rows[row.id := row], log := s.log + [e])
  }

  // ------------------------------------------------------------------- control requests

  /** A session made by hand: unbound, starting, owned by no plugin, and named after its
      directory unless the request names it. */
  lemma CreateEffect(s: State, agent: Option<AgentType>, dir: Option<Dir>, name: Option<string>, newId: Id, now: Time)
    ensures var call := Control(Create(agent, dir, name, newId));
            var t, r := Step(s, call, now), ReplyTo(s, call, now);
            && (r.Ok? <==> agent.Some? && dir.Some? && newId !in s.rows)
            && (r.Err? ==> r.error == if agent.None? || dir.None? then InvalidParams else InternalError)
            && (r.Ok? ==>
                  r.value.Row? &&
                  var row := r.value.session;
                  && Writes(s, t, row, SessionCreated(row))
                  && row.id == newId && row.agentType == agent.value && row.workingDir == dir.value.path
                  && row.tmuxSession == None && row.tmuxPaneId == None
                  && row.displayName == (if name.Some? then name.value
                                         else if dir.value.fileName.Some? then dir.value.fileName.value
                                         else "session")
                  && row.status == Starting && row.source == Cli && row.createdAt == now
                  && Blank(row) && row.plugin == None)
  {
  }

  /** Nothing has been reported about the session yet. */
  predicate Blank(row: Session) {
    && row.currentTask == None && row.model == None && row.usedTokens == None && row.totalTokens == None
    && row.costUsd == None && row.lastEventAt == None && row.finishedAt == None
  }

  lemma RenameEffect(s: State, id: Option<Id>, name: Option<string>, now: Time)
    requires ValidRows(s.rows)
    ensures var call := Control(Rename(id, name));
            var t, r := Step(s, call, now), ReplyTo(s, call, now);
            && (r.Ok? <==> id.Some? && name.Some? && id.value in s.rows)
            && (r.Err? ==> r.error == if id.None? || name.None? then InvalidParams else SessionNotFound)
            && (r.Ok? ==>
                  var row := s.rows[id.value].(displayName := name.value);
                  r.value == Row(row) && Writes(s, t, row, SessionRenamed(id.value, name.value)))
  {
  }

  /** Only an errored session is dismissed, and it becomes idle. */
  lemma DismissEffect(s: State, id: Option<Id>, now: Time)
    requires ValidRows(s.rows)
    ensures var call := Control(DismissError(id));
            var t, r := Step(s, call, now), ReplyTo(s, call, now);
            && (r.Ok? <==> id.Some? && id.value in s.rows && s.rows[id.value].status == Errored)
            && (r.Err? ==> r.error == if id.Some? && id.value !in s.rows then SessionNotFound else InvalidParams)
            && (r.Ok? ==>
                  var row := s.rows[id.value].(status := Idle, lastEventAt := Some(now));
                  r.value == Row(row) && Writes(s, t, row, DismissedError(id.value)))
  {
  }

  /** A jump writes no row; it needs a tmux session and a client that switches to it. */
  lemma JumpEffect(s: State, id: Option<Id>, switched: bool, now: Time)
    ensures var call := Control(Jump(id, switched));
            var t, r := Step(s, call, now), ReplyTo(s, call, now);
            && (r.Ok? <==> id.Some? && id.value in s.rows && s.rows[id.value].tmuxSession.Some? && switched)
            && (r.Err? ==> r.error == if id.None? || (id.value in s.rows && s.rows[id.value].tmuxSession.None?)
                                      then InvalidParams else SessionNotFound)
            && (r.Ok? ==> r.value == Ack && t == s.(log := s.log + [SessionJumped(id.value)]))
  {
    if id.Some? && id.value in s.rows {
      assert s.rows[id.value := s.rows[id.value]] == s.rows;
    }
  }

  /** A kill finishes a session that is not finished yet, as of now, and touches no other row. */
  lemma KillEffect(s: State, id: Option<Id>, now: Time)
    requires ValidRows(s.rows)
    ensures var call := Control(Kill(id));
            var t, r := Step(s, call, now), ReplyTo(s, call, now);
            && (r.Ok? <==> id.Some? && id.value in s.rows && s.rows[id.value].status != Finished)
            && (r.Err? ==> r.error == if id.None? then InvalidParams else SessionNotFound)
            && (r.Ok? ==>
                  var row := s.rows[id.value].(status := Finished, finishedAt := Some(now), lastEventAt := Some(now));
                  && r.value == Row(row) && Writes(s, t, row, SessionKilled(id.value))
                  && forall other | other in s.rows && other != id.value :: t.rows[other] == s.rows[other])
  {
  }

  lemma ShutdownEffect(s: State, now: Time)
    ensures ReplyTo(s, Control(Shutdown), now) == Ok(Ack)
    ensures Step(s, Control(Shutdown), now) == s.(shutdown := true, log := s.log + [ShuttingDown])
    ensures ReplyTo(s, Control(OtherControl), now) == Err(MethodNotFound)
  {
  }

  // -------------------------------------------------------------------- plugin requests

  /** A hello is taken only under the socket's own name, and records and announces the plugin. */
  lemma HelloEffect(s: State, plugin: string, name: Option<string>, now: Time)
    ensures var call := FromPlugin(plugin, Hello(name));
            var t, r := Step(s, call, now), ReplyTo(s, call, now);
            && (r.Ok? <==> name == Some(plugin))
            && (r.Err? ==> r.error == if name.None? then InvalidParams else PluginNotAllowed)
            && (r.Ok? ==>
                  var p := Plugin(plugin, "agentd-plugin-" + plugin, plugin + ".sock");
                  r.value == Welcome(plugin) &&
                  t == s.(plugins := s.plugins[plugin := p], log := s.log + [PluginConnected(p)]))
  {
  }

  /** Heartbeats and farewells are acknowledged and change nothing. */
  lemma IdleEffect(s: State, plugin: string, now: Time)
    ensures forall req | req in {Heartbeat, Bye} ::
              ReplyTo(s, FromPlugin(plugin, req), now) == Ok(Ack) && Step(s, FromPlugin(plugin, req), now) == s
    ensures ReplyTo(s, FromPlugin(plugin, OtherPlugin), now) == Err(MethodNotFound)
  {
  }

  /** The four plugins of v1 and the agents they stand for. */
  predicate Serves(plugin: string, agent: AgentType) {
    || (plugin == "opencode" && agent == Opencode)
    || (plugin == "claude-code" && agent == ClaudeCode)
    || (plugin == "codex" && agent == Codex)
    || (plugin == "aider" && agent == Aider)
  }

  /** A discovered session: bound to its pane, starting, owned by the plugin that found it, and
      named after its directory. */
  lemma DiscoverEffect(s: State, plugin: string, session: Option<string>, pane: Option<string>, dir: Option<Dir>,
                       newId: Id, now: Time)
    ensures var call := FromPlugin(plugin, Discover(session, pane, dir, newId));
            var t, r := Step(s, call, now), ReplyTo(s, call, now);
            var complete := session.Some? && pane.Some? && dir.Some?;
            && (r.Ok? <==> && complete && (exists agent :: Serves(plugin, agent)) && newId !in s.rows
                           && !HoldsPane(s.rows, session.value, pane.value))
            && (r.Err? ==> r.error == if !complete then InvalidParams
                                      else if !exists agent :: Serves(plugin, agent) then PluginNotAllowed
                                      else InternalError)
            && (r.Ok? ==>
                  r.value == NewSession(newId) && newId in t.rows &&
                  var row := t.rows[newId];
                  && row.id == newId && Writes(s, t, row, SessionDiscovered(row))
                  && Serves(plugin, row.agentType) && row.workingDir == dir.value.path
                  && row.tmuxSession == session && row.tmuxPaneId == pane
                  && row.displayName == (if dir.value.fileName.Some? then dir.value.fileName.value else "session")
                  && row.status == Starting && row.source == Discovered && row.createdAt == now
                  && Blank(row) && row.plugin == Some(plugin))
  {
    KnownPlugins(plugin);
    if session.Some? && pane.Some? {
      DiscoverAccepted(s, plugin, session.value, pane.value, dir, newId, now);
    }
  }

  lemma KnownPlugins(plugin: string)
    ensures AgentOf(plugin).Some? <==> exists agent :: Serves(plugin, agent)
    ensures AgentOf(plugin).Some? ==> Serves(plugin, AgentOf(plugin).value)
  {
    assert Serves("opencode", Opencode) && Serves("claude-code", ClaudeCode) && Serves("codex", Codex)
           && Serves("aider", Aider);
  }

  // ---------------------------------------------------------------------- reports

  /** Token counts that the column can hold. */
  predicate Storable(tokens: Option<nat>) {
    tokens == None || tokens.value < 0x8000_0000_0000_0000
  }

  /** Who may report what: anyone a message or any other kind, only the owner a status, a task,
      figures or the end. */
  predicate MayReport(row: Session, plugin: string, report: Report) {
    report.ReportOther? || row.plugin == Some(plugin)
  }

  /** A report that can be carried out. */
  predicate Usable(report: Report) {
    && report != ReportStatus(UnknownStatus)
    && (report.ReportUsage? ==> Storable(report.used) && Storable(report.total))
  }

  /** The errors of a report, in the order in which they are found. */
  lemma ReportAnswer(s: State, plugin: string, id: Option<Id>, report: Option<Report>, ts: Option<Time>, now: Time)
    ensures var r := ReplyTo(s, FromPlugin(plugin, ReportEvent(id, report, ts)), now);
            r == if id.None? || report.None? then Err(InvalidParams)
                 else if id.value !in s.rows then Err(SessionNotFound)
                 else if !MayReport(s.rows[id.value], plugin, report.value) then Err(PluginNotAuthoritative)
                 else if report.value == ReportStatus(UnknownStatus) then Err(InvalidParams)
                 else if !Usable(report.value) then Err(InternalError)
                 else Ok(Accepted(s.nextEventId))
  {
  }

  /** `t` is `s` with the audit row of the report, the given row and the given events. */
  predicate Reported(s: State, t: State, id: Id, report: Report, row: Session, published: seq<Event>) {
    t == s.(rows := s.rows[id := row],
            events := s.events + [EventRow(s.nextEventId, id, report)],
            nextEventId := s.nextEventId + 1,
            log := s.log + published)
  }

  /** What every accepted report does to its row and to the bus, kind by kind. The time of the
      report is the plugin's stamp, or the daemon's clock if it has none. */
  lemma ReportEffect(s: State, plugin: string, id: Id, report: Report, ts: Option<Time>, now: Time)
    requires id in s.rows && MayReport(s.rows[id], plugin, report) && Usable(report)
    ensures var t := Step(s, FromPlugin(plugin, ReportEvent(Some(id), Some(report), ts)), now);
            var row := s.rows[id];
            var at := if ts.Some? then ts.value else now;
            match report
            case ReportStatus(KnownStatus(status)) =>
              Reported(s, t, id, report, row.(status := status, lastEventAt := Some(at)), [StatusChanged(id, status)])
            case ReportTask(Some(task)) =>
              Reported(s, t, id, report, row.(currentTask := Some(task), lastEventAt := Some(at)),
                       [TaskChanged(id, task)])
            case ReportUsage(used, total, cost) =>
              Reported(s, t, id, report,
                       row.(usedTokens := used, totalTokens := total, costUsd := cost, lastEventAt := Some(at)),
                       [UsageUpdated(id, used, total, cost)])
            case ReportFinished =>
              Reported(s, t, id, report,
                       row.(status := Finished, finishedAt := Some(at), lastEventAt := Some(at)), [SessionFinished(id)])
            case _ => Reported(s, t, id, report, row, [])
  {
    assert s.rows[id := s.rows[id]] == s.rows;
    assert s.log + [] == s.log;
  }
}
