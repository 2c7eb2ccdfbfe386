/** The daemon as a state machine. A call is one atomic step: it is refused, or it changes
    at most one session row and publishes at most one event that describes the change. */
module Daemon {
  import opened Protocol

  /** One row of `session_events`. */
  datatype EventRow = EventRow(id: nat, session: Id, report: Report)

  /** The tables, and everything the bus has carried since boot. */
  datatype State = State(
    rows: map<Id, Session>,
    events: seq<EventRow>,
    nextEventId: nat,
    plugins: map<string, Plugin>,
    log: seq<Event>,
    shutdown: bool)

  /** SQLite stores integers in 64 signed bits; a larger token count is refused. */
  const MAX_INTEGER: nat := 0x7FFF_FFFF_FFFF_FFFF

  predicate Bound(s: Session) {
    s.tmuxSession.Some? && s.tmuxPaneId.Some?
  }

  predicate SamePane(a: Session, b: Session) {
    Bound(a) && Bound(b) && a.tmuxSession == b.tmuxSession && a.tmuxPaneId == b.tmuxPaneId
  }

  /** The primary key and the partial unique index on the tmux binding. */
  predicate CanInsert(rows: map<Id, Session>, s: Session) {
    s.id !in rows && forall k | k in rows :: !SamePane(rows[k], s)
  }

  predicate CanBind(rows: map<Id, Session>, id: Id, session: Option<string>, pane: Option<string>) {
    id in rows &&
    var row := rows[id].(tmuxSession := session, tmuxPaneId := pane);
    forall k | k in rows && k != id :: !SamePane(rows[k], row)
  }

  predicate Fits(tokens: Option<nat>) {
    tokens.Some? ==> tokens.value <= MAX_INTEGER
  }

  /** In v1 a plugin's name is its agent type. */
  function AgentOf(plugin: string): Option<AgentType> {
    if plugin == "opencode" then Some(Opencode)
    else if plugin == "claude-code" then Some(ClaudeCode)
    else if plugin == "codex" then Some(Codex)
    else if plugin == "aider" then Some(Aider)
    else None
  }

  function NameOf(dir: Dir): string {
    if dir.fileName.Some? then dir.fileName.value else "session"
  }

  function PluginOf(name: string): Plugin {
    Plugin(name, "agentd-plugin-" + name, name + ".sock")
  }

  function NewRow(id: Id, agent: AgentType, dir: string, session: Option<string>, pane: Option<string>,
                  name: string, source: SessionSource, now: Time, plugin: Option<string>): Session {
    Session(id, agent, dir, session, pane, name, Starting, None, None, None, None, None,
            source, now, None, None, plugin)
  }

  /** What a call is answered with, the audit row it leaves, and the event it publishes;
      `at` is the time that goes into the row. */
  datatype Outcome = Outcome(
    reply: Result<Reply, ProtocolError>,
    audit: Option<(Id, Report)>,
    emitted: Option<Event>,
    at: Time)

  function Refused(e: ProtocolError): Outcome {
    Outcome(Err(e), None, None, 0)
  }

  function RespondCreate(s: State, agent: Option<AgentType>, dir: Option<Dir>, name: Option<string>,
                         newId: Id, now: Time): Outcome {
    if agent.None? || dir.None? then Refused(InvalidParams) else
      var display := if name.Some? then name.value else NameOf(dir.value);
      var row := NewRow(newId, agent.value, dir.value.path, None, None, display, Cli, now, None);
      if !CanInsert(s.rows, row) then Refused(InternalError)
      else Outcome(Ok(Row(row)), None, Some(SessionCreated(row)), now)
  }

  function RespondControl(s: State, req: ControlRequest, now: Time): Outcome {
    match req
    case Create(agent, dir, name, newId) => RespondCreate(s, agent, dir, name, newId, now)
    case Rename(id, name) =>
      if id.None? || name.None? then Refused(InvalidParams)
      else if id.value !in s.rows then Refused(SessionNotFound)
      else Outcome(Ok(Row(s.rows[id.value].(displayName := name.value))), None,
                   Some(SessionRenamed(id.value, name.value)), now)
    case DismissError(id) =>
      if id.None? then Refused(InvalidParams)
      else if id.value !in s.rows then Refused(SessionNotFound)
      else if s.rows[id.value].status != Errored then Refused(InvalidParams)
      else Outcome(Ok(Row(s.rows[id.value].(status := Idle, lastEventAt := Some(now)))), None,
                   Some(DismissedError(id.value)), now)
    case Jump(id, switched) =>
      if id.None? then Refused(InvalidParams)
      else if id.value !in s.rows then Refused(SessionNotFound)
      else if s.rows[id.value].tmuxSession.None? then Refused(InvalidParams)
      else if !switched then Refused(SessionNotFound)
      else Outcome(Ok(Ack), None, Some(SessionJumped(id.value)), now)
    case Kill(id) =>
      if id.None? then Refused(InvalidParams)
      else if id.value !in s.rows || s.rows[id.value].status == Finished then Refused(SessionNotFound)
      else
        var row := s.rows[id.value];
        Outcome(Ok(Row(row.(status := Finished, finishedAt := Some(now), lastEventAt := Some(now)))),
                None, Some(SessionKilled(id.value)), now)
    case Shutdown => Outcome(Ok(Ack), None, Some(ShuttingDown), now)
    case OtherControl => Refused(MethodNotFound)
  }

  function RespondDiscover(s: State, plugin: string, session: Option<string>, pane: Option<string>,
                           dir: Option<Dir>, newId: Id, now: Time): Outcome {
    if session.None? || pane.None? || dir.None? then Refused(InvalidParams)
    else if AgentOf(plugin).None? then Refused(PluginNotAllowed) else
      var row := NewRow(newId, AgentOf(plugin).value, dir.value.path, session, pane, NameOf(dir.value),
                        Discovered, now, Some(plugin));
      if !CanInsert(s.rows, row) then Refused(InternalError)
      else Outcome(Ok(NewSession(newId)), None, Some(SessionDiscovered(row)), now)
  }

  /** Reports that need write authority over the session. */
  predicate Mutating(r: Report) {
    !r.ReportOther?
  }

  /** The event that publishes an accepted report, if it says anything. */
  function Publication(id: Id, r: Report): Option<Event> {
    match r
    case ReportStatus(KnownStatus(status)) => Some(StatusChanged(id, status))
    case ReportStatus(_) => None
    case ReportTask(task) => if task.Some? then Some(TaskChanged(id, task.value)) else None
    case ReportUsage(used, total, cost) => Some(UsageUpdated(id, used, total, cost))
    case ReportFinished => Some(SessionFinished(id))
    case ReportOther(_) => None
  }

  /** A report can still fail after its audit row was written: its status is outside the
      table, or its token counts do not fit the column. */
  function LateRefusal(r: Report): Option<ProtocolError> {
    match r
    case ReportStatus(UnknownStatus) => Some(InvalidParams)
    case ReportUsage(used, total, _) => if Fits(used) && Fits(total) then None else Some(InternalError)
    case _ => None
  }

  function RespondReport(s: State, plugin: string, id: Option<Id>, report: Option<Report>,
                         ts: Option<Time>, now: Time): Outcome {
    if id.None? || report.None? then Refused(InvalidParams)
    else if id.value !in s.rows then Refused(SessionNotFound)
    else if Mutating(report.value) && s.rows[id.value].plugin != Some(plugin) then
      Refused(PluginNotAuthoritative)
    else
      var audit := Some((id.value, report.value));
      if LateRefusal(report.value).Some? then
        Outcome(Err(LateRefusal(report.value).value), audit, None, 0)
      else
        Outcome(Ok(Accepted(s.nextEventId)), audit, Publication(id.value, report.value),
                if ts.Some? then ts.value else now)
  }

  function RespondPlugin(s: State, plugin: string, req: PluginRequest, now: Time): Outcome {
    match req
    case Hello(name) =>
      if name.None? then Refused(InvalidParams)
      else if name.value != plugin then Refused(PluginNotAllowed)
      else Outcome(Ok(Welcome(plugin)), None, Some(PluginConnected(PluginOf(plugin))), now)
    case Discover(session, pane, dir, newId) => RespondDiscover(s, plugin, session, pane, dir, newId, now)
    case ReportEvent(id, report, ts) => RespondReport(s, plugin, id, report, ts, now)
    case Heartbeat => Outcome(Ok(Ack), None, None, now)
    case Bye => Outcome(Ok(Ack), None, None, now)
    case OtherPlugin => Refused(MethodNotFound)
  }

  function Respond(s: State, call: Call, now: Time): Outcome {
    match call
    case Control(req) => RespondControl(s, req, now)
    case FromPlugin(plugin, req) => RespondPlugin(s, plugin, req, now)
  }

  /** The row change that an event publishes, read back from the event alone. */
  function RowEffect(row: Session, e: Event, at: Time): Session {
    match e
    case SessionRenamed(_, name) => row.(displayName := name)
    case SessionKilled(_) => row.(status := Finished, finishedAt := Some(at), lastEventAt := Some(at))
    case SessionFinished(_) => row.(status := Finished, finishedAt := Some(at), lastEventAt := Some(at))
    case StatusChanged(_, status) => row.(status := status, lastEventAt := Some(at))
    case DismissedError(_) => row.(status := Idle, lastEventAt := Some(at))
    case TaskChanged(_, task) => row.(currentTask := Some(task), lastEventAt := Some(at))
    case UsageUpdated(_, used, total, cost) =>
      row.(usedTokens := used, totalTokens := total, costUsd := cost, lastEventAt := Some(at))
    case _ => row
  }

  /** The session an event is about, for events that patch an existing session. */
  function Patched(e: Event): Option<Id> {
    match e
    case SessionRenamed(id, _) => Some(id)
    case SessionKilled(id) => Some(id)
    case SessionFinished(id) => Some(id)
    case StatusChanged(id, _) => Some(id)
    case DismissedError(id) => Some(id)
    case TaskChanged(id, _) => Some(id)
    case UsageUpdated(id, _, _, _) => Some(id)
    case SessionJumped(id) => Some(id)
    case _ => None
  }

  function Inserted(e: Event): Option<Session> {
    match e
    case SessionCreated(s) => Some(s)
    case SessionDiscovered(s) => Some(s)
    case _ => None
  }

  function Effect(rows: map<Id, Session>, e: Event, at: Time): map<Id, Session> {
    if Inserted(e).Some? then rows[Inserted(e).value.id := Inserted(e).value]
    else if Patched(e).Some? && Patched(e).value in rows then
      rows[Patched(e).value := RowEffect(rows[Patched(e).value], e, at)]
    else rows
  }

  function Commit(s: State, o: Outcome): State {
    var rows := if o.emitted.Some? then Effect(s.rows, o.emitted.value, o.at) else s.rows;
    var events := if o.audit.Some? then s.events + [EventRow(s.nextEventId, o.audit.value.0, o.audit.value.1)]
                  else s.events;
    var next := if o.audit.Some? then s.nextEventId + 1 else s.nextEventId;
    var plugins := match o.emitted
                   case Some(PluginConnected(p)) => s.plugins[p.name := p]
                   case _ => s.plugins;
    var log := if o.emitted.Some? then s.log + [o.emitted.value] else s.log;
    State(rows, events, next, plugins, log, s.shutdown || o.emitted == Some(ShuttingDown))
  }

  function Step(s: State, call: Call, now: Time): State {
    Commit(s, Respond(s, call, now))
  }

  datatype Input = Input(call: Call, now: Time)

  /** The state after a whole run. */
  function Run(s: State, inputs: seq<Input>): State {
    if inputs == [] then s
    else
      var last := |inputs| - 1;
      Step(Run(s, inputs[..last]), inputs[last].call, inputs[last].now)
  }
}
