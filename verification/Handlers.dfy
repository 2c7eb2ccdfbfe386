/** The repositories and the request handlers, as the daemon runs them: early returns,
    then a row update, then an event on the bus. Each is shown to take the state
    machine's step. */
module Handlers {
  import opened Protocol
  import opened Daemon

  /** The SQLite tables behind `SessionRepo`, `EventRepo` and `PluginRepo`. */
  class Db {
    var sessions: map<Id, Session>
    var events: seq<EventRow>
    var nextEventId: nat
    var plugins: map<string, Plugin>

    method Insert(s: Session) returns (ok: bool)
      modifies this`sessions
      ensures ok == CanInsert(old(sessions), s)
      ensures sessions == if ok then old(sessions)[s.id := s] else old(sessions)
    {
      if s.id in sessions { return false; }
      if exists k :: k in sessions && SamePane(sessions[k], s) { return false; }
      sessions := sessions[s.id := s];
      return true;
    }

    method Get(id: Id) returns (r: Option<Session>)
      ensures r == if id in sessions then Some(sessions[id]) else None
    {
      if id in sessions { return Some(sessions[id]); }
      return None;
    }

    method UpdateStatus(id: Id, status: SessionStatus, at: Time) returns (ok: bool)
      modifies this`sessions
      ensures ok == (id in old(sessions))
      ensures sessions == if ok then old(sessions)[id := old(sessions[id]).(status := status, lastEventAt := Some(at))]
                          else old(sessions)
    {
      if id !in sessions { return false; }
      sessions := sessions[id := sessions[id].(status := status, lastEventAt := Some(at))];
      return true;
    }

    method UpdateTask(id: Id, task: Option<string>, at: Time) returns (ok: bool)
      modifies this`sessions
      ensures ok == (id in old(sessions))
      ensures sessions == if ok then
                old(sessions)[id := old(sessions[id]).(currentTask := task, lastEventAt := Some(at))]
              else old(sessions)
    {
      if id !in sessions { return false; }
      sessions := sessions[id := sessions[id].(currentTask := task, lastEventAt := Some(at))];
      return true;
    }

    /** Refuses token counts that do not fit a signed 64-bit column. */
    method UpdateUsage(id: Id, used: Option<nat>, total: Option<nat>, cost: Option<real>, at: Time)
      returns (ok: bool)
      modifies this`sessions
      ensures ok == (Fits(used) && Fits(total) && id in old(sessions))
      ensures sessions == if ok then
                old(sessions)[id := old(sessions[id]).(usedTokens := used, totalTokens := total, costUsd := cost,
                                                       lastEventAt := Some(at))]
              else old(sessions)
    {
      if !Fits(used) || !Fits(total) { return false; }
      if id !in sessions { return false; }
      sessions := sessions[id := sessions[id].(usedTokens := used, totalTokens := total, costUsd := cost,
                                               lastEventAt := Some(at))];
      return true;
    }

    method UpdateRename(id: Id, name: string) returns (ok: bool)
      modifies this`sessions
      ensures ok == (id in old(sessions))
      ensures sessions == if ok then old(sessions)[id := old(sessions[id]).(displayName := name)]
                          else old(sessions)
    {
      if id !in sessions { return false; }
      sessions := sessions[id := sessions[id].(displayName := name)];
      return true;
    }

    method MarkFinished(id: Id, at: Time) returns (ok: bool)
      modifies this`sessions
      ensures ok == (id in old(sessions))
      ensures sessions == if ok then
                old(sessions)[id := old(sessions[id]).(status := Finished, finishedAt := Some(at),
                                                       lastEventAt := Some(at))]
              else old(sessions)
    {
      if id !in sessions { return false; }
      sessions := sessions[id := sessions[id].(status := Finished, finishedAt := Some(at), lastEventAt := Some(at))];
      return true;
    }

    /** Fails if the row is missing or another row holds the binding. */
    method UpdateTmux(id: Id, session: Option<string>, pane: Option<string>) returns (ok: bool)
      modifies this`sessions
      ensures ok == CanBind(old(sessions), id, session, pane)
      ensures sessions == if ok then old(sessions)[id := old(sessions[id]).(tmuxSession := session, tmuxPaneId := pane)]
                          else old(sessions)
    {
      if id !in sessions { return false; }
      var row := sessions[id].(tmuxSession := session, tmuxPaneId := pane);
      if exists k :: k in sessions && k != id && SamePane(sessions[k], row) { return false; }
      sessions := sessions[id := row];
      return true;
    }

    method Delete(id: Id, works: bool)
      modifies this`sessions
      ensures sessions == if works then old(sessions) - {id} else old(sessions)
    {
      if works { sessions := sessions - {id}; }
    }

    /** The foreign key refuses an event of an unknown session. */
    method InsertEvent(session: Id, report: Report) returns (r: Option<nat>)
      modifies this`events, this`nextEventId
      ensures r == if session in sessions then Some(old(nextEventId)) else None
      ensures events == if r.Some? then old(events) + [EventRow(old(nextEventId), session, report)] else old(events)
      ensures nextEventId == if r.Some? then old(nextEventId) + 1 else old(nextEventId)
    {
      if session !in sessions { return None; }
      events := events + [EventRow(nextEventId, session, report)];
      nextEventId := nextEventId + 1;
      return Some(nextEventId - 1);
    }

    method UpsertPlugin(p: Plugin)
      modifies this`plugins
      ensures plugins == old(plugins)[p.name := p]
    {
      plugins := plugins[p.name := p];
    }
  }

  class EventBus {
    var log: seq<Event>

    method Emit(e: Event)
      modifies this
      ensures log == old(log) + [e]
    {
      log := log + [e];
    }
  }

  /** The process-wide `SHUTDOWN` flag. */
  class ShutdownFlag {
    var requested: bool
  }

  ghost function View(db: Db, bus: EventBus, flag: ShutdownFlag): State
    reads db, bus, flag
  {
    State(db.sessions, db.events, db.nextEventId, db.plugins, bus.log, flag.requested)
  }

  method SessionCreate(db: Db, bus: EventBus, ghost flag: ShutdownFlag, agent: Option<AgentType>,
                       dir: Option<Dir>, name: Option<string>, newId: Id, now: Time)
    returns (r: Result<Reply, ProtocolError>)
    modifies db, bus
    ensures var o := RespondCreate(old(View(db, bus, flag)), agent, dir, name, newId, now);
            r == o.reply && View(db, bus, flag) == Commit(old(View(db, bus, flag)), o)
  {
    if agent.None? { return Err(InvalidParams); }
    if dir.None? { return Err(InvalidParams); }
    var display := if name.Some? then name.value else NameOf(dir.value);
    var session := NewRow(newId, agent.value, dir.value.path, None, None, display, Cli, now, None);
    var inserted := db.Insert(session);
    if !inserted { return Err(InternalError); }
    bus.Emit(SessionCreated(session));
    return Ok(Row(session));
  }

  method SessionRename(db: Db, bus: EventBus, ghost flag: ShutdownFlag, id: Option<Id>, name: Option<string>, now: Time)
    returns (r: Result<Reply, ProtocolError>)
    modifies db, bus
    ensures var o := RespondControl(old(View(db, bus, flag)), Rename(id, name), now);
            r == o.reply && View(db, bus, flag) == Commit(old(View(db, bus, flag)), o)
  {
    if id.None? || name.None? { return Err(InvalidParams); }
    var renamed := db.UpdateRename(id.value, name.value);
    if !renamed { return Err(SessionNotFound); }
    bus.Emit(SessionRenamed(id.value, name.value));
    var row := db.Get(id.value);
    if row.None? { return Err(SessionNotFound); }
    return Ok(Row(row.value));
  }

  method SessionDismissError(db: Db, bus: EventBus, ghost flag: ShutdownFlag, id: Option<Id>, now: Time)
    returns (r: Result<Reply, ProtocolError>)
    modifies db, bus
    ensures var o := RespondControl(old(View(db, bus, flag)), DismissError(id), now);
            r == o.reply && View(db, bus, flag) == Commit(old(View(db, bus, flag)), o)
  {
    if id.None? { return Err(InvalidParams); }
    var session := db.Get(id.value);
    if session.None? { return Err(SessionNotFound); }
    if session.value.status != Errored { return Err(InvalidParams); }
    var updated := db.UpdateStatus(id.value, Idle, now);
    if !updated { return Err(InternalError); }
    bus.Emit(DismissedError(id.value));
    var row := db.Get(id.value);
    if row.None? { return Err(InternalError); }
    return Ok(Row(row.value));
  }

  method SessionJump(db: Db, bus: EventBus, ghost flag: ShutdownFlag, id: Option<Id>, switched: bool, now: Time)
    returns (r: Result<Reply, ProtocolError>)
    modifies bus
    ensures var o := RespondControl(old(View(db, bus, flag)), Jump(id, switched), now);
            r == o.reply && View(db, bus, flag) == Commit(old(View(db, bus, flag)), o)
  {
    if id.None? { return Err(InvalidParams); }
    var session := db.Get(id.value);
    if session.None? { return Err(SessionNotFound); }
    if session.value.tmuxSession.None? { return Err(InvalidParams); }
    if !switched { return Err(SessionNotFound); }
    bus.Emit(SessionJumped(id.value));
    assert db.sessions[id.value := db.sessions[id.value]] == db.sessions;
    return Ok(Ack);
  }

  method SessionKill(db: Db, bus: EventBus, ghost flag: ShutdownFlag, id: Option<Id>, now: Time)
    returns (r: Result<Reply, ProtocolError>)
    modifies db, bus
    ensures var o := RespondControl(old(View(db, bus, flag)), Kill(id), now);
            r == o.reply && View(db, bus, flag) == Commit(old(View(db, bus, flag)), o)
  {
    if id.None? { return Err(InvalidParams); }
    var session := db.Get(id.value);
    if session.None? { return Err(SessionNotFound); }
    if session.value.status.Finished? { return Err(SessionNotFound); }
    var marked := db.MarkFinished(id.value, now);
    if !marked { return Err(InternalError); }
    bus.Emit(SessionKilled(id.value));
    var row := db.Get(id.value);
    if row.None? { return Err(InternalError); }
    return Ok(Row(row.value));
  }

  /** `mutate::dispatch`. */
  method DispatchControl(db: Db, bus: EventBus, flag: ShutdownFlag, req: ControlRequest, now: Time)
    returns (r: Result<Reply, ProtocolError>)
    modifies db, bus, flag
    ensures r == Respond(old(View(db, bus, flag)), Control(req), now).reply
    ensures View(db, bus, flag) == Step(old(View(db, bus, flag)), Control(req), now)
  {
    match req
    case Create(agent, dir, name, newId) => r := SessionCreate(db, bus, flag, agent, dir, name, newId, now);
    case Rename(id, name) => r := SessionRename(db, bus, flag, id, name, now);
    case DismissError(id) => r := SessionDismissError(db, bus, flag, id, now);
    case Jump(id, switched) => r := SessionJump(db, bus, flag, id, switched, now);
    case Kill(id) => r := SessionKill(db, bus, flag, id, now);
    case Shutdown =>
      flag.requested := true;
      bus.Emit(ShuttingDown);
      r := Ok(Ack);
    case OtherControl => r := Err(MethodNotFound);
  }

  method PluginHello(db: Db, bus: EventBus, ghost flag: ShutdownFlag, plugin: string, name: Option<string>, now: Time)
    returns (r: Result<Reply, ProtocolError>)
    modifies db, bus
    ensures var o := RespondPlugin(old(View(db, bus, flag)), plugin, Hello(name), now);
            r == o.reply && View(db, bus, flag) == Commit(old(View(db, bus, flag)), o)
  {
    if name.None? { return Err(InvalidParams); }
    if name.value != plugin { return Err(PluginNotAllowed); }
    db.UpsertPlugin(PluginOf(name.value));
    bus.Emit(PluginConnected(PluginOf(name.value)));
    return Ok(Welcome(name.value));
  }

  method SessionDiscover(db: Db, bus: EventBus, ghost flag: ShutdownFlag, plugin: string, session: Option<string>,
                         pane: Option<string>, dir: Option<Dir>, newId: Id, now: Time)
    returns (r: Result<Reply, ProtocolError>)
    modifies db, bus
    ensures var o := RespondDiscover(old(View(db, bus, flag)), plugin, session, pane, dir, newId, now);
            r == o.reply && View(db, bus, flag) == Commit(old(View(db, bus, flag)), o)
  {
    if session.None? || pane.None? || dir.None? { return Err(InvalidParams); }
    var agent := AgentOf(plugin);
    if agent.None? { return Err(PluginNotAllowed); }
    var row := NewRow(newId, agent.value, dir.value.path, session, pane, NameOf(dir.value),
                      Discovered, now, Some(plugin));
    var inserted := db.Insert(row);
    if !inserted { return Err(InternalError); }
    bus.Emit(SessionDiscovered(row));
    return Ok(NewSession(newId));
  }

  /** The row change and the event of an accepted report. */
  method ApplyReport(db: Db, bus: EventBus, ghost flag: ShutdownFlag, id: Id, report: Report, at: Time)
    returns (error: Option<ProtocolError>)
    requires id in db.sessions
    modifies db, bus
    ensures error == LateRefusal(report)
    ensures var emitted := if error.Some? then None else Publication(id, report);
            View(db, bus, flag) == Commit(old(View(db, bus, flag)), Outcome(Ok(Ack), None, emitted, at))
  {
    var ok := true;
    match report {
    case ReportStatus(NoStatus) =>
    case ReportStatus(UnknownStatus) => return Some(InvalidParams);
    case ReportStatus(KnownStatus(status)) =>
      ok := db.UpdateStatus(id, status, at);
      if !ok { return Some(InternalError); }
      bus.Emit(StatusChanged(id, status));
    case ReportTask(task) =>
      if task.Some? {
        ok := db.UpdateTask(id, task, at);
        if !ok { return Some(InternalError); }
        bus.Emit(TaskChanged(id, task.value));
      }
    case ReportUsage(used, total, cost) =>
      ok := db.UpdateUsage(id, used, total, cost, at);
      if !ok { return Some(InternalError); }
      bus.Emit(UsageUpdated(id, used, total, cost));
    case ReportFinished =>
      ok := db.MarkFinished(id, at);
      if !ok { return Some(InternalError); }
      bus.Emit(SessionFinished(id));
    case ReportOther(_) =>
    }
    return None;
  }

  method SessionReportEvent(db: Db, bus: EventBus, ghost flag: ShutdownFlag, plugin: string, id: Option<Id>,
                            report: Option<Report>, ts: Option<Time>, now: Time)
    returns (r: Result<Reply, ProtocolError>)
    modifies db, bus
    ensures var o := RespondReport(old(View(db, bus, flag)), plugin, id, report, ts, now);
            r == o.reply && View(db, bus, flag) == Commit(old(View(db, bus, flag)), o)
  {
    if id.None? || report.None? { return Err(InvalidParams); }
    var at := if ts.Some? then ts.value else now;
    var session := db.Get(id.value);
    if session.None? { return Err(SessionNotFound); }
    if Mutating(report.value) && session.value.plugin != Some(plugin) { return Err(PluginNotAuthoritative); }
    var eventId := db.InsertEvent(id.value, report.value);
    if eventId.None? { return Err(InternalError); }
    var error := ApplyReport(db, bus, flag, id.value, report.value, at);
    if error.Some? { return Err(error.value); }
    return Ok(Accepted(eventId.value));
  }

  /** `plugin_handlers::dispatch`; `plugin` is the name the socket authenticates. */
  method DispatchPlugin(db: Db, bus: EventBus, ghost flag: ShutdownFlag, plugin: string, req: PluginRequest, now: Time)
    returns (r: Result<Reply, ProtocolError>)
    modifies db, bus
    ensures r == Respond(old(View(db, bus, flag)), FromPlugin(plugin, req), now).reply
    ensures View(db, bus, flag) == Step(old(View(db, bus, flag)), FromPlugin(plugin, req), now)
  {
    match req
    case Hello(name) => r := PluginHello(db, bus, flag, plugin, name, now);
    case Discover(session, pane, dir, newId) =>
      r := SessionDiscover(db, bus, flag, plugin, session, pane, dir, newId, now);
    case ReportEvent(id, report, ts) => r := SessionReportEvent(db, bus, flag, plugin, id, report, ts, now);
    case Heartbeat => r := Ok(Ack);
    case Bye => r := Ok(Ack);
    case OtherPlugin => r := Err(MethodNotFound);
  }
}
