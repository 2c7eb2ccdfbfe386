/** The wire-level entities shared by the daemon, its plugins and the dashboard:
    sessions, statuses, bus events, requests and error codes. */
module Protocol {

  datatype Option<+T> = None | Some(value: T)

  datatype Result<+T, +E> = Ok(value: T) | Err(error: E)

  /** A UUID. */
  type Id = nat

  /** Nanoseconds since 1970-01-01T00:00:00Z. */
  type Time = int

  datatype SessionStatus = Starting | Idle | Working | WaitingForUser | Errored | Finished

  datatype AgentType = Opencode | ClaudeCode | Codex | Aider

  datatype SessionSource = Cli | Discovered | Resumed

  /** `plugin` is the `plugin` key of the metadata object, the only key the daemon reads. */
  datatype Session = Session(
    id: Id,
    agentType: AgentType,
    workingDir: string,
    tmuxSession: Option<string>,
    tmuxPaneId: Option<string>,
    displayName: string,
    status: SessionStatus,
    currentTask: Option<string>,
    model: Option<string>,
    usedTokens: Option<nat>,
    totalTokens: Option<nat>,
    costUsd: Option<real>,
    source: SessionSource,
    createdAt: Time,
    lastEventAt: Option<Time>,
    finishedAt: Option<Time>,
    plugin: Option<string>)

  datatype Plugin = Plugin(name: string, binary: string, socketName: string)

  /** One event on the bus, one constructor per `kind`; the payload is the
      constructor's arguments. */
  datatype Event =
    | SessionCreated(session: Session)
    | SessionDiscovered(session: Session)
    | SessionRenamed(id: Id, displayName: string)
    | SessionKilled(id: Id)
    | SessionFinished(id: Id)
    | StatusChanged(id: Id, status: SessionStatus)
    | DismissedError(id: Id)
    | TaskChanged(id: Id, task: string)
    | UsageUpdated(id: Id, used: Option<nat>, total: Option<nat>, cost: Option<real>)
    | SessionJumped(id: Id)
    | PluginConnected(plugin: Plugin)
    | PluginDisconnected(name: string)
    | ShuttingDown

  datatype ProtocolError =
    | MethodNotFound
    | InvalidParams
    | InternalError
    | SessionNotFound
    | PluginNotAllowed
    | PluginNotAuthoritative

  /** A working directory as a request carries it, with its last path component
      (none for `/` or a path that ends in `..`). */
  datatype Dir = Dir(path: string, fileName: Option<string>)

  /** The `status` entry of a report: not a string, a string outside the table, or a status. */
  datatype StatusField = NoStatus | UnknownStatus | KnownStatus(status: SessionStatus)

  /** The body of `session.report_event`: its `type` and `payload`. */
  datatype Report =
    | ReportStatus(field: StatusField)
    | ReportTask(task: Option<string>)
    | ReportUsage(used: Option<nat>, total: Option<nat>, cost: Option<real>)
    | ReportFinished
    | ReportOther(kind: string)

  /** Requests on the control socket. An id that is missing or does not parse is `None`;
      both draw the same error. `newId` is the UUID the daemon draws for the new row and
      `switched` is tmux's answer to `switch-client`. */
  datatype ControlRequest =
    | Create(agent: Option<AgentType>, dir: Option<Dir>, name: Option<string>, newId: Id)
    | Rename(id: Option<Id>, name: Option<string>)
    | DismissError(id: Option<Id>)
    | Jump(id: Option<Id>, switched: bool)
    | Kill(id: Option<Id>)
    | Shutdown
    | OtherControl

  /** Requests on a plugin's socket. */
  datatype PluginRequest =
    | Hello(name: Option<string>)
    | Discover(session: Option<string>, pane: Option<string>, dir: Option<Dir>, newId: Id)
    | ReportEvent(id: Option<Id>, report: Option<Report>, ts: Option<Time>)
    | Heartbeat
    | Bye
    | OtherPlugin

  datatype Call =
    | Control(control: ControlRequest)
    | FromPlugin(caller: string, request: PluginRequest)

  datatype Reply =
    | Ack
    | Row(session: Session)
    | NewSession(id: Id)
    | Accepted(eventId: nat)
    | Welcome(pluginId: string)
}
