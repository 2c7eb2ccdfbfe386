# agentd, a model in Dafny

agentd keeps coding-agent sessions in a SQLite table, publishes every change on an event
bus, and feeds dashboards that rebuild the table from a snapshot plus the events. Plugins
watch tmux panes and report what the agents do. This project models that system and proves
what it keeps over whole runs.

| file | component | main results |
|---|---|---|
| `Protocol.dfy`, `Daemon.dfy` | entities; a call as one atomic step of a state machine | |
| `Handlers.dfy` | repositories, event bus, control and plugin handlers, in imperative form | each handler takes exactly the state machine's step |
| `Effects.dfy` | every call from the caller's side | `ReportEffect`, `KillEffect`, `DiscoverEffect`: acceptance, answer and whole new state |
| `Integrity.dfy` | schema rules, write authority | `RunValid`, `RunAuthority`, `RefusalTrace`, `RediscoveryExact` |
| `Sequences.dfy`, `Replica.dfy`, `Dashboard.dfy` | `TuiState`: events, clock ticks, keys | `ApplyEvent`, `Drain`, `HandleKey` keep the dashboard invariant; `CommandKeys`, `RenameKeys`, `FlashesExact` |
| `Convergence.dfy`, `Screen.dfy` | old events replayed over a newer snapshot | `ReplicaConverges`, `UsageAgrees`, `PluginsConverge`, `FollowDaemon` |
| `FanOut.dfy`, `Pipeline.dfy` | subscriber registry; bus, lagging forwarder, registry, dashboard | `Delivery`, `ForwardingKeepsOrder`, `DashboardMirrorsDaemon` |
| `Text.dfy`, `Discovery.dfy` | the `tmux list-panes` parser and pane keys | `ListPanesRoundTrip`, `KeyCollisions` |
| `Watcher.dfy`, `Composed.dfy` | the opencode watcher; any number of them driving the daemon | `LoopDiscipline`, `PollExact`, `PaneCheckByCommand`, `FinalIffUnwatched`, `SurvivorsUnwatched` |
| `Limiter.dfy`, `Supervisor.dfy` | restart limiter, child handles, boot | `LimiterHolds`, `ReachableConserved`, `DeadUntilAutostart`, `BootCountsDoubleStarts` |
| `Calendar.dfy`, `Tombstone.dfy` | the SDK's year loop; garbage collection by text order | `YearStep`, `TextOrderIsDateOrder`, `CollectsByDate` |
| `Framing.dfy` | NDJSON framing and the bounded reader | `FramingRoundTrip`, `BoundedReaderAgrees` |
| `SessionCreate.dfy`, `Views.dfy` | creation with rollback, status cache, recent directories | `CreateIsAllOrNothing`, `ExtractRecents` |

`dafny verify dfyconfig.toml` checks the whole project; no proof needs a longer time limit than
Dafny's own.

## Conventions

Code that changes state in the repository is a class or a method here, proved against a
specification function (`Step`, `ReplicaStep`, `HubStep`, `Apply`, `MonitorStep`, `Create`
and so on); the lemmas are about those functions. Answers of the outside world (tmux, the
operating system's spawn and bind, fresh UUIDs, the clock, a watcher's link to the daemon)
are parameters, so a statement holds for all of them. Time is an integer of nanoseconds,
cost is a real. A handler is one atomic step: nothing is interleaved between its row write
and its event.

## Where the code departs from its own documentation

The model follows the code. The members named below are where each point is proved.

- `plugin_supervisor.rs:193-196` says the monitor kills and restarts a stale child. The loop
  only logs and counts. A plugin that stays silent is given up on at its fourth stale tick
  (`Limiter.SilentPluginGivenUp`). For a plugin whose child has died `ensure_plugin` answers
  that it was running already (`Supervisor.EnsureIgnoresDead`). Of all operations of the
  supervisor only an autostart brings it back, and exactly if it launches the plugin
  (`Supervisor.DeadUntilAutostart`, with an input in `Supervisor.DeadThenRevived`).
- The SDK's time stamp is always 1 January of the current year. A session its watcher
  reports finished is expired at exactly the boots after January of that year, so one
  finished in December can be gone on New Year's Day (`Tombstone.WatcherFinishesExpireEarly`).
  A session that only ever got the status `finished` has no finish time and is never
  collected (`Tombstone.StatusFinishedNeverExpires`). With a clock set before 1970 the stamp
  lies in the future, and only then (`Calendar.StampLags`).
- A row keeps its tmux binding when it finishes, although `daemon.rs:257-260` and
  `session_create.rs:29-31` expect the plugin's scan to pick the pane up again. A pane can be
  discovered if and only if no row of the boot holds it and no session was discovered in it
  since (`Integrity.RediscoveryExact`); what frees it is a collection of the row
  (`Tombstone.CollectFreesPane`). So a session that survives a restart of the daemon is never
  watched again (`Composed.SurvivorsUnwatched`).
- `status.rs:20` calls `finished` terminal and immutable; the store has no such guard. With
  watchers as the only reporters a finished row is final if and only if no watcher knows its
  session any more (`Composed.FinalIffUnwatched`), which holds of every session that was not
  killed (`Composed.FinishedIsFinal`). Its status alone is final if and only if no watcher
  knows the session under one of its startup panes (`Composed.StatusFinalIffUnpolled`); a
  killed one can come back (`Composed.KilledCanRevive`).
- A known pane can report a status if and only if it was there at the plugin's startup; panes
  found later never do (`Watcher.ReportsIffStartup`, `Watcher.LoopDiscipline`).
- Boot respawns, then autostarts. A plugin that qualifies for both is launched twice and
  counted twice (`Supervisor.BootCountsDoubleStarts`, which also covers a manifest that repeats
  a name). The plugins that end up without a socket are exactly the respawned ones that
  autostart did not bind, because they do not autostart or because the bind failed
  (`Supervisor.RespawnedWithoutSocket`). Inputs for both are in `Supervisor.BootTwiceOrDeaf`.
- `session_create.rs:29-31` says tmux is rolled back on any failure. It is not when the tmux
  session was made but its pane could not be read back (`SessionCreate.CreateIsAllOrNothing`).
- A refused call leaves an audit row exactly if it is an owner's report with an unknown
  status, or with a token count above 2^63 - 1 (`Integrity.RefusalTrace`,
  `Integrity.UnknownStatusIsAudited`); rows and bus stay as they were
  (`Integrity.RefusedCallsLeaveNoTrace`).
- A usage report that omits a figure clears it in the row but not on screen
  (`Convergence.PartialUsageStaysOnScreen`); `Convergence.UsageAgrees` says exactly when the
  two agree.

## Model

| member | source | states |
|---|---|---|
| Convergence.ReplicaConverges | crates/agentd/src/tui/mod.rs:38-88 | For every run, every snapshot moment and every earlier subscription moment, replaying the stream over the snapshot lists exactly the rows not killed or reported finished in the window (so every row without a finish time), each with the row's name, status, task and fixed columns, and no usage figure that contradicts the row's |
| Convergence.ReplayValue | crates/agentd/src/tui/state.rs:154-256 | After any stretch of events a listed session shows, column by column, the last value the stretch wrote to it, or the snapshot's if none |
| Convergence.ReplayPresence | crates/agentd/src/tui/state.rs:157-192 | In a stream that never inserts a session after another event about it, a session is listed after the replay exactly if it was listed or created, and not retired |
| Convergence.RunHistory | crates/agentd/src/handlers/plugin_handlers.rs:183-261 | In every reachable state the bus log alone explains each row: its keys, each column's last write, and its finish time |
| Convergence.PluginsConverge | crates/agentd/src/tui/state.rs:239-252 | The plugin list converges exactly under the same overlap |
| Convergence.SubscribingLateLosesEvents | crates/agentd/src/tui/mod.rs:38-63 | Why the dashboard subscribes first: with the order reversed a status stays wrong |
| Convergence.PartialUsageStaysOnScreen | crates/agentd/src/tui/state.rs:224-238 | An input where screen and row differ: a partial usage report clears the row and leaves the screen |
| Convergence.UsageAgrees | crates/agentd/src/tui/state.rs:224-238 | For every run and overlap, the screen shows the row's figure if and only if the row has it, or neither the snapshot nor any usage event since the subscription had it |
| Screen.FollowDaemon | crates/agentd/src/tui/mod.rs:38-88 | A screen object built from the snapshot and drained of the stream is valid, mirrors the daemon's rows and lists its plugins |
| Pipeline.DashboardMirrorsDaemon | crates/agentd/src/daemon.rs:171-185 | End to end: for every interleaving of calls, forwarding and registry traffic, a dashboard that subscribes, then takes a snapshot, and is sent everything in the end mirrors the daemon unless the forwarder lagged in between |
| Pipeline.ForwardingKeepsOrder | crates/agentd/src/daemon.rs:175-185 | What is forwarded is an in-order, duplicate-free selection of the bus log, and all of it without lag |
| Pipeline.LagLosesOldest | crates/agentd/src/daemon.rs:175-185 | A lagging read delivers nothing and loses exactly the events the channel no longer keeps |
| Pipeline.SubscriberStream | crates/agentd/src/handlers/subscriber_registry.rs:36-54 | A subscriber's queue is such a selection of the events from its registration on |
| FanOut.Delivery | crates/agentd/src/handlers/subscriber_registry.rs:36-54 | Under every interleaving a subscription is live exactly if nobody unregistered or closed it, and a live one holds exactly the broadcasts since its registration, in order and once each |
| FanOut.IdsNeverReused | crates/agentd/src/handlers/subscriber_registry.rs:36-43 | Subscription ids are pairwise distinct if and only if at most 2^64 are handed out |
| FanOut.SubscriberRegistry.RegisterSubscriber | crates/agentd/src/handlers/subscriber_registry.rs:36-43 | Hands out the next wrapped id and adds an empty channel; nothing else changes |
| FanOut.SubscriberRegistry.UnregisterSubscriber | crates/agentd/src/handlers/subscriber_registry.rs:45-48 | Drops exactly the channel with that id, if any |
| FanOut.SubscriberRegistry.BroadcastEvent | crates/agentd/src/handlers/subscriber_registry.rs:51-54 | Every open channel gains the event and every closed one is dropped |
| Dashboard.TuiState.FromSnapshot | crates/agentd/src/tui/state.rs:126-145 | The invariant holds; sessions and plugins are the entries that decode, in order |
| Dashboard.TuiState.ApplyEvent | crates/agentd/src/tui/state.rs:154-256 | Keeps the dashboard invariant; the session list, in order, the plugin list, the highlights and the cursor are exactly what the event makes of them |
| Replica.ListStepLists | crates/agentd/src/tui/state.rs:154-256 | What an event makes of the list shows what it makes of the table, each session once |
| Dashboard.ListKeepsOrder | crates/agentd/src/tui/state.rs:154-256 | Order on screen: a listed session keeps its place, a new one comes last, one that goes closes the gap |
| Dashboard.PluginsKeepOrder | crates/agentd/src/tui/state.rs:239-252 | The same of the plugin list |
| Replica.ReplayLists | crates/agentd/src/tui/mod.rs:85-88 | A list that shows a snapshot shows every replay over it, sessions and plugins |
| Dashboard.TuiState.Drain | crates/agentd/src/tui/mod.rs:85-88 | Applying all pending events folds them in order over both lists and keeps the invariant |
| Dashboard.TuiState.TickFlash | crates/agentd/src/tui/state.rs:259-265 | Keeps exactly the highlights still running; dirty exactly if one ended or it was dirty |
| Dashboard.TuiState.HandleKey | crates/agentd/src/tui/input.rs:12-66 | Keeps the invariant; cursor, help, modals, dirty flag, quitting and the request sent are exactly those of the key |
| Dashboard.KeyEffects | crates/agentd/src/tui/input.rs:12-66 | At most one of help and modals stays open and the cursor in range; jump and kill go to the highlighted session and a rename to the one its modal was opened on; modals swallow keys; closing the help marks nothing for redrawing |
| Dashboard.CommandKeys | crates/agentd/src/tui/input.rs:30-66 | With nothing open: Enter and only Enter jumps, `x` and only `x` kills, both to the highlighted session; which keys open which modal or the help, and which quit |
| Dashboard.MovementKeys | crates/agentd/src/tui/input.rs:42-55 | Where each movement key puts the cursor, at the ends and on an empty list too; no other key moves it |
| Dashboard.HelpKeys | crates/agentd/src/tui/input.rs:20-28 | Three keys close the help, one of them quits, the rest do nothing |
| Dashboard.RenameKeys | crates/agentd/src/tui/rename_modal.rs:28-48 | What each key makes of the text; Enter sends the name without its outer blanks, exactly if something else is left |
| Dashboard.NewKeys | crates/agentd/src/tui/new_modal.rs:43-63 | The same of the query; Enter creates in the first recent directory that has the query in it, in any case, or in `.` |
| Dashboard.FlashesExact | crates/agentd/src/tui/state.rs:154-256 | For every event and session: which glow until half a second from now, which stop, and that the others glow as before |
| Dashboard.TuiState.RenameKey | crates/agentd/src/tui/rename_modal.rs:28-48 | The modal's text after each key, and that it commits only a trimmed name that is not empty |
| Dashboard.TuiState.NewKey | crates/agentd/src/tui/input.rs:149-181 | The modal's query after each key, and the directory and name of the create request it commits |
| Dashboard.FirstMatch | crates/agentd/src/tui/new_modal.rs:66-74 | The search returns the filter's first hit |
| Dashboard.TargetIsFirstMatch | crates/agentd/src/tui/new_modal.rs:44-62 | That is the first recent directory that contains the query in any case, or `.` if none does |
| Dashboard.CountersFromSessions | crates/agentd/src/tui/state.rs:37-50 | Every counter is the number of sessions in that status |
| Dashboard.RecountMeans | crates/agentd/src/tui/state.rs:37-50 | Each of the six counters is the size of the set of positions whose session has its status |
| Dashboard.CountersSumToLength | crates/agentd/src/tui/state.rs:37-50 | The counters add up to the number of sessions listed |
| Dashboard.AtMostOneGone | crates/agentd/src/tui/state.rs:183-188 | With unique ids a removal shortens the list by at most one |
| Dashboard.StepPoints | crates/agentd/src/tui/state.rs:186-188 | So pulling the cursor back by one row keeps it in range, after every event |
| Integrity.RunValid | crates/agentd/migrations/0001_init.sql:23-34 | In every reachable state ids are unique, a bound pane has one row, every audit row refers to a session and audit ids strictly increase |
| Integrity.EffectValid | crates/agentd/migrations/0001_init.sql:23-25 | No published change breaks the primary key or the tmux index, and no call removes a row |
| Integrity.RefusalTrace | crates/agentd/src/handlers/plugin_handlers.rs:166-261 | A refused call leaves the whole state unchanged if and only if it is not an owner's report refused after its audit row was written, and then it adds exactly that row |
| Integrity.UnknownStatusIsAudited | crates/agentd/src/handlers/plugin_handlers.rs:183-201 | An input of that kind: a status outside the table |
| Integrity.RefusedCallsLeaveNoTrace | crates/agentd/src/handlers/plugin_handlers.rs:128-130 | Striking all refused calls out of any run leaves the session rows, plugin table, bus log and shutdown flag, that is everything but the audit table, as they were |
| Integrity.RunAuthority | crates/agentd/src/handlers/plugin_handlers.rs:166-181 | Over any run a row keeps its owner and fixed columns, and its status, task, usage or finish changes only if its owner reported on it or the user dismissed its error or killed it |
| Integrity.CreatedSessionsNeverWork | crates/agentd/src/handlers/mutate.rs:141-159 | A session no plugin owns is never anything but starting or finished |
| Integrity.RediscoveryRefused | crates/agentd/src/handlers/plugin_handlers.rs:79-138 | A pane that ever held a session cannot be discovered again in the same run, and the refused call changes nothing |
| Integrity.RediscoveryExact | crates/agentd/src/handlers/plugin_handlers.rs:79-138 | After any run a discover call is accepted if and only if the plugin is known, the directory given, the id fresh, and neither a row of the boot nor a session discovered since holds the pane |
| Tombstone.CollectFreesPane | crates/agentd/src/daemon.rs:235-255 | After a collection the pane of a row can be discovered if and only if the row was old and so collected |
| Handlers.Db.Insert | crates/agentd/src/db/repo.rs:49-79 | Succeeds exactly if neither the id nor the bound pane is taken |
| Handlers.Db.UpdateStatus | crates/agentd/src/db/repo.rs:114-128 | Status and last-event time of an existing row, nothing else, and no terminal guard |
| Handlers.Db.UpdateTask | crates/agentd/src/db/repo.rs:130-144 | Task and last-event time of an existing row, nothing else |
| Handlers.Db.UpdateUsage | crates/agentd/src/db/repo.rs:146-165 | All three figures are overwritten, absent ones with NULL; counts beyond 63 bits are refused |
| Handlers.Db.UpdateRename | crates/agentd/src/db/repo.rs:167-176 | The display name of an existing row, nothing else |
| Handlers.Db.MarkFinished | crates/agentd/src/db/repo.rs:178-188 | Status, finish and last-event time of an existing row |
| Handlers.Db.UpdateTmux | crates/agentd/src/db/repo.rs:190-208 | Binds an existing row unless another row holds the pane |
| Handlers.Db.InsertEvent | crates/agentd/src/db/repo.rs:220-226 | Refused for an unknown session, otherwise appends under the next id |
| Handlers.DispatchControl | crates/agentd/src/handlers/mutate.rs:87-112 | The handlers, run in order of their statements, answer and change the state exactly as the state machine's step |
| Handlers.DispatchPlugin | crates/agentd/src/handlers/plugin_handlers.rs:30-45 | The same for a plugin's calls |
| Handlers.SessionCreate | crates/agentd/src/handlers/mutate.rs:114-174 | Row, event and answer, or an error and no change |
| Handlers.SessionRename | crates/agentd/src/handlers/mutate.rs:176-205 | Row, event and answer, or an error and no change |
| Handlers.SessionDismissError | crates/agentd/src/handlers/mutate.rs:207-242 | Only an errored session goes idle |
| Handlers.SessionJump | crates/agentd/src/handlers/mutate.rs:271-300 | Publishes and changes no row; fails without a tmux binding or a successful switch |
| Handlers.SessionKill | crates/agentd/src/handlers/mutate.rs:305-343 | Finishes a session that is not finished yet |
| Handlers.PluginHello | crates/agentd/src/handlers/plugin_handlers.rs:47-77 | Only under the socket's own name; upserts and announces the plugin |
| Handlers.SessionDiscover | crates/agentd/src/handlers/plugin_handlers.rs:79-138 | A new starting row owned by the calling plugin, or an error and no change |
| Handlers.SessionReportEvent | crates/agentd/src/handlers/plugin_handlers.rs:141-261 | Authority first, then the audit row, then the row change and its event; which errors come before and after the audit row |
| Effects.ReportAnswer | crates/agentd/src/handlers/plugin_handlers.rs:141-261 | For every report, who may make it and which of the errors it draws, in their order; otherwise the id of its audit row |
| Effects.ReportEffect | crates/agentd/src/handlers/plugin_handlers.rs:183-261 | What each kind of accepted report leaves: the row, column by column, stamped with the plugin's time or else the daemon's, one audit row, and the one event; every other row and table untouched. A message and an empty task leave the row alone and publish nothing |
| Effects.KillEffect | crates/agentd/src/handlers/mutate.rs:305-343 | Accepted exactly for a session that is not finished; the row gets `finished` and the time of the kill as its end and last event, whatever happened to it before, is the answer, and is announced; no other row changes |
| Effects.CreateEffect | crates/agentd/src/handlers/mutate.rs:114-174 | When a hand-made session is accepted, and every column of its row |
| Effects.RenameEffect | crates/agentd/src/handlers/mutate.rs:176-205 | Only the name of the named row changes; the answer is that row and the event carries the name |
| Effects.DismissEffect | crates/agentd/src/handlers/mutate.rs:207-242 | Accepted exactly for an errored session, which becomes idle as of now |
| Effects.JumpEffect | crates/agentd/src/handlers/mutate.rs:271-300 | Accepted exactly with a tmux session and a client that switches; only the log grows |
| Effects.ShutdownEffect | crates/agentd/src/handlers/mutate.rs:87-112 | Sets the flag and announces it; unknown methods are refused |
| Effects.HelloEffect | crates/agentd/src/handlers/plugin_handlers.rs:47-77 | Accepted exactly under the socket's own name; the plugin's table entry, answer and event |
| Effects.DiscoverEffect | crates/agentd/src/handlers/plugin_handlers.rs:79-138 | When a discovery is accepted, which error it draws otherwise, and every column of the new row, with its pane, owner and agent |
| Effects.IdleEffect | crates/agentd/src/handlers/plugin_handlers.rs:263-275 | Heartbeats and farewells are acknowledged and change nothing |
| Watcher.TraceDiscipline | crates/agent-plugin-opencode/src/watcher.rs:277-337 | In every run with fresh answers the reports about one session are status changes, no two in a row alike and none `starting`, then at most one end and nothing after; known panes have distinct sessions |
| Watcher.LoopDiscipline | crates/agent-plugin-opencode/src/watcher.rs:277-337 | The same of the loop itself, for every sequence of polls, pane checks and heartbeats after startup, and only startup panes report a status |
| Watcher.LoopCheckExact | crates/agent-plugin-opencode/src/watcher.rs:200-264 | After any pane check of the loop the known panes are exactly those that run opencode and were known or got an id |
| Watcher.WatchLoop.Run | crates/agent-plugin-opencode/src/watcher.rs:297-337 | Whatever timers fire, the loop makes exactly the moves of those ticks |
| Watcher.PaneCheckExact | crates/agent-plugin-opencode/src/watcher.rs:200-264 | After a check a pane is known exactly if it runs opencode and was known or had its discover answered; so known panes all run opencode, and all that run it are known if every call succeeds |
| Watcher.PaneCheckByCommand | crates/agent-plugin-opencode/src/watcher.rs:200-264 | The same in terms of the scanned commands themselves: known afterwards are exactly the panes whose last scanned command starts with the word opencode and that were known or answered; the old ones keep session and status, the new ones are starting |
| Watcher.DiffPaneStates | crates/agent-plugin-opencode/src/watcher.rs:117-140 | Vanished is exactly known minus running, added exactly running minus known, each without repeats |
| Watcher.ParseStatus | crates/agent-plugin-opencode/src/watcher.rs:54-73 | The parser never answers `starting` |
| Watcher.StatusByKeyword | crates/agent-plugin-opencode/src/watcher.rs:54-73 | Which words and which prompt give which status, and which of them wins |
| Watcher.StatusIgnoresCase | crates/agent-plugin-opencode/src/watcher.rs:54-73 | Lines that differ only in the case of their letters have the same status |
| Watcher.LastLineExact | crates/agent-plugin-opencode/src/watcher.rs:305-308 | The line that is parsed is not blank and every line after it is; it is empty exactly if no line has anything on it |
| Watcher.PollExact | crates/agent-plugin-opencode/src/watcher.rs:299-331 | After a poll a known startup pane has the status that the words or the prompt of the last line with something on it say, and exactly one report was made of it if that is new, none if not |
| Watcher.OpencodeExact | crates/agent-plugin-opencode/src/discovery.rs:248-256 | A command counts as opencode if and only if, without its outer blanks, it starts with that word in any case and ends there or goes on with a blank |
| Watcher.OnlyStartupPanesReportStatus | crates/agent-plugin-opencode/src/watcher.rs:303-331 | Every status report is about a session discovered under a startup pane's key |
| Watcher.ReportsIffStartup | crates/agent-plugin-opencode/src/watcher.rs:299-331 | In any state some capture makes the next poll report a known pane if and only if it is a startup pane |
| Watcher.WatchLoop.constructor | crates/agent-plugin-opencode/src/watcher.rs:284-289 | Startup asks about every startup pane once, in order |
| Watcher.StartExact | crates/agent-plugin-opencode/src/watcher.rs:284-289 | Each startup pane is known as starting with the session of its own answer, or unknown without one |
| Watcher.WatchLoop.DiscoverPane | crates/agent-plugin-opencode/src/watcher.rs:149-169 | One discover call; the pane is known as starting exactly if it was answered |
| Watcher.WatchLoop.Poll | crates/agent-plugin-opencode/src/watcher.rs:299-331 | One poll tick: a report for each startup pane that is known and whose parsed status changed |
| Watcher.WatchLoop.EmitFinished | crates/agent-plugin-opencode/src/watcher.rs:173-194 | One end per vanished pane, which is then forgotten |
| Watcher.WatchLoop.DiscoverNew | crates/agent-plugin-opencode/src/watcher.rs:233-264 | One discover call for every scanned line with a new key, in scan order |
| Watcher.WatchLoop.PaneCheck | crates/agent-plugin-opencode/src/watcher.rs:200-227 | A failed scan changes nothing; otherwise ends first, then discoveries, for an exact diff |
| Composed.FinalIffUnwatched | crates/agentd/src/db/repo.rs:114-128 | In every reachable state of any number of watchers over unreliable links, a finished row keeps its status, task, usage and finish time under every future if and only if no watcher knows its session |
| Composed.StatusFinalIffUnpolled | crates/agentd-protocol/src/status.rs:20-21 | And its status alone stays finished under every future if and only if no watcher knows its session under one of its startup panes |
| Composed.SurvivorsUnwatched | crates/agentd/src/daemon.rs:257-283 | A session that is a row at boot stays one, is never known to any watcher, and is never reported on |
| Composed.FinishedIsFinal | crates/agentd/src/db/repo.rs:114-128 | A row marked finished and not killed since boot is final in this sense |
| Composed.ReachableInv | crates/agent-plugin-opencode/src/watcher.rs:173-227 | In every reachable state of the composed system each watcher is disciplined without any assumption on the answers, each session has one watcher that owns it, and a watched session is unfinished unless killed |
| Composed.KilledCanRevive | crates/agentd/src/handlers/mutate.rs:305-343 | A kill followed by the watcher's next status report makes a finished row working again |
| Composed.ReportedStatus | crates/agent-plugin-opencode/src/watcher.rs:36-45 | Each status a watcher reports is stored as the daemon's status of the same name |
| Discovery.ListPanesRoundTrip | crates/agent-plugin-opencode/src/discovery.rs:194-241 | Printing a list of panes with the tmux format and parsing it returns the same list if and only if every session, pane id and path is free of blanks and newlines and every command is free of newlines and does not end in a carriage return |
| Discovery.ParseOfPrint | crates/agent-plugin-opencode/src/discovery.rs:221-241 | A command that ends in a carriage return loses exactly that character, and nothing else changes |
| Discovery.ParseLineExact | crates/agent-plugin-opencode/src/discovery.rs:221-241 | A line parses to a pane if and only if it is its session, pane id, a u32 that reads as its pid, path and command joined by single spaces, the first four free of spaces |
| Discovery.KeyCollisions | crates/agent-plugin-opencode/src/discovery.rs:190-192 | Two panes share a key exactly if one's session and pane split the same text at another colon |
| Discovery.KeysInjective | crates/agent-plugin-opencode/src/discovery.rs:190-192 | Pane ids without a colon make keys injective |
| Text.DecimalRoundTrip | crates/agent-plugin-opencode/src/discovery.rs:221-241 | Every u32 pid survives printing and parsing |
| Limiter.LimiterHolds | crates/agentd/src/plugin_supervisor.rs:208-226 | For every ordered tick sequence any recorded restart is at least 60 s after the third before it, the memory equals the history cut to 60 s, giving up happens exactly when four consecutive stale ticks span under 60 s, and until then every stale tick is recorded |
| Limiter.SilentPluginGivenUp | crates/agentd/src/plugin_heartbeat.rs:75-77 | A silent plugin is given up on exactly at its fourth stale tick when four consecutive ticks span under 60 s |
| Limiter.RecentCounts | crates/agentd/src/plugin_supervisor.rs:218-219 | The window has k entries exactly if the k-th stamp from the end is recent |
| Limiter.MonitorTask.OnTick | crates/agentd/src/plugin_supervisor.rs:209-226 | One wake-up of the monitor, window filter included |
| Supervisor.ReachableConserved | crates/agentd/src/plugin_supervisor.rs:104-143 | In every reachable state the connected names are the handle keys, every running child is held under one name, and all held children run if and only if none of them has exited |
| Supervisor.EnsureIgnoresDead | crates/agentd/src/plugin_supervisor.rs:259-292 | For a plugin whose child has exited `ensure_plugin` answers that nothing was to be done; in every other case where it can be started, success means that it runs |
| Supervisor.EnsureAnswers | crates/agentd/src/plugin_supervisor.rs:259-292 | Exactly when it starts a child, fails, or does nothing, and what it records |
| Supervisor.DeadUntilAutostart | crates/agentd/src/plugin_supervisor.rs:104-143 | After any operation a dead plugin runs again if and only if the operation is an autostart that launches it |
| Supervisor.DeadThenRevived | crates/agentd/src/plugin_supervisor.rs:104-143 | A reachable dead plugin that `ensure_plugin` leaves dead and an autostart revives |
| Supervisor.RespawnCoversOwners | crates/agentd/src/daemon.rs:261-283 | On success the result is the growth in handles, and every manifest plugin owning an unfinished session has one, and runs unless its child had died before; no other plugin gains a handle |
| Supervisor.NeededPlugins | crates/agentd/src/daemon.rs:261-275 | The plugins to respawn are exactly the owners of unfinished sessions, each once |
| Supervisor.BootCountsDoubleStarts | crates/agentd/src/daemon.rs:164-206 | After any boot, whatever children ended on the way, the connected count exceeds the handles by exactly the plugins respawned and launched again, plus the repeated launches of names the manifest repeats |
| Supervisor.BootTwiceOrDeaf | crates/agentd/src/daemon.rs:164-206 | Inputs: one autostarting plugin that owns a session is launched twice, or held without a socket if the bind fails |
| Supervisor.BootPlugins | crates/agentd/src/daemon.rs:164-206 | Respawn, then autostart, with children ending in between; a failed respawn ends the boot |
| Supervisor.RespawnedWithoutSocket | crates/agentd/src/plugin_supervisor.rs:104-191 | After boot a plugin holds a child without a bound socket if and only if it was respawned and no autostart entry of its name was bound |
| Supervisor.PluginSupervisor.EnsurePlugin | crates/agentd/src/plugin_supervisor.rs:259-292 | Starts nothing if the plugin runs or cannot be started; a failed spawn changes nothing; otherwise one launch |
| Supervisor.PluginSupervisor.RestartRespawn | crates/agentd/src/daemon.rs:261-283 | The loop stops at the first failed spawn and counts the children it started |
| Supervisor.PluginSupervisor.AutostartPlugins | crates/agentd/src/plugin_supervisor.rs:104-143 | Entry by entry: socket, then child, skipping what fails; counts the launches |
| Supervisor.PluginSupervisor.BindAndServe | crates/agentd/src/plugin_supervisor.rs:156-191 | Idempotent; a name is recorded exactly if its socket is bound |
| Supervisor.PluginSupervisor.Shutdown | crates/agentd/src/plugin_supervisor.rs:232-240 | Sets the flag that ends monitors and accept loops, kills every held child and empties both tables |
| Calendar.YearLoop | crates/agent-plugin-sdk/src/lib.rs:246-260 | For every 64-bit second count the loop ends, with the one year whose closed-form Gregorian day range holds the day |
| Calendar.YearStep | crates/agent-plugin-sdk/src/lib.rs:251-253 | The closed-form day count grows each year by the leap rule's 365 or 366 |
| Calendar.OneYear | crates/agent-plugin-sdk/src/lib.rs:246-260 | No day lies in two years |
| Calendar.ChronoNow | crates/agent-plugin-sdk/src/lib.rs:240-262 | The stamp is the first of January of the year the loop finds for the clock's seconds, which are 0 before 1970 |
| Calendar.StampDay | crates/agent-plugin-sdk/src/lib.rs:240-262 | The stamp's day opens the year that holds the clock's day |
| Calendar.StampLags | crates/agent-plugin-sdk/src/lib.rs:240-262 | The stamp is monotone, less than 366 days behind, and not in the future exactly if the clock is not before 1970 |
| Tombstone.TextOrderIsDateOrder | crates/agentd/src/daemon.rs:247-251 | For years 0 to 9999 the stored stamp is textually below the cutoff exactly if its date is strictly earlier |
| Tombstone.ExpiredIsOld | crates/agentd/src/daemon.rs:235-255 | The deletion clause in terms of dates: nothing under 30 days goes, everything 31 days old does |
| Tombstone.CollectsByDate | crates/agentd/src/daemon.rs:235-255 | A collection removes exactly the old rows and exactly their events, leaves every other row alone and the tables valid |
| Tombstone.TombstoneGc | crates/agentd/src/daemon.rs:235-255 | Orphans first, then rows with cascading events; returns the number of rows removed |
| Tombstone.WatcherFinishesExpireEarly | crates/agent-plugin-sdk/src/lib.rs:261-261 | A session its watcher reports finished is expired at exactly the boots after January of the year of the report, later years included |
| Tombstone.KillDatesExpiry | crates/agentd/src/handlers/mutate.rs:324-325 | A killed session is expired at a boot exactly if it was killed more than 30 dates before |
| Tombstone.StatusFinishedNeverExpires | crates/agentd/src/db/repo.rs:114-128 | In every reachable state a row has no finish time exactly if boot left it none and it was neither killed nor reported finished, and then no collection removes it |
| Framing.FramingRoundTrip | crates/agentd/src/ipc/framing.rs:20-44 | Writing any messages and reading repeatedly returns the same sequence, then end of stream, with `LineTooLong` for exactly those whose line exceeds 1 MiB |
| Framing.BoundedReaderAgrees | crates/agentd/src/handlers/router.rs:289-308 | On every byte stream the bounded reader rejects for length exactly when the unbounded one does (or as unreadable if the cut splits a UTF-8 character), never accepts an overlong line, and reads every line that fits whole |
| Framing.SplitCharacterFails | crates/agentd/src/handlers/router.rs:299-306 | An input where they part: 1 MiB followed by a two-byte character, which the bounded reader cuts in half |
| Framing.Stream.ReadMessage | crates/agentd/src/ipc/framing.rs:20-35 | One read: end of stream, too long, or the decoded line without its line end; consumes exactly the line |
| Framing.Stream.ReadRequestLine | crates/agentd/src/handlers/router.rs:289-308 | One bounded read, of at most 1 MiB and one byte |
| SessionCreate.CreateIsAllOrNothing | crates/agentd/src/session_create.rs:32-86 | For every input, exactly when a failure leaves rows and tmux as found, and that a success adds one row and one bound tmux session and touches nothing else |
| SessionCreate.CreateOutcome | crates/agentd/src/session_create.rs:32-95 | Every column of the row of a success, and what each error says about the input |
| SessionCreate.BindFailsOnStaleRow | crates/agentd/src/session_create.rs:77-85 | With a healthy tmux the creation succeeds exactly if no old row holds the new pane |
| SessionCreate.CreateSession | crates/agentd/src/session_create.rs:32-95 | The steps and undo steps in order compute that outcome |
| SessionCreate.TmuxServer.NewSession | crates/agentd/src/tmux.rs:187-206 | A name in use is refused; a session can be made without its pane being reported |
| Views.StatusCache.Rebuild | crates/agentd/src/status/cache.rs:49-75 | Whatever the cache held, each pane shows the last unfinished session bound to it and no other pane shows anything; totals, per-status counts and cost are exact |
| Views.TotalCostAppend | crates/agentd/src/status/cache.rs:49-75 | The cost total is additive over any split of the rows |
| Views.PanesDetermined | crates/agentd/src/status/cache.rs:49-75 | Two rebuilds from the same rows agree on every pane |
| Views.SummaryAddsUp | crates/agentd/src/status/cache.rs:49-75 | The per-status counts add up to the total |
| Views.ExtractRecents | crates/agentd/src/tui/new_modal.rs:76-103 | At most ten entries, newest first, one per directory, each the newest use of it, and nothing left out beats anything kept |
| Views.LatestIsMaximum | crates/agentd/src/tui/new_modal.rs:76-98 | Each directory's entry is a use of it and the newest one |

## Left out

- Sockets, accept loops, permissions, flock, double fork, signals, tracing and the command line: plumbing around the core.
- SQLite, serde_json, chrono and tokio internals: a table with the declared constraints, a codec that round-trips and emits no newline, and a channel that only drops its oldest items. Database I/O errors other than constraint violations and oversized integers are not modelled.
- The interleaving inside a handler, between its row write and its event: a call is atomic.
- Real tmux, ps, pgrep and /proc, and the macOS process walk of pane discovery: their results are parameters.
- `read_line_nonblocking` and the streaming socket loop: they depend on how the kernel splits reads.
- The dashboard client's own event channel of 1024 entries: the dashboard is assumed to keep up with the registry.
- Rendering, colours, the status-line text and cost formatting: no state behind them.
- The enum string tables, JSON-RPC error numbers and method names: a missing and an unparsable id are one case, as both draw the same error.
- Session metadata other than its `plugin` key, and audit payloads beyond the reported fields.
- The opencode process started inside a tmux session, and `session.kill`'s effect on tmux.
- FanOut.SubscriberRegistry.BroadcastEvent: a channel's two ends are one value in the registry, so aliasing of channel objects is not captured.
- Dashboard.CountersFromSessions: counts without a bound, not in 32 bits.
- Dashboard.FirstMatch: folds case for ASCII letters only.
- Watcher.StatusIgnoresCase: likewise about ASCII letters only.
- Watcher.PollExact: of a startup pane whose key no other startup pane repeats; `Watcher.PollOneMore` is the step of any pane.
- Watcher.StartExact: likewise.
- Views.ExtractRecents: directories are compared as text, and the order of entries with the same time is left open.
- Supervisor.PluginSupervisor.AutostartPlugins: the monitor task started for each plugin is modelled apart, in `Limiter`.
- Supervisor.ReachableConserved: a child's exit falls between two operations, not inside one.
- Tombstone.TextOrderIsDateOrder: stamps outside the years 0 to 9999 are left out; their text has another width.
