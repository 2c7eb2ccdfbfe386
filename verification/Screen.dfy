/** The screen object against the daemon: the replication theorem, of a constructed and
    drained `TuiState`. */
module Screen {
  import opened Protocol
  import opened Daemon
  import opened Integrity
  import opened Replica
  import opened Convergence
  import opened Dashboard

  /** A dashboard that was built from a snapshot of the tables after the first `m` calls of a
      run, and then drains everything the bus carried since position `p`, no later than the
      snapshot: it is valid, its plugins are the daemon's, and its sessions mirror the rows. */
  method FollowDaemon(snapshot: seq<Option<Session>>, plugins: seq<Option<Plugin>>, events: seq<Event>, now: Time,
                      ghost boot: State, ghost inputs: seq<Input>, ghost m: nat, ghost p: nat)
    returns (screen: TuiState, ghost shown: map<Id, Session>)
    requires Valid(boot) && boot.log == [] && m <= |inputs|
    requires Lists(Decoded(snapshot), Run(boot, inputs[..m]).rows)
    requires ListsPlugins(Decoded(plugins), Run(boot, inputs[..m]).plugins)
    requires p <= |Run(boot, inputs[..m]).log| && p <= |Run(boot, inputs).log|
    requires events == Run(boot, inputs).log[p..]
    ensures fresh(screen) && screen.Valid()
    ensures Lists(screen.sessions, shown) && Mirrors(shown, events, Run(boot, inputs))
    ensures ListsPlugins(screen.plugins, Run(boot, inputs).plugins)
  {
    screen := new TuiState.FromSnapshot(snapshot, plugins);
    screen.Drain(events, now);
    ghost var at := Run(boot, inputs[..m]);
    shown := Replay(at.rows, events);
    ReplicaConverges(boot, inputs, m, p);
    PluginsConverge(boot, inputs, m, p);
    ReplayLists(Decoded(snapshot), at.rows, Decoded(plugins), at.plugins, events);
  }
}
