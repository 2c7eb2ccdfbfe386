/** The plugin supervisor: which plugin names it holds as connected, and which child
    processes it holds handles to. */
module Supervisor {
  import opened Protocol

  datatype Entry = Entry(name: string, binary: string, autostart: bool)

  /** A child process. Handles are dropped with kill-on-drop. */
  type Child = nat

  /** `live` are the children that run, `exited` those that ended by themselves; the supervisor
      never looks at either. */
  datatype Sup = Sup(
    connected: seq<string>,
    handles: map<string, Child>,
    live: set<Child>,
    exited: set<Child>,
    nextChild: Child,
    beats: set<string>,
    sockets: set<string>,
    hasPaths: bool,
    hasSpawner: bool,
    stopping: bool)

  const FRESH := Sup([], map[], {}, {}, 0, {}, {}, false, true, false)

  /** A successful spawn: the name is pushed, the handle inserted, and a handle it replaces
      is dropped, which kills its child. */
  function Launch(s: Sup, name: string): Sup {
    var kept := if name in s.handles then s.live - {s.handles[name]} else s.live;
    s.(connected := s.connected + [name],
       handles := s.handles[name := s.nextChild],
       live := kept + {s.nextChild},
       nextChild := s.nextChild + 1)
  }

  predicate Listed(manifest: seq<Entry>, name: string) {
    exists e | e in manifest :: e.name == name
  }

  /** `ensure_plugin`; `spawns` is whether a spawn would succeed. */
  function Ensure(s: Sup, manifest: seq<Entry>, name: string, spawns: bool): (Sup, Result<bool, ()>) {
    if name in s.handles then (s, Ok(false))
    else if !s.hasSpawner || !Listed(manifest, name) || !s.hasPaths then (s, Ok(false))
    else if !spawns then (s, Err(()))
    else (Launch(s, name), Ok(true))
  }

  /** The loop of `restart_respawn` over the needed names, which stops at the first error. */
  function Respawn(s: Sup, manifest: seq<Entry>, names: seq<string>, spawns: seq<bool>): (Sup, Result<nat, ()>)
    requires |spawns| == |names|
  {
    if names == [] then (s, Ok(0))
    else
      var last := |names| - 1;
      var (t, r) := Respawn(s, manifest, names[..last], spawns[..last]);
      if r.Err? then (t, r)
      else
        var (u, started) := Ensure(t, manifest, names[last], spawns[last]);
        (u, if started.Err? then Err(()) else Ok(r.value + if started.value then 1 else 0))
  }

  /** One manifest entry of `autostart`: the socket first, then the child. */
  function AutostartOne(s: Sup, e: Entry, binds: bool, spawns: bool): Sup {
    if !e.autostart || (e.name !in s.sockets && !binds) then s
    else
      var bound := s.(sockets := s.sockets + {e.name});
      if !spawns then bound
      else
        var t := Launch(bound, e.name);
        t.(beats := t.beats + {e.name})
  }

  function Autostart(s: Sup, manifest: seq<Entry>, binds: seq<bool>, spawns: seq<bool>): Sup
    requires |binds| == |spawns| == |manifest|
  {
    if manifest == [] then s.(hasPaths := true)
    else
      var last := |manifest| - 1;
      AutostartOne(Autostart(s, manifest[..last], binds[..last], spawns[..last]),
                   manifest[last], binds[last], spawns[last])
  }

  function Held(handles: map<string, Child>): set<Child> {
    set n | n in handles :: handles[n]
  }

  /** The flag stops the monitors and the accept loops; the children are killed. */
  function ShutDown(s: Sup): Sup {
    s.(handles := map[], live := s.live - Held(s.handles), connected := [], stopping := true)
  }

  /** A child crashes, or gives up. */
  function Exit(s: Sup, c: Child): Sup {
    if c in s.live then s.(live := s.live - {c}, exited := s.exited + {c}) else s
  }

  // ---------------------------------------------------------------------- conservation

  ghost predicate Conserved(s: Sup) {
    && (set n | n in s.connected) == s.handles.Keys
    && s.live == Held(s.handles) - s.exited
    && (forall a, b | a in s.handles && b in s.handles && a != b :: s.handles[a] != s.handles[b])
    && (forall n | n in s.handles :: s.handles[n] < s.nextChild)
    && (forall c | c in s.exited :: c < s.nextChild)
  }

  lemma HeldAfterLaunch(s: Sup, name: string)
    requires Conserved(s)
    ensures Held(Launch(s, name).handles) ==
              (if name in s.handles then Held(s.handles) - {s.handles[name]} else Held(s.handles)) + {s.nextChild}
  {
    var t := Launch(s, name);
    forall c | c in Held(s.handles) && (name in s.handles ==> c != s.handles[name]) ensures c in Held(t.handles) {
      var n :| n in s.handles && s.handles[n] == c;
      assert t.handles[n] == c;
    }
    assert t.handles[name] == s.nextChild;
    forall c | c in Held(t.handles) && c != s.nextChild
      ensures c in Held(s.handles) && (name in s.handles ==> c != s.handles[name])
    {
      var n :| n in t.handles && t.handles[n] == c;
      assert n != name && s.handles[n] == c;
    }
  }

  lemma LaunchConserves(s: Sup, name: string)
    requires Conserved(s)
    ensures Conserved(Launch(s, name))
  {
    var t := Launch(s, name);
    assert forall n :: n in t.connected <==> n in s.connected || n == name;
    HeldAfterLaunch(s, name);
  }

  lemma ExitConserves(s: Sup, c: Child)
    requires Conserved(s)
    ensures Conserved(Exit(s, c))
  {
    if c in s.live {
      assert c in Held(s.handles);
    }
  }

  /** Every operation of the supervisor. */
  datatype SupOp =
    | SetPaths
    | EnsureOp(name: string, spawns: bool)
    | RespawnOp(names: seq<string>, outcomes: seq<bool>)
    | AutostartOp(binds: seq<bool>, outcomes: seq<bool>)
    | ShutdownOp
    | ExitOp(child: Child)

  predicate WellFormed(op: SupOp, manifest: seq<Entry>) {
    match op
    case RespawnOp(names, outcomes) => |outcomes| == |names|
    case AutostartOp(binds, outcomes) => |binds| == |outcomes| == |manifest|
    case _ => true
  }

  function SupStep(s: Sup, manifest: seq<Entry>, op: SupOp): Sup
    requires WellFormed(op, manifest)
  {
    match op
    case SetPaths => s.(hasPaths := true)
    case EnsureOp(name, spawns) => Ensure(s, manifest, name, spawns).0
    case RespawnOp(names, outcomes) => Respawn(s, manifest, names, outcomes).0
    case AutostartOp(binds, outcomes) =>
      if s.hasSpawner then Autostart(s, manifest, binds, outcomes) else s.(hasPaths := true)
    case ShutdownOp => ShutDown(s)
    case ExitOp(child) => Exit(s, child)
  }

  function SupRun(manifest: seq<Entry>, ops: seq<SupOp>): Sup
    requires forall op | op in ops :: WellFormed(op, manifest)
  {
    if ops == [] then FRESH
    else SupStep(SupRun(manifest, ops[..|ops| - 1]), manifest, ops[|ops| - 1])
  }

  lemma {:induction false} AutostartConserves(s: Sup, manifest: seq<Entry>, binds: seq<bool>, spawns: seq<bool>)
    requires |binds| == |spawns| == |manifest| && Conserved(s)
    ensures Conserved(Autostart(s, manifest, binds, spawns))
    decreases |manifest|
  {
    if manifest != [] {
      var last := |manifest| - 1;
      AutostartConserves(s, manifest[..last], binds[..last], spawns[..last]);
      var t := Autostart(s, manifest[..last], binds[..last], spawns[..last]);
      LaunchConserves(t.(sockets := t.sockets + {manifest[last].name}), manifest[last].name);
    }
  }

  /** Nothing but new handles, with children that run. */
  ghost predicate Extends(s: Sup, t: Sup) {
    && t.hasPaths == s.hasPaths && t.hasSpawner == s.hasSpawner && t.sockets == s.sockets && t.exited == s.exited
    && t.beats == s.beats && t.stopping == s.stopping
    && (forall n | n in s.handles :: n in t.handles && t.handles[n] == s.handles[n])
    && (forall n | n in t.handles && n !in s.handles :: t.handles[n] !in s.exited)
  }

  lemma EnsureEffect(s: Sup, manifest: seq<Entry>, name: string, spawns: bool)
    requires Conserved(s)
    ensures var (t, r) := Ensure(s, manifest, name, spawns);
            && Conserved(t) && Extends(s, t)
            && (r.Ok? ==> |t.handles| == |s.handles| + if r.value then 1 else 0)
            && (forall n | n in t.handles && n !in s.handles :: n == name && Listed(manifest, name))
            && (r.Ok? && s.hasPaths && s.hasSpawner && Listed(manifest, name) ==> name in t.handles)
  {
    if name !in s.handles {
      LaunchConserves(s, name);
      assert |s.handles[name := s.nextChild]| == |s.handles| + 1;
    }
  }

  /** The answers of `ensure_plugin`: it starts a child exactly if the plugin has no handle, is in
      the manifest, and spawner, paths and spawn work out; only a failing spawn is an error. */
  lemma EnsureAnswers(s: Sup, manifest: seq<Entry>, name: string, spawns: bool)
    ensures var (t, r) := Ensure(s, manifest, name, spawns);
            var startable := && name !in s.handles && s.hasSpawner && s.hasPaths
                             && exists e | e in manifest :: e.name == name;
            && (r == Ok(true) <==> startable && spawns)
            && (r.Err? <==> startable && !spawns)
            && (r != Ok(true) ==> t == s)
            && (r == Ok(true) ==> t.handles == s.handles[name := s.nextChild] && t.connected == s.connected + [name]
                                  && s.nextChild in t.live && t.nextChild == s.nextChild + 1 && t.beats == s.beats)
  {
  }

  /** The plugin has a child that runs. */
  predicate Running(s: Sup, name: string) {
    name in s.handles && s.handles[name] in s.live
  }

  /** Its child has exited. */
  predicate Dead(s: Sup, name: string) {
    name in s.handles && s.handles[name] in s.exited
  }

  lemma RunningHeld(s: Sup, name: string)
    requires Conserved(s)
    ensures Running(s, name) <==> name in s.handles && s.handles[name] !in s.exited
  {
    if name in s.handles {
      assert s.handles[name] in Held(s.handles);
    }
  }

  /** `ensure_plugin` looks at the handle, not at the child. For a plugin whose child is dead
      it does nothing and answers that the plugin was running; in every other case in which
      the plugin can be started, a success means that it runs. */
  lemma EnsureIgnoresDead(s: Sup, manifest: seq<Entry>, name: string, spawns: bool)
    requires Conserved(s)
    ensures Dead(s, name) ==> Ensure(s, manifest, name, spawns) == (s, Ok(false)) && !Running(s, name)
    ensures var (t, r) := Ensure(s, manifest, name, spawns);
            r.Ok? && s.hasPaths && s.hasSpawner && Listed(manifest, name) ==> (Running(t, name) <==> !Dead(s, name))
  {
    EnsureEffect(s, manifest, name, spawns);
    RunningHeld(s, name);
    RunningHeld(Ensure(s, manifest, name, spawns).0, name);
  }

  lemma {:induction false} RespawnConserves(s: Sup, manifest: seq<Entry>, names: seq<string>, spawns: seq<bool>)
    requires |spawns| == |names| && Conserved(s)
    ensures var t := Respawn(s, manifest, names, spawns).0; Conserved(t) && Extends(s, t)
    decreases |names|
  {
    if names != [] {
      var last := |names| - 1;
      RespawnConserves(s, manifest, names[..last], spawns[..last]);
      EnsureEffect(Respawn(s, manifest, names[..last], spawns[..last]).0, manifest, names[last], spawns[last]);
    }
  }

  lemma {:induction false} RespawnCounts(s: Sup, manifest: seq<Entry>, names: seq<string>, spawns: seq<bool>)
    requires |spawns| == |names| && Conserved(s)
    ensures var (t, r) := Respawn(s, manifest, names, spawns);
            r.Ok? ==> r.value == |t.handles| - |s.handles|
    decreases |names|
  {
    if names != [] {
      var last := |names| - 1;
      RespawnCounts(s, manifest, names[..last], spawns[..last]);
      RespawnConserves(s, manifest, names[..last], spawns[..last]);
      EnsureEffect(Respawn(s, manifest, names[..last], spawns[..last]).0, manifest, names[last], spawns[last]);
    }
  }

  /** What a respawn does on the way: children are conserved, handles are only added, one per
      plugin counted, all of them for names asked for, and every name asked for has a handle
      unless it cannot be spawned. */
  lemma {:induction false} RespawnEffect(s: Sup, manifest: seq<Entry>, names: seq<string>, spawns: seq<bool>)
    requires |spawns| == |names| && Conserved(s)
    ensures var (t, r) := Respawn(s, manifest, names, spawns);
            && Conserved(t) && Extends(s, t)
            && (r.Ok? ==> r.value == |t.handles| - |s.handles|)
            && (forall n | n in t.handles && n !in s.handles :: n in names && Listed(manifest, n))
            && (r.Ok? && s.hasPaths && s.hasSpawner ==>
                  forall n | n in names && Listed(manifest, n) :: n in t.handles)
    decreases |names|
  {
    RespawnConserves(s, manifest, names, spawns);
    RespawnCounts(s, manifest, names, spawns);
    if names != [] {
      var last := |names| - 1;
      RespawnEffect(s, manifest, names[..last], spawns[..last]);
      EnsureEffect(Respawn(s, manifest, names[..last], spawns[..last]).0, manifest, names[last], spawns[last]);
      assert names == names[..last] + [names[last]];
    }
  }

  lemma RespawnOneMore(s: Sup, manifest: seq<Entry>, names: seq<string>, spawns: seq<bool>, i: nat)
    requires |spawns| == |names| && i < |names|
    requires Respawn(s, manifest, names[..i], spawns[..i]).1.Ok?
    ensures var (t, r) := Respawn(s, manifest, names[..i], spawns[..i]);
            var (u, started) := Ensure(t, manifest, names[i], spawns[i]);
            Respawn(s, manifest, names[..i + 1], spawns[..i + 1]) ==
              (u, if started.Err? then Err(()) else Ok(r.value + if started.value then 1 else 0))
  {
    assert names[..i + 1][..i] == names[..i] && spawns[..i + 1][..i] == spawns[..i];
  }

  lemma ShutDownConserves(s: Sup)
    requires Conserved(s)
    ensures Conserved(ShutDown(s)) && ShutDown(s).live == {}
  {
    assert (set n | n in ShutDown(s).connected) == {};
    assert Held(map[]) == {};
  }

  lemma SupStepConserves(s: Sup, manifest: seq<Entry>, op: SupOp)
    requires Conserved(s) && WellFormed(op, manifest)
    ensures Conserved(SupStep(s, manifest, op))
  {
    match op
    case SetPaths =>
    case EnsureOp(name, spawns) => EnsureEffect(s, manifest, name, spawns);
    case RespawnOp(names, outcomes) => RespawnEffect(s, manifest, names, outcomes);
    case AutostartOp(binds, outcomes) =>
      if s.hasSpawner {
        AutostartConserves(s, manifest, binds, outcomes);
      }
    case ShutdownOp => ShutDownConserves(s);
    case ExitOp(child) => ExitConserves(s, child);
  }

  /** Supervisor conservation, in every reachable state: the names held as connected are, as
      a set, the keys of the handle table, and every child that runs is held, by one name. The
      children that run are all those held if and only if no held child has exited: the
      supervisor never notices an exit. */
  lemma {:induction false} ReachableConserved(manifest: seq<Entry>, ops: seq<SupOp>)
    requires forall op | op in ops :: WellFormed(op, manifest)
    ensures var s := SupRun(manifest, ops);
            && Conserved(s) && s.live <= Held(s.handles)
            && (s.live == Held(s.handles) <==> Held(s.handles) !! s.exited)
    decreases |ops|
  {
    if ops == [] {
      assert (set n | n in FRESH.connected) == {};
      assert Held(map[]) == {};
    } else {
      var before, op := ops[..|ops| - 1], ops[|ops| - 1];
      assert op in ops;
      ReachableConserved(manifest, before);
      SupStepConserves(SupRun(manifest, before), manifest, op);
    }
  }

  // ------------------------------------------------------------------------------ boot

  /** The plugins that own a session that is not finished. */
  function Needed(rows: map<Id, Session>): set<string> {
    set id | id in rows && rows[id].status != Finished && rows[id].plugin.Some? :: rows[id].plugin.value
  }

  /** `restart_respawn`: if it succeeds, it returns how many handles were gained, and every
      manifest plugin that owns a non-finished session has one; such a plugin runs unless its
      child had already died. */
  lemma RespawnCoversOwners(s: Sup, manifest: seq<Entry>, rows: map<Id, Session>, names: seq<string>, spawns: seq<bool>)
    requires Conserved(s) && s.hasPaths && s.hasSpawner && |spawns| == |names|
    requires forall n :: n in names <==> n in Needed(rows)
    ensures var (t, r) := Respawn(s, manifest, names, spawns);
            && (r.Ok? ==>
                  && r.value == |t.handles| - |s.handles|
                  && forall id | id in rows && rows[id].status != Finished && rows[id].plugin.Some? &&
                                 Listed(manifest, rows[id].plugin.value) ::
                       && rows[id].plugin.value in t.handles
                       && (Running(t, rows[id].plugin.value) <==> !Dead(s, rows[id].plugin.value)))
            && (forall n | n in t.handles && n !in s.handles ::
                  && Listed(manifest, n)
                  && exists id :: id in rows && rows[id].status != Finished && rows[id].plugin == Some(n))
  {
    RespawnEffect(s, manifest, names, spawns);
    var (t, r) := Respawn(s, manifest, names, spawns);
    forall id | id in rows && rows[id].status != Finished && rows[id].plugin.Some?
      ensures rows[id].plugin.value in names
      ensures rows[id].plugin.value in t.handles ==>
                (Running(t, rows[id].plugin.value) <==> !Dead(s, rows[id].plugin.value))
    {
      assert rows[id].plugin.value in Needed(rows);
      RunningHeld(t, rows[id].plugin.value);
    }
    forall n | n in t.handles && n !in s.handles
      ensures exists id :: id in rows && rows[id].status != Finished && rows[id].plugin == Some(n)
    {
      assert n in Needed(rows);
    }
  }

  /** The set that `restart_respawn` fills, in some order. */
  method NeededPlugins(active: seq<Session>) returns (names: seq<string>)
    ensures forall n :: n in names <==>
              exists i :: 0 <= i < |active| && active[i].status != Finished && active[i].plugin == Some(n)
    ensures forall i, j | 0 <= i < j < |names| :: names[i] != names[j]
  {
    names := [];
    for i := 0 to |active|
      invariant forall n :: n in names <==>
                  exists k :: 0 <= k < i && active[k].status != Finished && active[k].plugin == Some(n)
      invariant forall a, b | 0 <= a < b < |names| :: names[a] != names[b]
    {
      if active[i].status != Finished && active[i].plugin.Some? && active[i].plugin.value !in names {
        names := names + [active[i].plugin.value];
      }
    }
  }

  /** The names whose sockets `autostart` finds bound or binds. */
  function BoundNames(manifest: seq<Entry>, binds: seq<bool>): set<string>
    requires |binds| == |manifest|
  {
    if manifest == [] then {}
    else
      var last := |manifest| - 1;
      BoundNames(manifest[..last], binds[..last]) +
      if manifest[last].autostart && binds[last] then {manifest[last].name} else {}
  }

  /** The names `autostart` launches a child for. */
  function Launched(sockets: set<string>, manifest: seq<Entry>, binds: seq<bool>, spawns: seq<bool>): seq<string>
    requires |binds| == |spawns| == |manifest|
  {
    if manifest == [] then []
    else
      var last := |manifest| - 1;
      var e := manifest[last];
      var ready := binds[last] || e.name in sockets + BoundNames(manifest[..last], binds[..last]);
      Launched(sockets, manifest[..last], binds[..last], spawns[..last]) +
      if e.autostart && ready && spawns[last] then [e.name] else []
  }

  lemma {:induction false} AutostartSockets(s: Sup, manifest: seq<Entry>, binds: seq<bool>, spawns: seq<bool>)
    requires |binds| == |spawns| == |manifest|
    ensures Autostart(s, manifest, binds, spawns).sockets == s.sockets + BoundNames(manifest, binds)
    decreases |manifest|
  {
    if manifest != [] {
      var last := |manifest| - 1;
      AutostartSockets(s, manifest[..last], binds[..last], spawns[..last]);
    }
  }

  function Names(list: seq<string>): set<string> {
    set n | n in list
  }

  lemma NamesSnoc(list: seq<string>, n: string)
    ensures Names(list + [n]) == Names(list) + {n}
  {
  }

  /** Autostart pushes every name it launches, whether or not the plugin already runs. */
  lemma {:induction false} AutostartEffect(s: Sup, manifest: seq<Entry>, binds: seq<bool>, spawns: seq<bool>)
    requires |binds| == |spawns| == |manifest|
    ensures var t := Autostart(s, manifest, binds, spawns);
            var launched := Launched(s.sockets, manifest, binds, spawns);
            && t.connected == s.connected + launched && t.handles.Keys == s.handles.Keys + Names(launched)
            && t.beats == s.beats + Names(launched)
    decreases |manifest|
  {
    if manifest != [] {
      var last := |manifest| - 1;
      var before := manifest[..last];
      AutostartEffect(s, before, binds[..last], spawns[..last]);
      AutostartSockets(s, before, binds[..last], spawns[..last]);
      var launched := Launched(s.sockets, before, binds[..last], spawns[..last]);
      NamesSnoc(launched, manifest[last].name);
      assert launched + [] == launched;
    } else {
      assert Names([]) == {};
    }
  }

  lemma AutostartOneMore(s: Sup, manifest: seq<Entry>, binds: seq<bool>, spawns: seq<bool>, i: nat)
    requires |binds| == |spawns| == |manifest| && i < |manifest|
    ensures var t := Autostart(s, manifest[..i], binds[..i], spawns[..i]);
            var e := manifest[i];
            var launches := e.autostart && (binds[i] || e.name in t.sockets) && spawns[i];
            && Autostart(s, manifest[..i + 1], binds[..i + 1], spawns[..i + 1]) ==
                 AutostartOne(t, e, binds[i], spawns[i])
            && |Launched(s.sockets, manifest[..i + 1], binds[..i + 1], spawns[..i + 1])| ==
                 |Launched(s.sockets, manifest[..i], binds[..i], spawns[..i])| + if launches then 1 else 0
  {
    assert manifest[..i + 1][..i] == manifest[..i] && binds[..i + 1][..i] == binds[..i]
           && spawns[..i + 1][..i] == spawns[..i];
    AutostartSockets(s, manifest[..i], binds[..i], spawns[..i]);
  }

  // ------------------------------------------------------------------- dead and revived

  lemma LaunchRuns(s: Sup, launched: string, name: string)
    requires Conserved(s)
    ensures Running(Launch(s, launched), name) <==> name == launched || Running(s, name)
  {
  }

  /** Autostart runs what ran before and what it launches. */
  lemma {:induction false} AutostartRuns(s: Sup, manifest: seq<Entry>, binds: seq<bool>, spawns: seq<bool>,
                                         name: string)
    requires |binds| == |spawns| == |manifest| && Conserved(s)
    ensures Running(Autostart(s, manifest, binds, spawns), name) <==>
              Running(s, name) || name in Launched(s.sockets, manifest, binds, spawns)
    decreases |manifest|
  {
    if manifest != [] {
      var last := |manifest| - 1;
      var t := Autostart(s, manifest[..last], binds[..last], spawns[..last]);
      AutostartRuns(s, manifest[..last], binds[..last], spawns[..last], name);
      AutostartConserves(s, manifest[..last], binds[..last], spawns[..last]);
      AutostartSockets(s, manifest[..last], binds[..last], spawns[..last]);
      LaunchRuns(t.(sockets := t.sockets + {manifest[last].name}), manifest[last].name, name);
    }
  }

  lemma DeadNotRunning(s: Sup, name: string)
    requires Conserved(s) && Dead(s, name)
    ensures !Running(s, name)
  {
    RunningHeld(s, name);
  }

  lemma EnsureKeepsDead(s: Sup, manifest: seq<Entry>, other: string, spawns: bool, name: string)
    requires Conserved(s) && Dead(s, name)
    ensures !Running(Ensure(s, manifest, other, spawns).0, name)
  {
    EnsureEffect(s, manifest, other, spawns);
    DeadNotRunning(Ensure(s, manifest, other, spawns).0, name);
  }

  lemma RespawnKeepsDead(s: Sup, manifest: seq<Entry>, names: seq<string>, spawns: seq<bool>, name: string)
    requires |spawns| == |names| && Conserved(s) && Dead(s, name)
    ensures !Running(Respawn(s, manifest, names, spawns).0, name)
  {
    RespawnConserves(s, manifest, names, spawns);
    DeadNotRunning(Respawn(s, manifest, names, spawns).0, name);
  }

  /** When a dead plugin comes back. Of all operations only an autostart revives it, which
      looks at neither handles nor children, and exactly if it launches the plugin. */
  lemma DeadUntilAutostart(s: Sup, manifest: seq<Entry>, op: SupOp, name: string)
    requires Conserved(s) && WellFormed(op, manifest) && Dead(s, name)
    ensures Running(SupStep(s, manifest, op), name) <==>
              op.AutostartOp? && s.hasSpawner && name in Launched(s.sockets, manifest, op.binds, op.outcomes)
  {
    DeadNotRunning(s, name);
    match op
    case SetPaths =>
    case EnsureOp(other, spawns) => EnsureKeepsDead(s, manifest, other, spawns, name);
    case RespawnOp(names, outcomes) => RespawnKeepsDead(s, manifest, names, outcomes, name);
    case AutostartOp(binds, outcomes) =>
      if s.hasSpawner {
        AutostartRuns(s, manifest, binds, outcomes, name);
      }
    case ShutdownOp =>
    case ExitOp(child) =>
  }

  /** Both happen: a plugin started by `ensure_plugin` dies, stays dead under another
      `ensure_plugin`, and runs again after an autostart. */
  lemma DeadThenRevived()
    ensures var manifest := [Entry("opencode", "opencode", true)];
            var dead := SupRun(manifest, [SetPaths, EnsureOp("opencode", true), ExitOp(0)]);
            && Dead(dead, "opencode")
            && Ensure(dead, manifest, "opencode", true) == (dead, Ok(false))
            && Running(SupStep(dead, manifest, AutostartOp([true], [true])), "opencode")
  {
    var e := Entry("opencode", "opencode", true);
    assert Listed([e], "opencode") by { assert [e][0] in [e]; }
    RunOfThree([e], SetPaths, EnsureOp("opencode", true), ExitOp(0));
    var held := Launch(FRESH.(hasPaths := true), "opencode");
    assert 0 in held.live && held.handles["opencode"] == 0;
    AutostartSingle(Exit(held, 0), e, true, true);
  }

  lemma RunOfThree(manifest: seq<Entry>, a: SupOp, b: SupOp, c: SupOp)
    requires WellFormed(a, manifest) && WellFormed(b, manifest) && WellFormed(c, manifest)
    ensures SupRun(manifest, [a, b, c]) == SupStep(SupStep(SupStep(FRESH, manifest, a), manifest, b), manifest, c)
  {
    assert [a, b, c][..2] == [a, b] && [a, b][..1] == [a] && [a][..0] == [];
    assert SupRun(manifest, [a]) == SupStep(SupRun(manifest, []), manifest, a);
    assert SupRun(manifest, [a, b]) == SupStep(SupRun(manifest, [a]), manifest, b);
  }

  // -------------------------------------------------------------------- launched twice

  ghost predicate UniqueNames(manifest: seq<Entry>) {
    forall i, j | 0 <= i < j < |manifest| :: manifest[i].name != manifest[j].name
  }

  ghost predicate NoRepeats(list: seq<string>) {
    forall i, j | 0 <= i < j < |list| :: list[i] != list[j]
  }

  lemma {:induction false} LaunchedFromManifest(sockets: set<string>, manifest: seq<Entry>, binds: seq<bool>,
                                                spawns: seq<bool>, name: string)
    returns (i: nat)
    requires |binds| == |spawns| == |manifest| && name in Launched(sockets, manifest, binds, spawns)
    ensures i < |manifest| && manifest[i].name == name
    decreases |manifest|
  {
    var last := |manifest| - 1;
    if name in Launched(sockets, manifest[..last], binds[..last], spawns[..last]) {
      i := LaunchedFromManifest(sockets, manifest[..last], binds[..last], spawns[..last], name);
    } else {
      i := last;
    }
  }

  lemma {:induction false} LaunchedOnce(sockets: set<string>, manifest: seq<Entry>, binds: seq<bool>, spawns: seq<bool>)
    requires |binds| == |spawns| == |manifest| && UniqueNames(manifest)
    ensures NoRepeats(Launched(sockets, manifest, binds, spawns))
    decreases |manifest|
  {
    if manifest != [] {
      var last := |manifest| - 1;
      var launched := Launched(sockets, manifest[..last], binds[..last], spawns[..last]);
      LaunchedOnce(sockets, manifest[..last], binds[..last], spawns[..last]);
      forall k | 0 <= k < |launched| ensures launched[k] != manifest[last].name {
        var i := LaunchedFromManifest(sockets, manifest[..last], binds[..last], spawns[..last], launched[k]);
        assert manifest[i].name != manifest[last].name;
      }
    }
  }

  lemma {:induction false} NoRepeatsCount(list: seq<string>)
    requires NoRepeats(list)
    ensures |Names(list)| == |list|
    decreases |list|
  {
    if list != [] {
      var before, last := list[..|list| - 1], list[|list| - 1];
      NoRepeatsCount(before);
      assert Names(list) == Names(before) + {last} by {
        assert list == before + [last];
      }
      assert last !in before;
    } else {
      assert Names(list) == {};
    }
  }

  lemma {:induction false} RespawnNeverRepeats(s: Sup, manifest: seq<Entry>, names: seq<string>, spawns: seq<bool>)
    requires |spawns| == |names| && |s.connected| == |s.handles|
    ensures var t := Respawn(s, manifest, names, spawns).0; |t.connected| == |t.handles|
    decreases |names|
  {
    if names != [] {
      var last := |names| - 1;
      RespawnNeverRepeats(s, manifest, names[..last], spawns[..last]);
      var t := Respawn(s, manifest, names[..last], spawns[..last]).0;
      if names[last] !in t.handles {
        assert |t.handles[names[last] := t.nextChild]| == |t.handles| + 1;
      }
    }
  }

  /** Children that end between the two steps of the boot. */
  function Crash(s: Sup, children: seq<Child>): Sup {
    if children == [] then s
    else Exit(Crash(s, children[..|children| - 1]), children[|children| - 1])
  }

  /** The supervisor's part of the boot: respawn, then autostart. A failed respawn ends the
      boot. */
  function Boot(manifest: seq<Entry>, names: seq<string>, respawns: seq<bool>, crashed: seq<Child>,
                binds: seq<bool>, spawns: seq<bool>): Sup
    requires |respawns| == |names| && |binds| == |spawns| == |manifest|
  {
    var (t, r) := Respawn(READY, manifest, names, respawns);
    if r.Err? then t else Autostart(Crash(t, crashed), manifest, binds, spawns)
  }

  const READY := FRESH.(hasPaths := true)

  /** The supervisor does not notice a crash. */
  lemma {:induction false} CrashUnseen(s: Sup, children: seq<Child>)
    ensures var t := Crash(s, children);
            t.connected == s.connected && t.handles == s.handles && t.sockets == s.sockets
    decreases |children|
  {
    if children != [] {
      CrashUnseen(s, children[..|children| - 1]);
    }
  }

  /** `connected_count` exceeds the number of plugins held after a boot by exactly the plugins
      that were respawned, because they own a session, and launched again, because they
      autostart; plus the repeated launches of names that the manifest lists more than once,
      of which there are none if its names are unique. */
  lemma BootCountsDoubleStarts(manifest: seq<Entry>, names: seq<string>, respawns: seq<bool>, crashed: seq<Child>,
                               binds: seq<bool>, spawns: seq<bool>)
    requires |respawns| == |names| && |binds| == |spawns| == |manifest|
    ensures var (t, r) := Respawn(READY, manifest, names, respawns);
            var u := Boot(manifest, names, respawns, crashed, binds, spawns);
            var launched := Launched(t.sockets, manifest, binds, spawns);
            && |u.connected| - |u.handles| ==
                 (if r.Ok? then |t.handles.Keys * Names(launched)| + (|launched| - |Names(launched)|) else 0)
            && (UniqueNames(manifest) ==> |launched| == |Names(launched)|)
  {
    RespawnNeverRepeats(READY, manifest, names, respawns);
    var t := Respawn(READY, manifest, names, respawns).0;
    CrashUnseen(t, crashed);
    AutostartEffect(Crash(t, crashed), manifest, binds, spawns);
    if UniqueNames(manifest) {
      LaunchedOnce(t.sockets, manifest, binds, spawns);
      NoRepeatsCount(Launched(t.sockets, manifest, binds, spawns));
    }
  }

  predicate BoundBy(manifest: seq<Entry>, binds: seq<bool>, name: string, i: nat)
    requires |binds| == |manifest|
  {
    i < |manifest| && manifest[i].name == name && manifest[i].autostart && binds[i]
  }

  /** A socket is bound for exactly the autostart entries whose bind succeeds. */
  lemma {:induction false} BoundNamesExact(manifest: seq<Entry>, binds: seq<bool>, name: string)
    requires |binds| == |manifest|
    ensures name in BoundNames(manifest, binds) <==> exists i :: BoundBy(manifest, binds, name, i)
    decreases |manifest|
  {
    if manifest != [] {
      var last := |manifest| - 1;
      BoundNamesExact(manifest[..last], binds[..last], name);
      if i: nat :| BoundBy(manifest[..last], binds[..last], name, i) {
        assert BoundBy(manifest, binds, name, i);
      }
      if i: nat :| BoundBy(manifest, binds, name, i) {
        if i < last {
          assert BoundBy(manifest[..last], binds[..last], name, i);
        }
      }
      if manifest[last].name == name && manifest[last].autostart && binds[last] {
        assert BoundBy(manifest, binds, name, last);
      }
    }
  }

  /** Autostart itself never launches a child without a socket. */
  lemma {:induction false} LaunchedHaveSockets(sockets: set<string>, manifest: seq<Entry>, binds: seq<bool>,
                                               spawns: seq<bool>)
    requires |binds| == |spawns| == |manifest|
    ensures Names(Launched(sockets, manifest, binds, spawns)) <= sockets + BoundNames(manifest, binds)
    decreases |manifest|
  {
    if manifest != [] {
      var last := |manifest| - 1;
      LaunchedHaveSockets(sockets, manifest[..last], binds[..last], spawns[..last]);
      var launched := Launched(sockets, manifest[..last], binds[..last], spawns[..last]);
      forall n | n in Launched(sockets, manifest, binds, spawns)
        ensures n in sockets + BoundNames(manifest, binds)
      {
        assert n in launched ==> n in Names(launched);
      }
    }
  }

  /** Which plugins hold a child after boot but have no socket for it to connect to: exactly
      those that the respawn started and whose socket autostart did not bind. These are the
      manifest plugins that own a session, and either do not autostart or fail to bind. */
  lemma RespawnedWithoutSocket(manifest: seq<Entry>, names: seq<string>, respawns: seq<bool>, crashed: seq<Child>,
                               binds: seq<bool>, spawns: seq<bool>, name: string)
    requires |respawns| == |names| && |binds| == |spawns| == |manifest|
    ensures var (t, r) := Respawn(READY, manifest, names, respawns);
            var u := Boot(manifest, names, respawns, crashed, binds, spawns);
            && (name in u.handles && name !in u.sockets <==>
                  name in t.handles && (r.Ok? ==> !exists i :: BoundBy(manifest, binds, name, i)))
            && (r.Ok? ==>
                  (name in u.handles && name !in u.sockets <==>
                     name in names && Listed(manifest, name) && !exists i :: BoundBy(manifest, binds, name, i)))
  {
    ReadyConserved();
    RespawnEffect(READY, manifest, names, respawns);
    var t := Respawn(READY, manifest, names, respawns).0;
    CrashUnseen(t, crashed);
    AutostartEffect(Crash(t, crashed), manifest, binds, spawns);
    AutostartSockets(Crash(t, crashed), manifest, binds, spawns);
    LaunchedHaveSockets(t.sockets, manifest, binds, spawns);
    BoundNamesExact(manifest, binds, name);
  }

  lemma ReadyConserved()
    ensures Conserved(READY)
  {
    assert (set n | n in READY.connected) == {} && Held(map[]) == {};
  }

  lemma RespawnSingle(s: Sup, manifest: seq<Entry>, name: string)
    requires name !in s.handles && s.hasSpawner && s.hasPaths && Listed(manifest, name)
    ensures Respawn(s, manifest, [name], [true]) == (Launch(s, name), Ok(1))
  {
    assert [name][..0] == [] && [true][..0] == [];
    assert Respawn(s, manifest, [], []) == (s, Ok(0));
  }

  lemma AutostartSingle(s: Sup, e: Entry, binds: bool, spawns: bool)
    ensures Autostart(s, [e], [binds], [spawns]) == AutostartOne(s.(hasPaths := true), e, binds, spawns)
  {
    assert [e][..0] == [] && [binds][..0] == [] && [spawns][..0] == [];
    assert Autostart(s, [], [], []) == s.(hasPaths := true);
  }

  lemma BootSingle(e: Entry, binds: bool)
    requires e.autostart
    ensures Boot([e], [e.name], [true], [], [binds], [true]) == AutostartOne(Launch(READY, e.name), e, binds, true)
  {
    assert Listed([e], e.name) by { assert [e][0] in [e]; }
    RespawnSingle(READY, [e], e.name);
    var t := Launch(READY, e.name);
    AutostartSingle(t, e, binds, true);
    assert t.(hasPaths := true) == t;
  }

  /** Inputs for both: a single plugin that autostarts and owns a session. If its socket can be
      bound it is launched twice, and if not it is held without one. */
  lemma BootTwiceOrDeaf(e: Entry, binds: bool)
    requires e.autostart
    ensures var u := Boot([e], [e.name], [true], [], [binds], [true]);
            && |u.handles| == 1 && |u.connected| == (if binds then 2 else 1)
            && e.name in u.handles && (e.name in u.sockets <==> binds)
  {
    BootSingle(e, binds);
    var t := Launch(READY, e.name);
    var u := AutostartOne(t, e, binds, true);
    assert t.handles == map[e.name := 0];
    assert u.handles == map[e.name := if binds then 1 else 0];
  }

  // ------------------------------------------------------------------- the supervisor

  class PluginSupervisor {
    const manifest: seq<Entry>
    var connected: seq<string>
    var handles: map<string, Child>
    var live: set<Child>
    var exited: set<Child>
    var nextChild: Child
    var heartbeats: set<string>
    var pluginUdsPaths: set<string>
    var hasPaths: bool
    var hasSpawner: bool
    var shutdown: bool

    ghost function View(): Sup
      reads this
    {
      Sup(connected, handles, live, exited, nextChild, heartbeats, pluginUdsPaths, hasPaths, hasSpawner, shutdown)
    }

    constructor (manifest: seq<Entry>)
      ensures this.manifest == manifest && View() == FRESH
    {
      this.manifest := manifest;
      connected, handles, live, exited, nextChild := [], map[], {}, {}, 0;
      heartbeats, pluginUdsPaths, hasPaths, hasSpawner, shutdown := {}, {}, false, true, false;
    }

    /** Starts a child; `spawns` is the operating system's answer. */
    method Spawn(spawns: bool) returns (child: Option<Child>)
      requires Conserved(View())
      modifies this`live, this`nextChild
      ensures nextChild > old(nextChild) ==> live - {old(nextChild)} == old(live)
      ensures child == if spawns then Some(old(nextChild)) else None
      ensures nextChild == old(nextChild) + if spawns then 1 else 0
      ensures live == if spawns then old(live) + {old(nextChild)} else old(live)
    {
      if !spawns { return None; }
      child := Some(nextChild);
      live := live + {nextChild};
      nextChild := nextChild + 1;
    }

    /** Dropping the handle that was there kills its child. */
    method InsertHandle(name: string, child: Child)
      requires name in handles ==> handles[name] != child
      modifies this`handles, this`live
      ensures handles == old(handles)[name := child]
      ensures live == if name in old(handles) then old(live) - {old(handles)[name]} else old(live)
    {
      if name in handles { live := live - {handles[name]}; }
      handles := handles[name := child];
    }

    /** Records a child that was just spawned. */
    method Adopt(name: string, child: Child)
      requires child + 1 == nextChild && child in live
      requires name in handles ==> handles[name] != child
      modifies this`connected, this`handles, this`live
      ensures View() == Launch(old(View()).(nextChild := child, live := old(live) - {child}), name)
    {
      connected := connected + [name];
      InsertHandle(name, child);
      ghost var others := old(live) - {child};
      assert live == (if name in old(handles) then others - {old(handles)[name]} else others) + {child};
    }

    /** A spawn and, if it works, the bookkeeping of the new child. */
    method Start(name: string, spawns: bool) returns (ok: bool)
      requires Conserved(View())
      modifies this`connected, this`handles, this`live, this`nextChild
      ensures ok == spawns && View() == if spawns then Launch(old(View()), name) else old(View())
    {
      var child := Spawn(spawns);
      if child.None? { return false; }
      Adopt(name, child.value);
      return true;
    }

    /** Idempotent; `binds` is whether binding the socket would work. */
    method BindAndServe(name: string, binds: bool) returns (ok: bool)
      modifies this`pluginUdsPaths
      ensures ok == (name in old(pluginUdsPaths) || binds)
      ensures pluginUdsPaths == old(pluginUdsPaths) + if ok then {name} else {}
    {
      if name in pluginUdsPaths { return true; }
      if !binds { return false; }
      pluginUdsPaths := pluginUdsPaths + {name};
      return true;
    }

    method EnsurePlugin(name: string, spawns: bool) returns (r: Result<bool, ()>)
      requires Conserved(View())
      modifies this
      ensures (View(), r) == Ensure(old(View()), manifest, name, spawns)
    {
      if name in handles { return Ok(false); }
      if !hasSpawner { return Ok(false); }
      if !Listed(manifest, name) { return Ok(false); }
      if !hasPaths { return Ok(false); }
      var started := Start(name, spawns);
      if !started { return Err(()); }
      return Ok(true);
    }

    method RestartRespawn(needed: seq<string>, spawns: seq<bool>) returns (r: Result<nat, ()>)
      requires |spawns| == |needed| && Conserved(View())
      modifies this
      ensures (View(), r) == Respawn(old(View()), manifest, needed, spawns)
    {
      var spawned := 0;
      ghost var start := View();
      for i := 0 to |needed|
        invariant View() == Respawn(start, manifest, needed[..i], spawns[..i]).0
        invariant Respawn(start, manifest, needed[..i], spawns[..i]).1 == Ok(spawned)
      {
        RespawnConserves(start, manifest, needed[..i], spawns[..i]);
        RespawnOneMore(start, manifest, needed, spawns, i);
        var started := EnsurePlugin(needed[i], spawns[i]);
        if started.Err? {
          StaysFailed(start, manifest, needed, spawns, i + 1);
          return Err(());
        }
        if started.value { spawned := spawned + 1; }
      }
      assert needed[..|needed|] == needed && spawns[..|spawns|] == spawns;
      return Ok(spawned);
    }

    method AutostartPlugins(binds: seq<bool>, spawns: seq<bool>) returns (count: nat)
      requires |binds| == |spawns| == |manifest| && Conserved(View())
      modifies this
      ensures View() == if old(hasSpawner) then Autostart(old(View()), manifest, binds, spawns)
                        else old(View()).(hasPaths := true)
      ensures old(hasSpawner) ==> count == |Launched(old(pluginUdsPaths), manifest, binds, spawns)|
    {
      hasPaths := true;
      count := 0;
      if !hasSpawner {
        for i := 0 to |manifest| {
          if manifest[i].autostart { count := count + 1; }
        }
        return;
      }
      ghost var start := old(View());
      for i := 0 to |manifest|
        invariant View() == Autostart(start, manifest[..i], binds[..i], spawns[..i])
        invariant count == |Launched(start.sockets, manifest[..i], binds[..i], spawns[..i])|
      {
        AutostartOneMore(start, manifest, binds, spawns, i);
        AutostartConserves(start, manifest[..i], binds[..i], spawns[..i]);
        var launched := AutostartEntry(manifest[i], binds[i], spawns[i]);
        if launched { count := count + 1; }
      }
      assert manifest[..|manifest|] == manifest && binds[..|binds|] == binds && spawns[..|spawns|] == spawns;
    }

    method AutostartEntry(e: Entry, binds: bool, spawns: bool) returns (launched: bool)
      requires Conserved(View())
      modifies this
      ensures View() == AutostartOne(old(View()), e, binds, spawns)
      ensures launched == (e.autostart && (binds || e.name in old(pluginUdsPaths)) && spawns)
    {
      if !e.autostart { return false; }
      var bound := BindAndServe(e.name, binds);
      if !bound { return false; }
      launched := Start(e.name, spawns);
      if !launched { return; }
      heartbeats := heartbeats + {e.name};
    }

    method Shutdown()
      modifies this
      ensures View() == ShutDown(old(View()))
    {
      shutdown := true;
      live := live - Held(handles);
      handles := map[];
      connected := [];
    }

    method SetPaths()
      modifies this`hasPaths
      ensures hasPaths
    {
      hasPaths := true;
    }

    /** What the operating system does to a child, unseen by the supervisor. */
    method ChildExits(child: Child)
      modifies this`live, this`exited
      ensures View() == Exit(old(View()), child)
    {
      if child in live {
        live := live - {child};
        exited := exited + {child};
      }
    }
  }

  /** Steps 5 to 7 of `Daemon::run`, with the children `crashed` ending on the way. */
  method BootPlugins(manifest: seq<Entry>, names: seq<string>, respawns: seq<bool>, crashed: seq<Child>,
                     binds: seq<bool>, spawns: seq<bool>)
    returns (supervisor: PluginSupervisor, r: Result<nat, ()>)
    requires |respawns| == |names| && |binds| == |spawns| == |manifest|
    ensures fresh(supervisor)
    ensures supervisor.View() == Boot(manifest, names, respawns, crashed, binds, spawns)
    ensures r.Err? <==> Respawn(READY, manifest, names, respawns).1.Err?
  {
    supervisor := new PluginSupervisor(manifest);
    supervisor.SetPaths();
    ReadyConserved();
    r := supervisor.RestartRespawn(names, respawns);
    if r.Err? { return; }
    RespawnConserves(READY, manifest, names, respawns);
    ghost var t := supervisor.View();
    for i := 0 to |crashed|
      invariant supervisor.View() == Crash(t, crashed[..i])
      invariant supervisor.manifest == manifest && fresh(supervisor)
    {
      assert crashed[..i + 1][..i] == crashed[..i];
      supervisor.ChildExits(crashed[i]);
    }
    assert crashed[..|crashed|] == crashed;
    CrashConserves(t, crashed);
    var count := supervisor.AutostartPlugins(binds, spawns);
  }

  lemma {:induction false} CrashConserves(s: Sup, children: seq<Child>)
    requires Conserved(s)
    ensures Conserved(Crash(s, children)) && Crash(s, children).hasSpawner == s.hasSpawner
    decreases |children|
  {
    if children != [] {
      CrashConserves(s, children[..|children| - 1]);
      ExitConserves(Crash(s, children[..|children| - 1]), children[|children| - 1]);
    }
  }

  /** A failed respawn stays failed, whatever names were still to come. */
  lemma {:induction false} StaysFailed(s: Sup, manifest: seq<Entry>, names: seq<string>, spawns: seq<bool>, n: nat)
    requires |spawns| == |names| && n <= |names|
    requires Respawn(s, manifest, names[..n], spawns[..n]).1.Err?
    ensures Respawn(s, manifest, names, spawns) == Respawn(s, manifest, names[..n], spawns[..n])
    decreases |names| - n
  {
    if n == |names| {
      assert names[..n] == names && spawns[..n] == spawns;
    } else {
      assert names[..n + 1][..n] == names[..n] && spawns[..n + 1][..n] == spawns[..n];
      StaysFailed(s, manifest, names, spawns, n + 1);
    }
  }
}
