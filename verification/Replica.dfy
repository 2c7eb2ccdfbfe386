/** The dashboard's copy of the session table, as a map: what one bus event does to it. */
module Replica {
  import opened Protocol
  import opened Daemon
  import opened Sequences

  /** Events that take a session off the dashboard. */
  predicate Retires(e: Event) {
    e.SessionKilled? || e.SessionFinished?
  }

  /** How a listed session changes. A usage event only carries over the figures it has. */
  function Patch(s: Session, e: Event): Session {
    match e
    case SessionRenamed(_, name) => s.(displayName := name)
    case StatusChanged(_, status) => s.(status := status)
    case DismissedError(_) => s.(status := Idle)
    case TaskChanged(_, task) => s.(currentTask := Some(task))
    case UsageUpdated(_, used, total, cost) =>
      s.(usedTokens := if used.Some? then used else s.usedTokens,
         totalTokens := if total.Some? then total else s.totalTokens,
         costUsd := if cost.Some? then cost else s.costUsd)
    case _ => s
  }

  function Dropped<K, V>(m: map<K, V>, key: K): map<K, V> {
    map k | k in m && k != key :: m[k]
  }

  function ReplicaStep(m: map<Id, Session>, e: Event): map<Id, Session> {
    if Inserted(e).Some? then m[Inserted(e).value.id := Inserted(e).value]
    else if Patched(e).None? || Patched(e).value !in m then m
    else if Retires(e) then Dropped(m, Patched(e).value)
    else m[Patched(e).value := Patch(m[Patched(e).value], e)]
  }

  /** The replica after a stretch of the event stream. */
  function Replay(m: map<Id, Session>, events: seq<Event>): map<Id, Session> {
    if events == [] then m
    else ReplicaStep(Replay(m, events[..|events| - 1]), events[|events| - 1])
  }

  function PluginStep(m: map<string, Plugin>, e: Event): map<string, Plugin> {
    match e
    case PluginConnected(p) => m[p.name := p]
    case PluginDisconnected(name) => Dropped(m, name)
    case _ => m
  }

  function ReplayPlugins(m: map<string, Plugin>, events: seq<Event>): map<string, Plugin> {
    if events == [] then m
    else PluginStep(ReplayPlugins(m, events[..|events| - 1]), events[|events| - 1])
  }

  ghost predicate UniqueIds(list: seq<Session>) {
    forall i, j | 0 <= i < j < |list| :: list[i].id != list[j].id
  }

  /** `list` shows exactly the sessions of `m`, each once. */
  ghost predicate Lists(list: seq<Session>, m: map<Id, Session>) {
    && UniqueIds(list)
    && (forall s | s in list :: s.id in m && m[s.id] == s)
    && (forall id | id in m :: m[id].id == id && m[id] in list)
  }

  function OtherThan(id: Id): Session -> bool {
    (s: Session) => s.id != id
  }

  /** The list after `retain(|s| s.id != id)`. */
  function Without(list: seq<Session>, id: Id): seq<Session> {
    Filter(list, OtherThan(id))
  }

  lemma WithoutUnique(list: seq<Session>, id: Id)
    requires UniqueIds(list)
    ensures UniqueIds(Without(list, id))
  {
    var key := (s: Session) => s.id;
    assert Distinct(list, key);
    FilterDistinct(list, OtherThan(id), key);
    assert forall i | 0 <= i < |Without(list, id)| :: key(Without(list, id)[i]) == Without(list, id)[i].id;
  }

  lemma ListsUpdate(list: seq<Session>, m: map<Id, Session>, i: nat, s: Session)
    requires Lists(list, m) && i < |list| && list[i].id == s.id
    ensures Lists(list[i := s], m[s.id := s])
  {
    var next := list[i := s];
    forall x | x in next ensures x == s || (x in list && x.id != s.id) {
      var k :| 0 <= k < |next| && next[k] == x;
    }
    forall id | id in m && id != s.id ensures m[id] in next {
      var k :| 0 <= k < |list| && list[k] == m[id];
      assert next[k] == m[id];
    }
    assert next[i] == s;
  }

  lemma ListsAppend(list: seq<Session>, m: map<Id, Session>, s: Session)
    requires Lists(list, m) && s.id !in m
    ensures Lists(list + [s], m[s.id := s])
  {
    forall k | 0 <= k < |list| ensures list[k].id != s.id {
      assert list[k] in list;
    }
  }

  lemma ListsRemove(list: seq<Session>, m: map<Id, Session>, id: Id)
    requires Lists(list, m)
    ensures Lists(Without(list, id), Dropped(m, id))
  {
    FilterMembers(list, OtherThan(id));
    WithoutUnique(list, id);
  }

  ghost predicate UniqueNames(list: seq<Plugin>) {
    forall i, j | 0 <= i < j < |list| :: list[i].name != list[j].name
  }

  ghost predicate ListsPlugins(list: seq<Plugin>, m: map<string, Plugin>) {
    && UniqueNames(list)
    && (forall p | p in list :: p.name in m && m[p.name] == p)
    && (forall n | n in m :: m[n].name == n && m[n] in list)
  }

  function OtherThanPlugin(name: string): Plugin -> bool {
    (p: Plugin) => p.name != name
  }

  function WithoutPlugin(list: seq<Plugin>, name: string): seq<Plugin> {
    Filter(list, OtherThanPlugin(name))
  }

  lemma WithoutPluginUnique(list: seq<Plugin>, name: string)
    requires UniqueNames(list)
    ensures UniqueNames(WithoutPlugin(list, name))
  {
    var key := (p: Plugin) => p.name;
    assert Distinct(list, key);
    FilterDistinct(list, OtherThanPlugin(name), key);
    var rest := WithoutPlugin(list, name);
    assert forall i | 0 <= i < |rest| :: key(rest[i]) == rest[i].name;
  }

  lemma ListsPluginsRemove(list: seq<Plugin>, m: map<string, Plugin>, name: string)
    requires ListsPlugins(list, m)
    ensures ListsPlugins(WithoutPlugin(list, name), Dropped(m, name))
  {
    FilterMembers(list, OtherThanPlugin(name));
    WithoutPluginUnique(list, name);
  }

  lemma ListsPluginsUpdate(list: seq<Plugin>, m: map<string, Plugin>, i: nat, p: Plugin)
    requires ListsPlugins(list, m) && i < |list| && list[i].name == p.name
    ensures ListsPlugins(list[i := p], m[p.name := p])
  {
    var next := list[i := p];
    forall x | x in next ensures x == p || (x in list && x.name != p.name) {
      var k :| 0 <= k < |next| && next[k] == x;
    }
    forall n | n in m && n != p.name ensures m[n] in next {
      var k :| 0 <= k < |list| && list[k] == m[n];
      assert next[k] == m[n];
    }
    assert next[i] == p;
  }

  lemma ListsPluginsAppend(list: seq<Plugin>, m: map<string, Plugin>, p: Plugin)
    requires ListsPlugins(list, m) && p.name !in m
    ensures ListsPlugins(list + [p], m[p.name := p])
  {
    forall k | 0 <= k < |list| ensures list[k].name != p.name {
      assert list[k] in list;
    }
  }

  // ------------------------------------------------------ the same steps on the lists

  /** The first position of a session, or the length of the list. */
  function Position(list: seq<Session>, id: Id): (i: nat)
    ensures i <= |list| && (i < |list| ==> list[i].id == id)
    ensures forall j | 0 <= j < i :: list[j].id != id
  {
    if list == [] || list[0].id == id then 0 else 1 + Position(list[1..], id)
  }

  /** What an event does to the list of sessions: a session keeps its place, a new one comes
      last. */
  function ListStep(list: seq<Session>, e: Event): seq<Session> {
    if Inserted(e).Some? then
      var s := Inserted(e).value;
      var i := Position(list, s.id);
      if i < |list| then list[i := s] else list + [s]
    else if Patched(e).None? then list
    else if Retires(e) then Without(list, Patched(e).value)
    else
      var i := Position(list, Patched(e).value);
      if i < |list| then list[i := Patch(list[i], e)] else list
  }

  function ListReplay(list: seq<Session>, events: seq<Event>): seq<Session> {
    if events == [] then list
    else ListStep(ListReplay(list, events[..|events| - 1]), events[|events| - 1])
  }

  function PluginPosition(list: seq<Plugin>, name: string): (i: nat)
    ensures i <= |list| && (i < |list| ==> list[i].name == name)
    ensures forall j | 0 <= j < i :: list[j].name != name
  {
    if list == [] || list[0].name == name then 0 else 1 + PluginPosition(list[1..], name)
  }

  function PluginListStep(list: seq<Plugin>, e: Event): seq<Plugin> {
    match e
    case PluginConnected(p) =>
      var i := PluginPosition(list, p.name);
      if i < |list| then list[i := p] else list + [p]
    case PluginDisconnected(name) => WithoutPlugin(list, name)
    case _ => list
  }

  function PluginListReplay(list: seq<Plugin>, events: seq<Event>): seq<Plugin> {
    if events == [] then list
    else PluginListStep(PluginListReplay(list, events[..|events| - 1]), events[|events| - 1])
  }

  lemma PositionListed(list: seq<Session>, m: map<Id, Session>, id: Id)
    requires Lists(list, m)
    ensures Position(list, id) < |list| <==> id in m
    ensures id in m ==> list[Position(list, id)] == m[id]
  {
    var i := Position(list, id);
    if i < |list| {
      assert list[i] in list;
    }
  }

  /** The list steps show what the map steps say. */
  lemma ListStepLists(list: seq<Session>, m: map<Id, Session>, e: Event)
    requires Lists(list, m)
    ensures Lists(ListStep(list, e), ReplicaStep(m, e))
  {
    if Inserted(e).Some? {
      var s := Inserted(e).value;
      PositionListed(list, m, s.id);
      if s.id in m {
        ListsUpdate(list, m, Position(list, s.id), s);
      } else {
        ListsAppend(list, m, s);
      }
    } else if Patched(e).Some? {
      PatchListed(list, m, e, Patched(e).value);
    }
  }

  lemma PatchListed(list: seq<Session>, m: map<Id, Session>, e: Event, id: Id)
    requires Lists(list, m) && Inserted(e).None? && Patched(e) == Some(id)
    ensures Lists(ListStep(list, e), ReplicaStep(m, e))
  {
    PositionListed(list, m, id);
    if Retires(e) {
      ListsRemove(list, m, id);
      assert id !in m ==> Dropped(m, id) == m;
    } else if id in m {
      var i := Position(list, id);
      assert Patch(list[i], e).id == id;
      ListsUpdate(list, m, i, Patch(list[i], e));
    }
  }

  lemma PluginStepLists(list: seq<Plugin>, m: map<string, Plugin>, e: Event)
    requires ListsPlugins(list, m)
    ensures ListsPlugins(PluginListStep(list, e), PluginStep(m, e))
  {
    match e
    case PluginConnected(p) =>
      var i := PluginPosition(list, p.name);
      if i < |list| {
        ListsPluginsUpdate(list, m, i, p);
      } else {
        ListsPluginsAppend(list, m, p);
      }
    case PluginDisconnected(name) => ListsPluginsRemove(list, m, name);
    case _ =>
  }

  /** A list that shows a snapshot shows every replay over it. */
  lemma {:induction false} ReplayLists(list: seq<Session>, m: map<Id, Session>, plugins: seq<Plugin>,
                                       ps: map<string, Plugin>, events: seq<Event>)
    requires Lists(list, m) && ListsPlugins(plugins, ps)
    ensures Lists(ListReplay(list, events), Replay(m, events))
    ensures ListsPlugins(PluginListReplay(plugins, events), ReplayPlugins(ps, events))
    decreases |events|
  {
    if events != [] {
      var before, e := events[..|events| - 1], events[|events| - 1];
      ReplayLists(list, m, plugins, ps, before);
      ListStepLists(ListReplay(list, before), Replay(m, before), e);
      PluginStepLists(PluginListReplay(plugins, before), ReplayPlugins(ps, before), e);
    }
  }
}
