/** `TuiState`: the screen's state, changed in place by bus events, clock ticks and keys. */
module Dashboard {
  import opened Protocol
  import opened Daemon
  import opened Sequences
  import opened Replica
  import opened Text

  const FLASH_DURATION: Time := 500_000_000

  datatype Counters = Counters(working: nat, waiting: nat, errored: nat, idle: nat, starting: nat, finished: nat)

  datatype RenameModal = RenameModal(sessionId: Id, input: string)

  datatype NewModal = NewModal(query: string, recents: seq<(Dir, Time)>)

  /** The requests a key press can send. */
  datatype Rpc = RpcJump(id: Id) | RpcKill(id: Id) | RpcRename(id: Id, name: string) | RpcCreate(dir: Dir, name: string)

  datatype Key = Esc | Enter | Backspace | Up | Down | Char(c: char) | OtherKey

  function CountOf(list: seq<Session>, status: SessionStatus): nat {
    if list == [] then 0
    else CountOf(list[..|list| - 1], status) + if list[|list| - 1].status == status then 1 else 0
  }

  predicate Recount(c: Counters, list: seq<Session>) {
    && c.working == CountOf(list, Working)
    && c.waiting == CountOf(list, WaitingForUser)
    && c.errored == CountOf(list, Errored)
    && c.idle == CountOf(list, Idle)
    && c.starting == CountOf(list, Starting)
    && c.finished == CountOf(list, Finished)
  }

  ghost function Hits(list: seq<Session>, status: SessionStatus): set<int> {
    set i | 0 <= i < |list| && list[i].status == status
  }

  lemma HitsSnoc(list: seq<Session>, status: SessionStatus)
    requires list != []
    ensures var last := |list| - 1;
            && last !in Hits(list[..last], status)
            && Hits(list, status) == Hits(list[..last], status) + if list[last].status == status then {last} else {}
  {
  }

  /** A count is the number of positions that hold the status. */
  lemma {:induction false} CountExact(list: seq<Session>, status: SessionStatus)
    ensures CountOf(list, status) == |Hits(list, status)|
    decreases |list|
  {
    if list == [] {
      assert Hits(list, status) == {};
    } else {
      CountExact(list[..|list| - 1], status);
      HitsSnoc(list, status);
    }
  }

  /** Each counter is named after the status it counts. */
  lemma RecountMeans(c: Counters, list: seq<Session>)
    requires Recount(c, list)
    ensures c.working == |Hits(list, Working)| && c.waiting == |Hits(list, WaitingForUser)|
    ensures c.errored == |Hits(list, Errored)| && c.idle == |Hits(list, Idle)|
    ensures c.starting == |Hits(list, Starting)| && c.finished == |Hits(list, Finished)|
  {
    forall status ensures CountOf(list, status) == |Hits(list, status)| {
      CountExact(list, status);
    }
  }

  /** The counters account for every session on screen. */
  lemma {:induction false} CountersSumToLength(c: Counters, list: seq<Session>)
    requires Recount(c, list)
    ensures c.working + c.waiting + c.errored + c.idle + c.starting + c.finished == |list|
    decreases |list|
  {
    if list != [] {
      var rest := list[..|list| - 1];
      CountersSumToLength(Counters(CountOf(rest, Working), CountOf(rest, WaitingForUser), CountOf(rest, Errored),
                                   CountOf(rest, Idle), CountOf(rest, Starting), CountOf(rest, Finished)), rest);
    }
  }

  lemma {:induction false} CountIgnoresOtherFields(a: seq<Session>, b: seq<Session>, status: SessionStatus)
    requires |a| == |b|
    requires forall i | 0 <= i < |a| :: a[i].status == b[i].status
    ensures CountOf(a, status) == CountOf(b, status)
    decreases |a|
  {
    if a != [] {
      CountIgnoresOtherFields(a[..|a| - 1], b[..|b| - 1], status);
    }
  }

  lemma RecountKept(c: Counters, a: seq<Session>, b: seq<Session>)
    requires Recount(c, a) && |a| == |b|
    requires forall i | 0 <= i < |a| :: a[i].status == b[i].status
    ensures Recount(c, b)
  {
    forall status ensures CountOf(a, status) == CountOf(b, status) {
      CountIgnoresOtherFields(a, b, status);
    }
  }

  method CountersFromSessions(list: seq<Session>) returns (c: Counters)
    ensures Recount(c, list)
  {
    c := Counters(0, 0, 0, 0, 0, 0);
    for i := 0 to |list|
      invariant Recount(c, list[..i])
    {
      assert list[..i + 1][..i] == list[..i];
      match list[i].status
      case Working => c := c.(working := c.working + 1);
      case WaitingForUser => c := c.(waiting := c.waiting + 1);
      case Errored => c := c.(errored := c.errored + 1);
      case Idle => c := c.(idle := c.idle + 1);
      case Starting => c := c.(starting := c.starting + 1);
      case Finished => c := c.(finished := c.finished + 1);
    }
    assert list[..|list|] == list;
  }

  predicate Holds(list: seq<Session>, id: Id) {
    Position(list, id) < |list|
  }

  /** The entries of a snapshot that decode, in order. */
  function Decoded<T>(snapshot: seq<Option<T>>): seq<T> {
    if snapshot == [] then []
    else
      var last := |snapshot| - 1;
      Decoded(snapshot[..last]) + if snapshot[last].Some? then [snapshot[last].value] else []
  }

  /** Decoding goes entry by entry, in order. */
  lemma DecodedSnoc<T>(snapshot: seq<Option<T>>, entry: Option<T>)
    ensures Decoded(snapshot + [entry]) == Decoded(snapshot) + if entry.Some? then [entry.value] else []
  {
    assert (snapshot + [entry])[..|snapshot|] == snapshot;
  }

  method DecodeAll<T>(snapshot: seq<Option<T>>) returns (list: seq<T>)
    ensures list == Decoded(snapshot)
  {
    list := [];
    for i := 0 to |snapshot|
      invariant list == Decoded(snapshot[..i])
    {
      assert snapshot[..i + 1][..i] == snapshot[..i];
      if snapshot[i].Some? { list := list + [snapshot[i].value]; }
    }
    assert snapshot[..|snapshot|] == snapshot;
  }

  /** How an event leaves the highlights of a list. */
  function Flashes(flashes: map<Id, Time>, list: seq<Session>, e: Event, now: Time): map<Id, Time> {
    if Inserted(e).Some? then
      if Holds(list, Inserted(e).value.id) then flashes else flashes[Inserted(e).value.id := now + FLASH_DURATION]
    else if Patched(e).None? then flashes
    else if Retires(e) then flashes - {Patched(e).value}
    else if Holds(list, Patched(e).value) && !e.UsageUpdated? && !e.SessionJumped? then
      flashes[Patched(e).value := now + FLASH_DURATION]
    else flashes
  }

  /** The cursor is only ever pulled back to the end of a list that got too short for it. */
  function Clamp(selected: nat, n: nat): nat {
    if selected < n || n == 0 then selected else n - 1
  }

  predicate Points(selected: nat, n: nat) {
    if n == 0 then selected == 0 else selected < n
  }

  /** Ids are unique and only listed sessions are highlighted. */
  ghost predicate Consistent(list: seq<Session>, flashes: map<Id, Time>) {
    UniqueIds(list) && forall id | id in flashes :: Holds(list, id)
  }

  /** The highlights that end later than `now`. */
  function StillRunning(flashes: map<Id, Time>, now: Time): map<Id, Time> {
    map id | id in flashes && flashes[id] > now :: flashes[id]
  }

  lemma RunningConsistent(list: seq<Session>, flashes: map<Id, Time>, now: Time)
    requires Consistent(list, flashes)
    ensures Consistent(list, StillRunning(flashes, now))
  {
  }

  // ------------------------------------------------------- what an event leaves consistent

  ghost function TableOf(list: seq<Session>): map<Id, Session> {
    map id | id in (set s | s in list :: s.id) && Holds(list, id) :: list[Position(list, id)]
  }

  lemma ListsTable(list: seq<Session>)
    requires UniqueIds(list)
    ensures Lists(list, TableOf(list))
  {
    var m := TableOf(list);
    forall s | s in list ensures s.id in m && m[s.id] == s {
      var k :| 0 <= k < |list| && list[k] == s;
      assert Position(list, s.id) == k;
    }
  }

  lemma StepHolds(list: seq<Session>, e: Event, id: Id)
    requires UniqueIds(list)
    ensures UniqueIds(ListStep(list, e))
    ensures Holds(ListStep(list, e), id) <==>
              (Inserted(e).Some? && Inserted(e).value.id == id) ||
              (Holds(list, id) && !(Retires(e) && Patched(e) == Some(id)))
  {
    var m := TableOf(list);
    ListsTable(list);
    ListStepLists(list, m, e);
    PositionListed(list, m, id);
    PositionListed(ListStep(list, e), ReplicaStep(m, e), id);
  }

  lemma StepConsistent(list: seq<Session>, flashes: map<Id, Time>, e: Event, now: Time)
    requires Consistent(list, flashes)
    ensures Consistent(ListStep(list, e), Flashes(flashes, list, e, now))
  {
    StepHolds(list, e, 0);
    forall id | id in Flashes(flashes, list, e, now) ensures Holds(ListStep(list, e), id) {
      StepHolds(list, e, id);
    }
  }

  /** With unique ids a removal shortens the list by at most one. */
  lemma {:induction false} AtMostOneGone(list: seq<Session>, id: Id)
    requires UniqueIds(list)
    ensures |list| - 1 <= |Without(list, id)| <= |list|
    decreases |list|
  {
    if list != [] {
      var last := |list| - 1;
      if list[last].id == id {
        FilterAll(list[..last], OtherThan(id));
      } else {
        AtMostOneGone(list[..last], id);
      }
    }
  }

  /** So pulling the cursor back by one row is enough. */
  lemma StepPoints(list: seq<Session>, selected: nat, e: Event)
    requires UniqueIds(list) && Points(selected, |list|)
    ensures Points(Clamp(selected, |ListStep(list, e)|), |ListStep(list, e)|)
    ensures !Retires(e) ==> Clamp(selected, |ListStep(list, e)|) == selected
  {
    if Patched(e).Some? {
      AtMostOneGone(list, Patched(e).value);
    }
  }

  // ------------------------------------------------------------------------------ keys

  /** The part of the state that keys change. */
  datatype Ui = Ui(
    selected: nat,
    showHelp: bool,
    renameModal: Option<RenameModal>,
    newModal: Option<NewModal>,
    dirty: bool)

  function DropLast(text: string): string {
    if text == "" then "" else text[..|text| - 1]
  }

  /** The directory passes the modal's filter. */
  predicate Matches(query: string, dir: Dir) {
    query == "" || Contains(Lower(dir.path), Lower(query))
  }

  /** The first recent directory that passes the filter, or `.` if none does. */
  function Target(query: string, recents: seq<(Dir, Time)>): Dir {
    if recents == [] then Dir(".", None)
    else if Matches(query, recents[0].0) then recents[0].0
    else Target(query, recents[1..])
  }

  /** `dir` is the first recent directory whose path contains the query in any case, or `.`
      where there is none. */
  ghost predicate FirstHit(query: string, recents: seq<(Dir, Time)>, dir: Dir) {
    || (exists i :: 0 <= i < |recents| && dir == recents[i].0 && Contains(Lower(recents[i].0.path), Lower(query)) &&
         forall j | 0 <= j < i :: !Contains(Lower(recents[j].0.path), Lower(query)))
    || (dir == Dir(".", None) && forall j | 0 <= j < |recents| :: !Contains(Lower(recents[j].0.path), Lower(query)))
  }

  lemma MatchesContains(query: string, dir: Dir)
    ensures Matches(query, dir) <==> Contains(Lower(dir.path), Lower(query))
  {
    if query == "" {
      assert Lower(query) == "" && "" <= Lower(dir.path)[0..];
    }
  }

  lemma {:induction false} TargetIsFirstMatch(query: string, recents: seq<(Dir, Time)>)
    ensures FirstHit(query, recents, Target(query, recents))
  {
    if recents != [] {
      MatchesContains(query, recents[0].0);
      if !Matches(query, recents[0].0) {
        TargetIsFirstMatch(query, recents[1..]);
        HitBehind(query, recents, Target(query, recents));
      }
    }
  }

  lemma HitBehind(query: string, recents: seq<(Dir, Time)>, dir: Dir)
    requires recents != [] && !Contains(Lower(recents[0].0.path), Lower(query))
    requires FirstHit(query, recents[1..], dir)
    ensures FirstHit(query, recents, dir)
  {
    var rest := recents[1..];
    if i :| 0 <= i < |rest| && dir == rest[i].0 && Contains(Lower(rest[i].0.path), Lower(query)) &&
            forall j | 0 <= j < i :: !Contains(Lower(rest[j].0.path), Lower(query)) {
      assert recents[i + 1] == rest[i];
      forall j | 0 <= j < i + 1 ensures !Contains(Lower(recents[j].0.path), Lower(query)) {
        assert j > 0 ==> recents[j] == rest[j - 1];
      }
    } else {
      assert forall j | 0 < j < |recents| :: recents[j] == rest[j - 1];
    }
  }

  method FirstMatch(modal: NewModal) returns (dir: Dir)
    ensures dir == Target(modal.query, modal.recents)
  {
    for i := 0 to |modal.recents|
      invariant Target(modal.query, modal.recents) == Target(modal.query, modal.recents[i..])
    {
      assert modal.recents[i..][1..] == modal.recents[i + 1..];
      if Matches(modal.query, modal.recents[i].0) { return modal.recents[i].0; }
    }
    return Dir(".", None);
  }

  /** A key in the rename modal, and the request that commits it. */
  function RenameStep(modal: RenameModal, key: Key): (Option<RenameModal>, Option<Rpc>) {
    match key
    case Esc => (None, None)
    case Enter =>
      (None, if Trim(modal.input) == "" then None else Some(RpcRename(modal.sessionId, Trim(modal.input))))
    case Backspace => (Some(modal.(input := DropLast(modal.input))), None)
    case Char(c) => (Some(modal.(input := modal.input + [c])), None)
    case _ => (Some(modal), None)
  }

  /** A key in the new-session modal. */
  function NewStep(modal: NewModal, key: Key): (Option<NewModal>, Option<Rpc>) {
    match key
    case Esc => (None, None)
    case Enter =>
      var dir := Target(modal.query, modal.recents);
      (None, Some(RpcCreate(dir, NameOf(dir))))
    case Backspace => (Some(modal.(query := DropLast(modal.query))), None)
    case Char(c) => (Some(modal.(query := modal.query + [c])), None)
    case _ => (Some(modal), None)
  }

  /** Where the cursor goes on a key, over a list of `n`. */
  function Cursor(key: Key, selected: nat, n: nat): nat {
    if key == Char('g') then 0
    else if key == Char('k') || key == Up then if selected == 0 then 0 else selected - 1
    else if n == 0 then selected
    else if key == Char('G') then n - 1
    else if key == Char('j') || key == Down then if selected + 1 < n then selected + 1 else n - 1
    else selected
  }

  function ModalOf(key: Key, ui: Ui, list: seq<Session>): Option<RenameModal> {
    if (key == Char('r') || key == Char('R')) && ui.selected < |list| then
      Some(RenameModal(list[ui.selected].id, list[ui.selected].displayName))
    else ui.renameModal
  }

  function RequestOf(key: Key, ui: Ui, list: seq<Session>): Option<Rpc> {
    if ui.selected >= |list| then None
    else if key == Enter then Some(RpcJump(list[ui.selected].id))
    else if key == Char('x') || key == Char('X') then Some(RpcKill(list[ui.selected].id))
    else None
  }

  /** A key that does not quit, when nothing is open. */
  function CommandStep(ui: Ui, key: Key, list: seq<Session>, recents: seq<(Dir, Time)>): Ui {
    Ui(Cursor(key, ui.selected, |list|),
       ui.showHelp || key == Char('?'),
       ModalOf(key, ui, list),
       if key == Char('c') || key == Char('C') then Some(NewModal("", recents)) else ui.newModal,
       true)
  }

  /** `handle_key`: the state after a key, whether it quits, and the request it sends. */
  function KeyStep(ui: Ui, key: Key, list: seq<Session>, recents: seq<(Dir, Time)>): (Ui, bool, Option<Rpc>) {
    if ui.renameModal.Some? then
      var (modal, sent) := RenameStep(ui.renameModal.value, key);
      (ui.(renameModal := modal, dirty := true), false, sent)
    else if ui.newModal.Some? then
      var (modal, sent) := NewStep(ui.newModal.value, key);
      (ui.(newModal := modal, dirty := true), false, sent)
    else if ui.showHelp then
      (ui.(showHelp := key != Esc && key != Char('?') && key != Char('q')), key == Char('q'), None)
    else if key == Esc || key == Char('q') || key == Char('Q') then (ui, true, None)
    else (CommandStep(ui, key, list, recents), false, RequestOf(key, ui, list))
  }

  predicate OneModal(ui: Ui) {
    !(ui.renameModal.Some? && ui.newModal.Some?) && !(ui.showHelp && (ui.renameModal.Some? || ui.newModal.Some?))
  }

  /** What every key keeps, and who gets its request. A jump and a kill go to the highlighted
      session, and only when nothing is open; a rename to the session its modal was opened on,
      under a trimmed name that is not empty. A modal swallows every key. Closing the help
      does not mark the screen for redrawing. */
  lemma KeyEffects(ui: Ui, key: Key, list: seq<Session>, recents: seq<(Dir, Time)>)
    requires OneModal(ui) && Points(ui.selected, |list|)
    ensures var (next, quit, sent) := KeyStep(ui, key, list, recents);
            && OneModal(next) && Points(next.selected, |list|)
            && (sent.Some? && (sent.value.RpcJump? || sent.value.RpcKill?) ==>
                  && list != [] && sent.value.id == list[ui.selected].id
                  && !ui.showHelp && ui.renameModal.None? && ui.newModal.None?)
            && (sent.Some? && sent.value.RpcRename? ==>
                  && ui.renameModal.Some? && sent.value.id == ui.renameModal.value.sessionId
                  && sent.value.name == Trim(ui.renameModal.value.input) != "")
            && (ui.renameModal.Some? || ui.newModal.Some? || ui.showHelp ==> next.selected == ui.selected)
            && (ui.renameModal.Some? || ui.newModal.Some? ==> !quit && next.dirty)
            && (ui.showHelp ==> sent.None? && next.dirty == ui.dirty)
  {
  }

  // ------------------------------------------------------------- what each key means

  predicate NothingOpen(ui: Ui) {
    !ui.showHelp && ui.renameModal == None && ui.newModal == None
  }

  predicate Quits(key: Key) {
    key in {Esc, Char('q'), Char('Q')}
  }

  /** The commands: Enter jumps and `x` kills, and no other key sends anything; `r` opens the
      rename modal on the highlighted session, `c` the new-session modal and `?` the help. */
  lemma CommandKeys(ui: Ui, key: Key, list: seq<Session>, recents: seq<(Dir, Time)>)
    requires NothingOpen(ui) && Points(ui.selected, |list|)
    ensures var (next, quit, sent) := KeyStep(ui, key, list, recents);
            && (quit <==> Quits(key))
            && (quit ==> next == ui && sent == None)
            && (!quit ==> next.dirty)
            && (list == [] ==> sent == None && next.renameModal == None)
            && (list != [] ==>
                  var it := list[ui.selected];
                  && (sent == Some(RpcJump(it.id)) <==> key == Enter)
                  && (sent == Some(RpcKill(it.id)) <==> key in {Char('x'), Char('X')})
                  && (sent == None <==> key !in {Enter, Char('x'), Char('X')})
                  && (next.renameModal == Some(RenameModal(it.id, it.displayName)) <==> key in {Char('r'), Char('R')})
                  && (next.renameModal == None <==> key !in {Char('r'), Char('R')}))
            && (next.newModal == Some(NewModal("", recents)) <==> key in {Char('c'), Char('C')})
            && (next.newModal == None <==> key !in {Char('c'), Char('C')})
            && (next.showHelp <==> key == Char('?'))
  {
  }

  /** The cursor: one down, one up, first, last; never off the list, and every other key
      leaves it. */
  lemma MovementKeys(ui: Ui, key: Key, list: seq<Session>, recents: seq<(Dir, Time)>)
    requires NothingOpen(ui) && Points(ui.selected, |list|)
    ensures var at, to := ui.selected, KeyStep(ui, key, list, recents).0.selected;
            && (key in {Char('j'), Down} ==> to == if at + 1 < |list| then at + 1 else at)
            && (key in {Char('k'), Up} ==> to == if at > 0 then at - 1 else 0)
            && (key == Char('g') ==> to == 0)
            && (key == Char('G') ==> if list == [] then to == 0 else to == |list| - 1)
            && (key !in {Char('j'), Down, Char('k'), Up, Char('g'), Char('G')} ==> to == at)
  {
  }

  /** While the help is open only three keys do anything: they close it, and `q` also quits. */
  lemma HelpKeys(ui: Ui, key: Key, list: seq<Session>, recents: seq<(Dir, Time)>)
    requires ui.showHelp && ui.renameModal == None && ui.newModal == None
    ensures var (next, quit, sent) := KeyStep(ui, key, list, recents);
            && next == ui.(showHelp := key !in {Esc, Char('?'), Char('q')})
            && (quit <==> key == Char('q')) && sent == None
  {
  }

  /** The rename modal: typing appends, Backspace takes the last character off, Escape gives up,
      and Enter renames the modal's session, unless only blanks are left. */
  lemma RenameKeys(ui: Ui, key: Key, list: seq<Session>, recents: seq<(Dir, Time)>)
    requires ui.renameModal.Some?
    ensures var (next, quit, sent) := KeyStep(ui, key, list, recents);
            var modal := ui.renameModal.value;
            && !quit && next.(renameModal := None, dirty := false) == ui.(renameModal := None, dirty := false)
            && next.dirty
            && (next.renameModal == None <==> key in {Esc, Enter})
            && (key.Char? ==> next.renameModal == Some(RenameModal(modal.sessionId, modal.input + [key.c])))
            && (key == Backspace && modal.input != "" ==>
                  next.renameModal == Some(RenameModal(modal.sessionId, modal.input[..|modal.input| - 1])))
            && (key == Backspace && modal.input == "" ==> next.renameModal == Some(modal))
            && (key in {Up, Down, OtherKey} ==> next.renameModal == Some(modal))
            && (sent.Some? <==> key == Enter && exists c :: c in modal.input && !IsSpace(c))
            && (sent.Some? ==> sent.value == RpcRename(modal.sessionId, Trim(modal.input)))
  {
    TrimExact(ui.renameModal.value.input);
  }

  /** The new-session modal: the same on its query, and Enter creates a session in the first
      recent directory whose path contains the query in any case, or in `.`. */
  lemma NewKeys(ui: Ui, key: Key, list: seq<Session>, recents: seq<(Dir, Time)>)
    requires ui.renameModal == None && ui.newModal.Some?
    ensures var (next, quit, sent) := KeyStep(ui, key, list, recents);
            var modal := ui.newModal.value;
            && !quit && next.(newModal := None, dirty := false) == ui.(newModal := None, dirty := false)
            && next.dirty
            && (next.newModal == None <==> key in {Esc, Enter})
            && (key.Char? ==> next.newModal == Some(NewModal(modal.query + [key.c], modal.recents)))
            && (key == Backspace && modal.query != "" ==>
                  next.newModal == Some(NewModal(modal.query[..|modal.query| - 1], modal.recents)))
            && (key == Backspace && modal.query == "" ==> next.newModal == Some(modal))
            && (key in {Up, Down, OtherKey} ==> next.newModal == Some(modal))
            && (sent.Some? <==> key == Enter)
            && (sent.Some? ==>
                  && sent.value.RpcCreate? && FirstHit(modal.query, modal.recents, sent.value.dir)
                  && sent.value.name == (if sent.value.dir.fileName.Some? then sent.value.dir.fileName.value
                                         else "session"))
  {
    TargetIsFirstMatch(ui.newModal.value.query, ui.newModal.value.recents);
  }

  /** The highlights: what glows until `now + FLASH_DURATION`, and that nothing else changes. A
      session glows when it is new, or renamed, or gets a status or a task; it stops when it
      goes; figures and jumps do not make it glow. */
  lemma FlashesExact(flashes: map<Id, Time>, list: seq<Session>, e: Event, now: Time, id: Id)
    ensures var after := Flashes(flashes, list, e, now);
            var listed := exists s :: s in list && s.id == id;
            var glows := || (e.SessionCreated? && e.session.id == id && !listed)
                         || (e.SessionDiscovered? && e.session.id == id && !listed)
                         || (e.SessionRenamed? && e.id == id && listed) || (e.StatusChanged? && e.id == id && listed)
                         || (e.DismissedError? && e.id == id && listed) || (e.TaskChanged? && e.id == id && listed);
            var goes := (e.SessionKilled? || e.SessionFinished?) && e.id == id;
            && (glows ==> id in after && after[id] == now + 500_000_000)
            && (goes ==> id !in after)
            && (!glows && !goes ==> (id in after <==> id in flashes) && (id in after ==> after[id] == flashes[id]))
  {
    HoldsListed(list, id);
  }

  lemma HoldsListed(list: seq<Session>, id: Id)
    ensures Holds(list, id) <==> exists s :: s in list && s.id == id
  {
    var i := Position(list, id);
    if i < |list| {
      assert list[i] in list;
    }
  }

  /** Order on screen: a session keeps its place, a new one comes last, and one that goes closes
      the gap. */
  lemma ListKeepsOrder(list: seq<Session>, e: Event)
    requires UniqueIds(list)
    ensures var next := ListStep(list, e);
            || (Inserted(e).Some? && next == list + [Inserted(e).value])
            || (|next| == |list| && forall i | 0 <= i < |list| :: next[i].id == list[i].id)
            || (Retires(e) && exists k | 0 <= k < |list| ::
                                Patched(e) == Some(list[k].id) && next == list[..k] + list[k + 1..])
  {
    if Retires(e) {
      var id := Patched(e).value;
      var k := Position(list, id);
      if k < |list| {
        WithoutOne(list, k);
      } else {
        FilterAll(list, OtherThan(id));
      }
    }
  }

  lemma PluginsKeepOrder(list: seq<Plugin>, e: Event)
    ensures var next := PluginListStep(list, e);
            && (e.PluginConnected? ==>
                  || (next == list + [e.plugin] && forall p | p in list :: p.name != e.plugin.name)
                  || exists k | 0 <= k < |list| :: list[k].name == e.plugin.name && next == list[k := e.plugin])
            && (!e.PluginConnected? && !e.PluginDisconnected? ==> next == list)
            && (e.PluginDisconnected? ==> forall p :: p in next <==> p in list && p.name != e.name)
  {
    match e
    case PluginConnected(p) =>
      var i := PluginPosition(list, p.name);
      assert i == |list| ==> forall q | q in list :: q.name != p.name;
    case PluginDisconnected(name) => FilterMembers(list, OtherThanPlugin(name));
    case _ =>
  }

  lemma {:induction false} WithoutOne(list: seq<Session>, k: nat)
    requires UniqueIds(list) && k < |list|
    ensures Without(list, list[k].id) == list[..k] + list[k + 1..]
    decreases |list|
  {
    var last := |list| - 1;
    if k == last {
      FilterAll(list[..last], OtherThan(list[k].id));
      assert list[..k] + list[k + 1..] == list[..last];
    } else {
      WithoutOne(list[..last], k);
      assert list[..last][..k] == list[..k] && list[..last][k + 1..] + [list[last]] == list[k + 1..];
    }
  }

  // ------------------------------------------------------------------------- the state

  class TuiState {
    var sessions: seq<Session>
    var plugins: seq<Plugin>
    var selected: nat
    var counters: Counters
    var flashUntil: map<Id, Time>
    var dirty: bool
    var showHelp: bool
    var renameModal: Option<RenameModal>
    var newModal: Option<NewModal>

    ghost function View(): Ui
      reads this`selected, this`showHelp, this`renameModal, this`newModal, this`dirty
    {
      Ui(selected, showHelp, renameModal, newModal, dirty)
    }

    /** The dashboard invariant. */
    ghost predicate Valid()
      reads this`sessions, this`selected, this`counters, this`flashUntil
      reads this`showHelp, this`renameModal, this`newModal, this`dirty
    {
      && Consistent(sessions, flashUntil) && Points(selected, |sessions|)
      && Recount(counters, sessions) && OneModal(View())
    }

    /** `from_snapshot`; an entry that does not decode is `None` and is skipped. */
    constructor FromSnapshot(snapshot: seq<Option<Session>>, pluginSnapshot: seq<Option<Plugin>>)
      requires UniqueIds(Decoded(snapshot))
      ensures Valid() && sessions == Decoded(snapshot) && plugins == Decoded(pluginSnapshot)
      ensures View() == Ui(0, false, None, None, true) && flashUntil == map[]
    {
      var decoded := DecodeAll(snapshot);
      var decodedPlugins := DecodeAll(pluginSnapshot);
      var count := CountersFromSessions(decoded);
      sessions, plugins, counters := decoded, decodedPlugins, count;
      selected, flashUntil, dirty, showHelp := 0, map[], true, false;
      renameModal, newModal := None, None;
    }

    /** The `iter_mut().find(...)` of every event arm. */
    method Find(id: Id) returns (at: nat)
      ensures at == Position(sessions, id)
    {
      for i := 0 to |sessions|
        invariant Position(sessions, id) == i + Position(sessions[i..], id)
      {
        assert sessions[i..][1..] == sessions[i + 1..];
        if sessions[i].id == id { return i; }
      }
      return |sessions|;
    }

    method RecomputeCounters()
      modifies this`counters
      ensures Recount(counters, sessions)
    {
      counters := CountersFromSessions(sessions);
    }

    /** Overwrites a listed session, or appends and highlights a new one. */
    method Place(s: Session, now: Time)
      modifies this`sessions, this`flashUntil
      ensures var i := Position(old(sessions), s.id);
              && sessions == (if i < |old(sessions)| then old(sessions)[i := s] else old(sessions) + [s])
              && flashUntil == if i < |old(sessions)| then old(flashUntil)
                               else old(flashUntil)[s.id := now + FLASH_DURATION]
    {
      var at := Find(s.id);
      if at < |sessions| {
        sessions := sessions[at := s];
      } else {
        flashUntil := flashUntil[s.id := now + FLASH_DURATION];
        sessions := sessions + [s];
      }
    }

    /** The `created` and `discovered` arm. */
    method Upsert(e: Event, now: Time)
      requires Inserted(e).Some?
      modifies this`sessions, this`counters, this`flashUntil
      ensures sessions == ListStep(old(sessions), e) && Recount(counters, sessions)
      ensures flashUntil == Flashes(old(flashUntil), old(sessions), e, now)
    {
      Place(Inserted(e).value, now);
      RecomputeCounters();
    }

    /** The `killed` and `finished` arm. */
    method Retire(e: Event)
      requires Retires(e)
      modifies this`sessions, this`counters, this`flashUntil, this`selected
      ensures sessions == ListStep(old(sessions), e) && Recount(counters, sessions)
      ensures flashUntil == old(flashUntil) - {Patched(e).value}
      ensures selected == Clamp(old(selected), |sessions|)
    {
      sessions := Retain(sessions, OtherThan(Patched(e).value));
      flashUntil := flashUntil - {Patched(e).value};
      if selected >= |sessions| && sessions != [] {
        selected := |sessions| - 1;
      }
      RecomputeCounters();
    }

    /** The arms that change a listed session. Counters are recomputed only where the status
        may have changed. */
    method PatchSession(e: Event, now: Time)
      requires Inserted(e).None? && Patched(e).Some? && !Retires(e) && Recount(counters, sessions)
      modifies this`sessions, this`counters, this`flashUntil
      ensures sessions == ListStep(old(sessions), e) && Recount(counters, sessions)
      ensures flashUntil == Flashes(old(flashUntil), old(sessions), e, now)
    {
      var id := Patched(e).value;
      var at := Find(id);
      if at >= |sessions| { return; }
      ghost var before := sessions;
      sessions := sessions[at := Patch(sessions[at], e)];
      if e.SessionRenamed? || e.StatusChanged? || e.DismissedError? || e.TaskChanged? {
        flashUntil := flashUntil[id := now + FLASH_DURATION];
      }
      if e.StatusChanged? || e.DismissedError? {
        RecomputeCounters();
      } else {
        RecountKept(counters, before, sessions);
      }
    }

    method FindPlugin(name: string) returns (at: nat)
      ensures at == PluginPosition(plugins, name)
    {
      for i := 0 to |plugins|
        invariant PluginPosition(plugins, name) == i + PluginPosition(plugins[i..], name)
      {
        assert plugins[i..][1..] == plugins[i + 1..];
        if plugins[i].name == name { return i; }
      }
      return |plugins|;
    }

    /** The arms about plugins, and the one that ignores an event. */
    method ChangePlugins(e: Event)
      modifies this`plugins
      ensures plugins == PluginListStep(old(plugins), e)
    {
      match e
      case PluginConnected(p) =>
        var at := FindPlugin(p.name);
        plugins := if at < |plugins| then plugins[at := p] else plugins + [p];
      case PluginDisconnected(name) => plugins := Retain(plugins, OtherThanPlugin(name));
      case _ =>
    }

    /** `apply_event`. */
    method ApplyEvent(e: Event, now: Time)
      requires Valid()
      modifies this`sessions, this`counters, this`flashUntil, this`selected, this`plugins, this`dirty
      ensures Valid() && dirty
      ensures sessions == ListStep(old(sessions), e) && plugins == PluginListStep(old(plugins), e)
      ensures flashUntil == Flashes(old(flashUntil), old(sessions), e, now)
      ensures selected == if old(selected) < |sessions| || sessions == [] then old(selected) else |sessions| - 1
    {
      StepConsistent(sessions, flashUntil, e, now);
      StepPoints(sessions, selected, e);
      dirty := true;
      if Inserted(e).Some? {
        Upsert(e, now);
      } else if Retires(e) {
        Retire(e);
      } else if Patched(e).Some? {
        PatchSession(e, now);
      } else {
        ChangePlugins(e);
      }
    }

    /** The event loop's drain: every pending event in turn. */
    method Drain(events: seq<Event>, now: Time)
      requires Valid()
      modifies this`sessions, this`counters, this`flashUntil, this`selected, this`plugins, this`dirty
      ensures Valid()
      ensures sessions == ListReplay(old(sessions), events) && plugins == PluginListReplay(old(plugins), events)
    {
      for i := 0 to |events|
        invariant Valid() && sessions == ListReplay(old(sessions), events[..i])
        invariant plugins == PluginListReplay(old(plugins), events[..i])
      {
        assert events[..i + 1][..i] == events[..i];
        ApplyEvent(events[i], now);
      }
      assert events[..|events|] == events;
    }

    /** `tick_flash`. */
    method TickFlash(now: Time)
      requires Valid()
      modifies this`flashUntil, this`dirty
      ensures Valid()
      ensures forall id :: id in flashUntil <==> id in old(flashUntil) && old(flashUntil)[id] > now
      ensures forall id | id in flashUntil :: flashUntil[id] == old(flashUntil)[id]
      ensures dirty == (old(dirty) || exists id :: id in old(flashUntil) && old(flashUntil)[id] <= now)
    {
      RunningConsistent(sessions, flashUntil, now);
      var expired := exists id :: id in flashUntil && flashUntil[id] <= now;
      flashUntil := StillRunning(flashUntil, now);
      if expired { dirty := true; }
    }

    /** `handle_key`. `recents` is what the new-session modal would load if it opened now;
        `sent` is the request the key sends to the daemon. */
    method HandleKey(key: Key, recents: seq<(Dir, Time)>) returns (quit: bool, sent: Option<Rpc>)
      requires Valid()
      modifies this`selected, this`showHelp, this`renameModal, this`newModal, this`dirty
      ensures Valid() && (View(), quit, sent) == KeyStep(old(View()), key, sessions, recents)
    {
      KeyEffects(View(), key, sessions, recents);
      quit, sent := Press(key, recents);
    }

    method Press(key: Key, recents: seq<(Dir, Time)>) returns (quit: bool, sent: Option<Rpc>)
      requires Points(selected, |sessions|)
      modifies this`selected, this`showHelp, this`renameModal, this`newModal, this`dirty
      ensures (View(), quit, sent) == KeyStep(old(View()), key, sessions, recents)
    {
      quit, sent := false, None;
      if renameModal.Some? {
        sent := RenameKey(key);
        return;
      }
      if newModal.Some? {
        sent := NewKey(key);
        return;
      }
      if showHelp {
        if key == Esc || key == Char('?') || key == Char('q') {
          showHelp := false;
          quit := key == Char('q');
        }
        return;
      }
      if key == Esc || key == Char('q') || key == Char('Q') { return true, None; }
      sent := CommandKey(key, recents);
      dirty := true;
    }

    /** The keys that do not quit, when nothing is open. */
    method CommandKey(key: Key, recents: seq<(Dir, Time)>) returns (sent: Option<Rpc>)
      requires Points(selected, |sessions|)
      modifies this`selected, this`showHelp, this`renameModal, this`newModal
      ensures View().(dirty := true) == CommandStep(old(View()), key, sessions, recents)
      ensures sent == RequestOf(key, old(View()), sessions)
    {
      sent := None;
      if key == Char('c') || key == Char('C') {
        newModal := Some(NewModal("", recents));
      } else if key == Char('r') || key == Char('R') {
        if selected < |sessions| {
          renameModal := Some(RenameModal(sessions[selected].id, sessions[selected].displayName));
        }
      } else if key == Char('?') {
        showHelp := true;
      } else if key == Char('j') || key == Down {
        if sessions != [] {
          selected := if selected + 1 < |sessions| then selected + 1 else |sessions| - 1;
        }
      } else if key == Char('k') || key == Up {
        if selected > 0 { selected := selected - 1; }
      } else if key == Char('g') {
        selected := 0;
      } else if key == Char('G') {
        if sessions != [] { selected := |sessions| - 1; }
      } else if key == Enter {
        if selected < |sessions| { sent := Some(RpcJump(sessions[selected].id)); }
      } else if key == Char('x') || key == Char('X') {
        if selected < |sessions| { sent := Some(RpcKill(sessions[selected].id)); }
      }
    }

    method RenameKey(key: Key) returns (sent: Option<Rpc>)
      requires renameModal.Some?
      modifies this`renameModal, this`dirty
      ensures (renameModal, sent) == RenameStep(old(renameModal).value, key) && dirty
    {
      var modal := renameModal.value;
      sent := None;
      match key {
        case Esc => renameModal := None;
        case Enter =>
          renameModal := None;
          var name := Trim(modal.input);
          if name != "" { sent := Some(RpcRename(modal.sessionId, name)); }
        case Backspace => renameModal := Some(modal.(input := DropLast(modal.input)));
        case Char(c) => renameModal := Some(modal.(input := modal.input + [c]));
        case _ =>
      }
      dirty := true;
    }

    /** Enter commits to the first directory that matches the query, or to `.`. */
    method NewKey(key: Key) returns (sent: Option<Rpc>)
      requires newModal.Some?
      modifies this`newModal, this`dirty
      ensures (newModal, sent) == NewStep(old(newModal).value, key) && dirty
    {
      var modal := newModal.value;
      sent := None;
      match key {
        case Esc => newModal := None;
        case Enter =>
          newModal := None;
          var dir := FirstMatch(modal);
          sent := Some(RpcCreate(dir, NameOf(dir)));
        case Backspace => newModal := Some(modal.(query := DropLast(modal.query)));
        case Char(c) => newModal := Some(modal.(query := modal.query + [c]));
        case _ =>
      }
      dirty := true;
    }
  }
}
