/** `create_session`: a row, a tmux session and the binding between them, with rollback. */
module SessionCreate {
  import opened Protocol
  import opened Daemon
  import opened Handlers
  import opened Text

  /** How `new-session` can go: refused, done but its pane not found afterwards, or done. */
  datatype NewOutcome = Refuses | HalfMade | Made(pane: string)

  /** What the outside world answers: tmux to `new-session` and `kill-session`, and the
      database to the row deletions, whose failures are ignored. */
  datatype World = World(outcome: NewOutcome, killWorks: bool, deleteWorks: bool)

  datatype CreateError = InvalidName | TmuxFailed | DbFailed | Internal

  datatype Created = Created(result: Result<Session, CreateError>, rows: map<Id, Session>, tmux: map<string, string>)

  predicate NameChar(c: char) {
    'a' <= c <= 'z' || 'A' <= c <= 'Z' || '0' <= c <= '9' || c == '.' || c == '-' || c == '_'
  }

  const DIGITS := "0123456789"

  lemma SmallLetter(c: char)
    ensures 'a' <= c <= 'z' <==> c in LOWER
  {
    if 'a' <= c <= 'z' {
      assert LOWER[c as int - 'a' as int] == c;
    }
  }

  lemma Capital(c: char)
    ensures 'A' <= c <= 'Z' <==> c in UPPER
  {
    if 'A' <= c <= 'Z' {
      assert UPPER[c as int - 'A' as int] == c;
    }
  }

  lemma DecimalDigit(c: char)
    ensures '0' <= c <= '9' <==> c in DIGITS
  {
    if '0' <= c <= '9' {
      assert DIGITS[c as int - '0' as int] == c;
    }
  }

  /** The characters a session name may have. */
  lemma NameCharExact(c: char)
    ensures NameChar(c) <==> c in LOWER || c in UPPER || c in DIGITS || c in {'.', '-', '_'}
  {
    SmallLetter(c);
    Capital(c);
    DecimalDigit(c);
  }

  /** `validate_session_name`. */
  predicate ValidName(name: string) {
    0 < |name| <= 64 && forall c | c in name :: NameChar(c)
  }

  /** Tmux refuses a name in use, whatever else would have happened. */
  function NewSessionAnswer(tmux: map<string, string>, name: string, w: World): NewOutcome {
    if name in tmux then Refuses else w.outcome
  }

  function TmuxAfterNew(tmux: map<string, string>, name: string, w: World): map<string, string> {
    match NewSessionAnswer(tmux, name, w)
    case Refuses => tmux
    case HalfMade => tmux[name := ""]
    case Made(pane) => tmux[name := pane]
  }

  function CreatedRow(agent: AgentType, dir: string, name: string, newId: Id, now: Time): Session {
    NewRow(newId, agent, dir, None, None, name, Cli, now, None)
  }

  function Create(rows: map<Id, Session>, tmux: map<string, string>, agent: AgentType, dir: string,
                  display: Option<string>, newId: Id, now: Time, w: World): Created {
    var name := if display.Some? then display.value else "session";
    var row := CreatedRow(agent, dir, name, newId, now);
    if !ValidName(name) then Created(Err(InvalidName), rows, tmux)
    else if !CanInsert(rows, row) then Created(Err(DbFailed), rows, tmux)
    else
      var inserted := rows[newId := row];
      var undone := if w.deleteWorks then inserted - {newId} else inserted;
      var answer := NewSessionAnswer(tmux, name, w);
      var running := TmuxAfterNew(tmux, name, w);
      if !answer.Made? then Created(Err(TmuxFailed), undone, running)
      else if !CanBind(inserted, newId, Some(name), Some(answer.pane)) then
        Created(Err(DbFailed), undone, if w.killWorks then running - {name} else running)
      else
        var bound := row.(tmuxSession := Some(name), tmuxPaneId := Some(answer.pane));
        Created(Ok(bound), inserted[newId := bound], running)
  }

  /** What the rollback restores, for every input. A failure leaves the rows as found exactly
      if no row was inserted or its deletion worked. It leaves tmux as found exactly if
      `new-session` changed nothing, or went through and the kill worked; a session that was
      made but whose pane was not found is never cleaned up. A success binds the new row to
      the new tmux session and touches nothing else. */
  lemma CreateIsAllOrNothing(rows: map<Id, Session>, tmux: map<string, string>, agent: AgentType, dir: string,
                             display: Option<string>, newId: Id, now: Time, w: World)
    ensures var name := if display.Some? then display.value else "session";
            var c := Create(rows, tmux, agent, dir, display, newId, now, w);
            var inserted := ValidName(name) && CanInsert(rows, CreatedRow(agent, dir, name, newId, now));
            var answer := NewSessionAnswer(tmux, name, w);
            if c.result.Ok? then
              && c.rows - {newId} == rows - {newId} && newId !in rows && newId in c.rows
              && c.rows[newId] == c.result.value
              && c.tmux - {name} == tmux - {name} && name !in tmux && name in c.tmux
              && c.result.value.tmuxSession == Some(name) && c.result.value.tmuxPaneId == Some(c.tmux[name])
            else
              && (c.rows == rows <==> !inserted || w.deleteWorks)
              && (c.tmux == tmux <==> !inserted || answer.Refuses? || (answer.Made? && w.killWorks))
  {
    var name := if display.Some? then display.value else "session";
    var c := Create(rows, tmux, agent, dir, display, newId, now, w);
    var row := CreatedRow(agent, dir, name, newId, now);
    if ValidName(name) && CanInsert(rows, row) {
      assert newId !in rows;
      assert rows[newId := row] - {newId} == rows;
      assert newId in rows[newId := row];
      var running := TmuxAfterNew(tmux, name, w);
      if name !in tmux {
        assert name in running ==> running - {name} == tmux;
      }
      if c.result.Ok? {
        assert c.rows - {newId} == rows;
        assert rows - {newId} == rows && tmux - {name} == tmux;
      }
    }
  }

  /** The row of a success, and which error each failure draws. */
  lemma CreateOutcome(rows: map<Id, Session>, tmux: map<string, string>, agent: AgentType, dir: string,
                      display: Option<string>, newId: Id, now: Time, w: World)
    ensures var name := if display.Some? then display.value else "session";
            var r := Create(rows, tmux, agent, dir, display, newId, now, w).result;
            && (r.Ok? ==>
                  var row := r.value;
                  && row.id == newId && row.agentType == agent && row.workingDir == dir && row.displayName == name
                  && row.tmuxSession == Some(name) && row.tmuxPaneId.Some? && row.status == Starting
                  && row.source == Cli && row.createdAt == now && row.plugin == None
                  && row.currentTask == None && row.model == None && row.usedTokens == None && row.totalTokens == None
                  && row.costUsd == None && row.lastEventAt == None && row.finishedAt == None)
            && (r == Err(InvalidName) <==> !(0 < |name| <= 64 && forall c | c in name :: NameChar(c)))
            && (r == Err(DbFailed) && newId !in rows ==>
                  exists k, pane :: k in rows && rows[k].tmuxSession == Some(name) && rows[k].tmuxPaneId == Some(pane))
            && (r == Err(TmuxFailed) ==> name in tmux || !w.outcome.Made?)
            && r != Err(Internal)
  {
    var name := if display.Some? then display.value else "session";
    var row := CreatedRow(agent, dir, name, newId, now);
    var c := Create(rows, tmux, agent, dir, display, newId, now, w);
    if c.result == Err(DbFailed) && newId !in rows {
      var pane := NewSessionAnswer(tmux, name, w).pane;
      var inserted := rows[newId := row];
      var bound := row.(tmuxSession := Some(name), tmuxPaneId := Some(pane));
      var k :| k in inserted && k != newId && SamePane(inserted[k], bound);
      assert k in rows && rows[k].tmuxSession == Some(name) && rows[k].tmuxPaneId == Some(pane);
    }
  }

  /** The binding fails only if an old row still holds the pane, which a fresh tmux server
      that restarts its pane numbers can bring about. */
  lemma BindFailsOnStaleRow(rows: map<Id, Session>, tmux: map<string, string>, agent: AgentType, dir: string,
                            name: string, newId: Id, now: Time, pane: string)
    requires ValidName(name) && name !in tmux && CanInsert(rows, CreatedRow(agent, dir, name, newId, now))
    ensures Create(rows, tmux, agent, dir, Some(name), newId, now, World(Made(pane), true, true)).result.Ok? <==>
              forall k | k in rows :: !(rows[k].tmuxSession == Some(name) && rows[k].tmuxPaneId == Some(pane))
  {
    var row := CreatedRow(agent, dir, name, newId, now);
    var inserted := rows[newId := row];
    assert forall k | k in rows :: k in inserted && inserted[k] == rows[k];
  }

  /** The tmux server: session names and their pane. */
  class TmuxServer {
    var sessions: map<string, string>

    method NewSession(name: string, w: World) returns (pane: Option<string>)
      modifies this
      ensures sessions == TmuxAfterNew(old(sessions), name, w)
      ensures pane == match NewSessionAnswer(old(sessions), name, w)
                      case Made(p) => Some(p)
                      case _ => None
    {
      if name in sessions { return None; }
      match w.outcome
      case Refuses => return None;
      case HalfMade =>
        sessions := sessions[name := ""];
        return None;
      case Made(p) =>
        sessions := sessions[name := p];
        return Some(p);
    }

    method KillSession(name: string, works: bool)
      modifies this
      ensures sessions == if works then old(sessions) - {name} else old(sessions)
    {
      if works { sessions := sessions - {name}; }
    }
  }

  method CreateSession(tmux: TmuxServer, db: Db, agent: AgentType, dir: string, display: Option<string>,
                       newId: Id, now: Time, w: World)
    returns (r: Result<Session, CreateError>)
    modifies tmux, db`sessions
    ensures Created(r, db.sessions, tmux.sessions) ==
            Create(old(db.sessions), old(tmux.sessions), agent, dir, display, newId, now, w)
  {
    var name := if display.Some? then display.value else "session";
    if !ValidName(name) { return Err(InvalidName); }
    var inserted := db.Insert(CreatedRow(agent, dir, name, newId, now));
    if !inserted { return Err(DbFailed); }
    var pane := tmux.NewSession(name, w);
    if pane.None? {
      db.Delete(newId, w.deleteWorks);
      return Err(TmuxFailed);
    }
    var bound := db.UpdateTmux(newId, Some(name), pane);
    if !bound {
      tmux.KillSession(name, w.killWorks);
      db.Delete(newId, w.deleteWorks);
      return Err(DbFailed);
    }
    var row := db.Get(newId);
    if row.None? { return Err(Internal); }
    return Ok(row.value.(tmuxSession := Some(name), tmuxPaneId := pane));
  }
}
