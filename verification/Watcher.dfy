/** The opencode plugin's watch loop: it learns panes, reports their status changes, and
    reports the end of those that vanish. */
module Watcher {
  import opened Protocol
  import opened Text
  import opened Discovery

  datatype PaneStatus = PaneStarting | PaneWorking | PaneIdle | PaneErrored

  /** A pane the plugin found running opencode at startup. */
  datatype OpencodePane = OpencodePane(tmuxSession: string, paneId: string, panePid: U32, workingDir: string)

  datatype PaneState = PaneState(id: Id, status: PaneStatus)

  datatype Notice = Status(status: PaneStatus) | Ended

  /** What goes out to the daemon: a discover call with the session id it was answered with,
      if any, and a report. Whether a report is accepted makes no difference to the watcher. */
  datatype Sent =
    | Asked(key: string, answer: Option<Id>)
    | Reported(id: Id, notice: Notice)

  datatype Watch = Watch(known: map<string, PaneState>, sent: seq<Sent>)

  /** The three things the loop ever does with a pane. */
  datatype Move =
    | Learn(key: string, answer: Option<Id>)
    | Observe(key: string, status: PaneStatus)
    | Forget(key: string)

  function Apply(w: Watch, m: Move): Watch {
    match m
    case Learn(key, answer) =>
      Watch(if answer.Some? then w.known[key := PaneState(answer.value, PaneStarting)] else w.known,
            w.sent + [Asked(key, answer)])
    case Observe(key, status) =>
      if key !in w.known || w.known[key].status == status then w
      else Watch(w.known[key := w.known[key].(status := status)],
                 w.sent + [Reported(w.known[key].id, Status(status))])
    case Forget(key) =>
      if key !in w.known then w
      else Watch(w.known - {key}, w.sent + [Reported(w.known[key].id, Ended)])
  }

  function ApplyAll(w: Watch, moves: seq<Move>): Watch {
    if moves == [] then w
    else Apply(ApplyAll(w, moves[..|moves| - 1]), moves[|moves| - 1])
  }

  // ----------------------------------------------------------------- the status parser

  /** `parse_status`, on the last non-blank line of a pane. */
  function ParseStatus(line: string): (r: Option<PaneStatus>)
    ensures r != Some(PaneStarting)
  {
    var lower := Lower(line);
    if Contains(lower, "compiling") || Contains(lower, "building") || Contains(lower, "running")
       || Contains(lower, "loading") || Contains(lower, "processing") then Some(PaneWorking)
    else if Contains(lower, "error") || Contains(lower, "panic") || Contains(lower, "failed") then Some(PaneErrored)
    else
      var trimmed := TrimEnd(line);
      if trimmed != "" && (trimmed[|trimmed| - 1] == '\U{276F}' || trimmed[|trimmed| - 1] == '>') then Some(PaneIdle)
      else None
  }

  /** The line, in lower case, contains one of the words. */
  predicate Says(line: string, words: seq<string>) {
    exists i | 0 <= i < |words| :: Contains(Lower(line), words[i])
  }

  const WORKING_WORDS := ["compiling", "building", "running", "loading", "processing"]
  const FAILING_WORDS := ["error", "panic", "failed"]

  predicate EndsInPrompt(line: string) {
    var trimmed := TrimEnd(line);
    trimmed != "" && trimmed[|trimmed| - 1] in ['\U{276F}', '>']
  }

  /** Which lines have which status: a working word outweighs a failing one, and any word a
      prompt. */
  lemma StatusByKeyword(line: string)
    ensures ParseStatus(line) ==
              if Says(line, WORKING_WORDS) then Some(PaneWorking)
              else if Says(line, FAILING_WORDS) then Some(PaneErrored)
              else if EndsInPrompt(line) then Some(PaneIdle) else None
  {
    var w, f := WORKING_WORDS, FAILING_WORDS;
    assert Says(line, w) <==> Contains(Lower(line), w[0]) || Contains(Lower(line), w[1]) || Contains(Lower(line), w[2])
                              || Contains(Lower(line), w[3]) || Contains(Lower(line), w[4]);
    assert Says(line, f) <==> Contains(Lower(line), f[0]) || Contains(Lower(line), f[1]) || Contains(Lower(line), f[2]);
  }

  /** The status of a line does not depend on the case of its letters. */
  lemma StatusIgnoresCase(a: string, b: string)
    requires Lower(a) == Lower(b)
    ensures ParseStatus(a) == ParseStatus(b)
  {
    TrimEndOfLower(a);
    TrimEndOfLower(b);
    var x, y := TrimEnd(a), TrimEnd(b);
    assert Lower(x) == Lower(y) && |x| == |Lower(x)| && |y| == |Lower(y)|;
    if x != "" {
      assert Lower(x)[|x| - 1] == Lower(y)[|y| - 1];
    }
  }

  function LastLine(lines: seq<string>): string {
    if lines == [] then ""
    else if Trim(lines[|lines| - 1]) != "" then lines[|lines| - 1]
    else LastLine(lines[..|lines| - 1])
  }

  /** `line` is the last line that is not blank, or nothing if there is none. */
  ghost predicate LastShown(lines: seq<string>, line: string) {
    || (line == "" && forall i | 0 <= i < |lines| :: AllBlank(lines[i]))
    || exists i :: ShownAt(lines, line, i)
  }

  ghost predicate ShownAt(lines: seq<string>, line: string, i: int) {
    0 <= i < |lines| && line == lines[i] && !AllBlank(line) && forall j | i < j < |lines| :: AllBlank(lines[j])
  }

  lemma {:induction false} LastLineExact(lines: seq<string>)
    ensures LastShown(lines, LastLine(lines))
    decreases |lines|
  {
    if lines != [] {
      var last := |lines| - 1;
      TrimExact(lines[last]);
      if AllBlank(lines[last]) {
        LastLineExact(lines[..last]);
        var line := LastLine(lines);
        if i :| ShownAt(lines[..last], line, i) {
          assert ShownAt(lines, line, i);
        }
      } else {
        assert ShownAt(lines, lines[last], last);
      }
    }
  }

  /** There is only one such line. */
  lemma LastShownUnique(lines: seq<string>, line: string)
    requires LastShown(lines, line)
    ensures line == LastLine(lines)
  {
    LastLineExact(lines);
    var other := LastLine(lines);
    if i :| ShownAt(lines, line, i) {
      if j :| ShownAt(lines, other, j) {
        assert i == j;
      }
    }
  }

  // ------------------------------------------------------------------ trace discipline

  function Issued(sent: seq<Sent>): set<Id> {
    set s | s in sent && s.Asked? && s.answer.Some? :: s.answer.value
  }

  /** What the daemon was told about one session, in order. */
  function Notices(sent: seq<Sent>, id: Id): seq<Notice> {
    if sent == [] then []
    else
      var last := sent[|sent| - 1];
      Notices(sent[..|sent| - 1], id) + if last.Reported? && last.id == id then [last.notice] else []
  }

  /** Status changes, each different from the one before and none of them `starting`, then at
      most one end and nothing after it. */
  ghost predicate Disciplined(ns: seq<Notice>) {
    && (forall i | 0 <= i < |ns| :: ns[i] != Status(PaneStarting))
    && (forall i | 0 <= i < |ns| - 1 :: ns[i].Status? && ns[i] != ns[i + 1])
  }

  /** A known pane's session has been reported up to its current status, and not ended. */
  ghost predicate UpToDate(ns: seq<Notice>, status: PaneStatus) {
    if ns == [] then status == PaneStarting else ns[|ns| - 1] == Status(status)
  }

  ghost predicate DistinctSessions(known: map<string, PaneState>) {
    forall j, k | j in known && k in known && j != k :: known[j].id != known[k].id
  }

  /** A known pane's session was handed out, and reported up to the pane's status. */
  ghost predicate Tracked(p: PaneState, sent: seq<Sent>) {
    p.id in Issued(sent) && UpToDate(Notices(sent, p.id), p.status)
  }

  ghost predicate TracesDisciplined(sent: seq<Sent>) {
    && (forall id :: Disciplined(Notices(sent, id)))
    && (forall id | id !in Issued(sent) :: Notices(sent, id) == [])
  }

  /** The watcher's invariant. */
  ghost predicate Inv(w: Watch) {
    && DistinctSessions(w.known)
    && (forall k | k in w.known :: Tracked(w.known[k], w.sent))
    && TracesDisciplined(w.sent)
  }

  /** The daemon answers with an id it has not handed out before, and the parser never
      reports `starting`. */
  ghost predicate Proper(w: Watch, m: Move) {
    match m
    case Learn(_, answer) => answer.Some? ==> answer.value !in Issued(w.sent)
    case Observe(_, status) => status != PaneStarting
    case Forget(_) => true
  }

  lemma SentSnoc(sent: seq<Sent>, s: Sent, id: Id)
    ensures Notices(sent + [s], id) ==
            Notices(sent, id) + if s.Reported? && s.id == id then [s.notice] else []
    ensures Issued(sent + [s]) == Issued(sent) + if s.Asked? && s.answer.Some? then {s.answer.value} else {}
  {
    assert (sent + [s])[..|sent|] == sent;
    if s.Asked? && s.answer.Some? {
      assert s in sent + [s];
    }
    forall x | x in Issued(sent) ensures x in Issued(sent + [s]) {
      var y :| y in sent && y.Asked? && y.answer.Some? && y.answer.value == x;
      assert y in sent + [s];
    }
  }

  lemma AskedNotices(sent: seq<Sent>, key: string, answer: Option<Id>, id: Id)
    ensures Notices(sent + [Asked(key, answer)], id) == Notices(sent, id)
  {
    SentSnoc(sent, Asked(key, answer), id);
    assert Notices(sent, id) + [] == Notices(sent, id);
  }

  lemma AskedTraces(sent: seq<Sent>, key: string, answer: Option<Id>)
    requires TracesDisciplined(sent)
    ensures TracesDisciplined(sent + [Asked(key, answer)])
  {
    SentSnoc(sent, Asked(key, answer), 0);
    forall id ensures Notices(sent + [Asked(key, answer)], id) == Notices(sent, id) {
      AskedNotices(sent, key, answer, id);
    }
  }

  lemma StillTracked(p: PaneState, sent: seq<Sent>, key: string, answer: Option<Id>)
    requires Tracked(p, sent)
    ensures Tracked(p, sent + [Asked(key, answer)])
  {
    SentSnoc(sent, Asked(key, answer), p.id);
    AskedNotices(sent, key, answer, p.id);
  }

  lemma NewlyTracked(sent: seq<Sent>, key: string, id: Id)
    requires TracesDisciplined(sent) && id !in Issued(sent)
    ensures Tracked(PaneState(id, PaneStarting), sent + [Asked(key, Some(id))])
  {
    SentSnoc(sent, Asked(key, Some(id)), id);
    AskedNotices(sent, key, Some(id), id);
  }

  lemma StillDistinct(known: map<string, PaneState>, key: string, p: PaneState)
    requires DistinctSessions(known) && forall k | k in known :: known[k].id != p.id
    ensures DistinctSessions(known[key := p])
  {
  }

  lemma LearnKeepsInv(w: Watch, key: string, answer: Option<Id>)
    requires Inv(w) && (answer.Some? ==> answer.value !in Issued(w.sent))
    ensures Inv(Apply(w, Learn(key, answer)))
  {
    var sent := w.sent + [Asked(key, answer)];
    AskedTraces(w.sent, key, answer);
    forall k | k in w.known ensures Tracked(w.known[k], sent) {
      StillTracked(w.known[k], w.sent, key, answer);
    }
    if answer.Some? {
      NewlyTracked(w.sent, key, answer.value);
      assert forall k | k in w.known :: w.known[k].id in Issued(w.sent);
      StillDistinct(w.known, key, PaneState(answer.value, PaneStarting));
    }
  }

  lemma DisciplineGrows(ns: seq<Notice>, notice: Notice, status: PaneStatus)
    requires Disciplined(ns) && UpToDate(ns, status) && notice != Status(PaneStarting)
    requires notice.Status? ==> notice.status != status
    ensures Disciplined(ns + [notice])
  {
    var all := ns + [notice];
    forall i | 0 <= i < |all| - 1 ensures all[i].Status? && all[i] != all[i + 1] {
      assert all[i] == ns[i];
    }
  }

  lemma ReportNotices(w: Watch, me: Id, notice: Notice, next: Watch)
    requires next.sent == w.sent + [Reported(me, notice)]
    ensures Issued(next.sent) == Issued(w.sent)
    ensures Notices(next.sent, me) == Notices(w.sent, me) + [notice]
    ensures forall id | id != me :: Notices(next.sent, id) == Notices(w.sent, id)
  {
    SentSnoc(w.sent, Reported(me, notice), me);
    forall id | id != me ensures Notices(next.sent, id) == Notices(w.sent, id) {
      SentSnoc(w.sent, Reported(me, notice), id);
    }
  }

  lemma ReportedTraces(w: Watch, me: Id, notice: Notice, status: PaneStatus, next: Watch)
    requires TracesDisciplined(w.sent) && Tracked(PaneState(me, status), w.sent)
    requires notice != Status(PaneStarting) && (notice.Status? ==> notice.status != status)
    requires next.sent == w.sent + [Reported(me, notice)]
    ensures TracesDisciplined(next.sent)
  {
    ReportNotices(w, me, notice, next);
    DisciplineGrows(Notices(w.sent, me), notice, status);
  }

  lemma ReportKeepsInv(w: Watch, key: string, notice: Notice, next: Watch)
    requires Inv(w) && key in w.known && notice != Status(PaneStarting)
    requires notice.Status? ==> notice.status != w.known[key].status
    requires next.sent == w.sent + [Reported(w.known[key].id, notice)]
    requires next.known == if notice.Status? then w.known[key := w.known[key].(status := notice.status)]
                           else w.known - {key}
    ensures Inv(next)
  {
    var me := w.known[key].id;
    assert Tracked(w.known[key], w.sent) && w.known[key] == PaneState(me, w.known[key].status);
    ReportedTraces(w, me, notice, w.known[key].status, next);
    ReportNotices(w, me, notice, next);
    assert forall k | k in next.known :: k in w.known && next.known[k].id == w.known[k].id;
    forall k | k in next.known ensures Tracked(next.known[k], next.sent) {
      assert Tracked(w.known[k], w.sent);
    }
  }

  lemma MoveKeepsInv(w: Watch, m: Move)
    requires Inv(w) && Proper(w, m)
    ensures Inv(Apply(w, m))
  {
    match m
    case Learn(key, answer) => LearnKeepsInv(w, key, answer);
    case Observe(key, status) =>
      if key in w.known && w.known[key].status != status {
        ReportKeepsInv(w, key, Status(status), Apply(w, m));
      }
    case Forget(key) =>
      if key in w.known {
        ReportKeepsInv(w, key, Ended, Apply(w, m));
      }
  }

  /** No two discover calls were answered with the same id. */
  ghost predicate FreshAnswers(sent: seq<Sent>) {
    forall i, j | 0 <= i < j < |sent| && sent[i].Asked? && sent[j].Asked? && sent[i].answer.Some? ::
      sent[i].answer != sent[j].answer
  }

  ghost predicate NoStarting(moves: seq<Move>) {
    forall m | m in moves :: m.Observe? ==> m.status != PaneStarting
  }

  lemma {:induction false} SentGrows(w: Watch, moves: seq<Move>, n: nat)
    requires n <= |moves|
    ensures ApplyAll(w, moves[..n]).sent <= ApplyAll(w, moves).sent
    decreases |moves|
  {
    if n == |moves| {
      assert moves[..n] == moves;
    } else {
      assert moves[..|moves| - 1][..n] == moves[..n];
      SentGrows(w, moves[..|moves| - 1], n);
    }
  }

  lemma FreshAnswerIsNew(sent: seq<Sent>, key: string, answer: Option<Id>)
    requires FreshAnswers(sent + [Asked(key, answer)]) && answer.Some?
    ensures answer.value !in Issued(sent)
  {
    var all := sent + [Asked(key, answer)];
    forall i | 0 <= i < |sent| && sent[i].Asked? ensures sent[i].answer != answer {
      assert all[i] == sent[i] && all[|sent|] == Asked(key, answer);
    }
  }

  /** Trace discipline over whole runs. However the loop's ticks unfold, if the daemon's
      answers are fresh then the reports about one session are status changes, no two in a
      row alike and none `starting`, followed by at most one end and nothing after it; and
      distinct known panes have distinct sessions. */
  lemma {:induction false} TraceDiscipline(moves: seq<Move>)
    requires NoStarting(moves)
    requires FreshAnswers(ApplyAll(Watch(map[], []), moves).sent)
    ensures Inv(ApplyAll(Watch(map[], []), moves))
    decreases |moves|
  {
    var empty := Watch(map[], []);
    if moves == [] {
      assert Issued([]) == {};
    } else {
      var before, m := moves[..|moves| - 1], moves[|moves| - 1];
      SentGrows(empty, moves, |moves| - 1);
      TraceDiscipline(before);
      var w := ApplyAll(empty, before);
      if m.Learn? && m.answer.Some? {
        FreshAnswerIsNew(w.sent, m.key, m.answer);
      }
      assert m in moves;
      MoveKeepsInv(w, m);
    }
  }

  // ---------------------------------------------------------------------- the pane check

  /** `is_opencode_comm`: the command, or its first word, is `opencode` in any case. */
  predicate IsOpencode(command: string) {
    var t := Trim(command);
    Lower(t) == "opencode" || Lower(FirstWord(t)) == "opencode"
  }

  function FirstWord(s: string): string {
    if s == "" || IsSpace(s[0]) then "" else [s[0]] + FirstWord(s[1..])
  }

  /** The trimmed command is the word `opencode`, in any case, alone or before a blank. */
  ghost predicate RunsOpencode(command: string) {
    exists head, tail :: StartsWithOpencode(command, head, tail)
  }

  predicate StartsWithOpencode(command: string, head: string, tail: string) {
    Trim(command) == head + tail && Lower(head) == "opencode" && (tail == "" || IsSpace(tail[0]))
  }

  lemma {:induction false} FirstWordIs(head: string, tail: string)
    requires (forall c | c in head :: !IsSpace(c)) && (tail == "" || IsSpace(tail[0]))
    ensures FirstWord(head + tail) == head
  {
    if head == "" {
      assert head + tail == tail;
    } else {
      assert (head + tail)[0] == head[0] && head[0] in head && (head + tail)[1..] == head[1..] + tail;
      FirstWordIs(head[1..], tail);
    }
  }

  lemma {:induction false} FirstWordSplits(s: string) returns (tail: string)
    ensures s == FirstWord(s) + tail && (tail == "" || IsSpace(tail[0]))
  {
    if s == "" || IsSpace(s[0]) {
      tail := s;
    } else {
      tail := FirstWordSplits(s[1..]);
    }
  }

  lemma NoBlankInWord(head: string)
    requires Lower(head) == "opencode"
    ensures forall c | c in head :: !IsSpace(c)
  {
    assert |head| == 8;
    assert forall i | 0 <= i < 8 :: !IsSpace(Lower(head)[i]);
    forall i | 0 <= i < 8 ensures !IsSpace(head[i]) {
      assert Lower(head)[i] == head[i] || 'A' <= head[i] <= 'Z';
    }
  }

  /** `is_opencode_comm`, without looking at how it searches. */
  lemma OpencodeExact(command: string)
    ensures IsOpencode(command) <==> RunsOpencode(command)
  {
    var t := Trim(command);
    if IsOpencode(command) {
      var tail := FirstWordSplits(t);
      if Lower(t) == "opencode" {
        assert StartsWithOpencode(command, t, "");
      } else {
        assert StartsWithOpencode(command, FirstWord(t), tail);
      }
    }
    if head, tail :| StartsWithOpencode(command, head, tail) {
      NoBlankInWord(head);
      FirstWordIs(head, tail);
    }
  }

  function KeyOf(p: RawPane): string {
    PaneKey(p.session, p.paneId)
  }

  /** The scan as a map from pane key to command; a later line wins. */
  function Current(panes: seq<RawPane>): map<string, string> {
    if panes == [] then map[]
    else
      var last := panes[|panes| - 1];
      Current(panes[..|panes| - 1])[KeyOf(last) := last.command]
  }

  function Running(panes: seq<RawPane>): set<string> {
    set k | k in Current(panes) && IsOpencode(Current(panes)[k])
  }

  lemma {:induction false} CurrentKeys(panes: seq<RawPane>)
    ensures forall k :: k in Current(panes) <==> exists p :: p in panes && KeyOf(p) == k
    decreases |panes|
  {
    if panes != [] {
      var last := panes[|panes| - 1];
      CurrentKeys(panes[..|panes| - 1]);
      assert panes == panes[..|panes| - 1] + [last];
      assert last in panes;
    }
  }

  function FinishMoves(vanished: seq<string>): seq<Move> {
    seq(|vanished|, i requires 0 <= i < |vanished| => Forget(vanished[i]))
  }

  /** The discover calls of a pane check: one for every scanned line whose key is new. */
  function LearnMoves(panes: seq<RawPane>, added: seq<string>, answers: seq<Option<Id>>): seq<Move>
    requires |answers| == |panes|
  {
    if panes == [] then []
    else
      var last := |panes| - 1;
      LearnMoves(panes[..last], added, answers[..last]) +
      if KeyOf(panes[last]) in added then [Learn(KeyOf(panes[last]), answers[last])] else []
  }

  lemma {:induction false} ApplyAllAppend(w: Watch, a: seq<Move>, b: seq<Move>)
    ensures ApplyAll(w, a + b) == ApplyAll(ApplyAll(w, a), b)
    decreases |b|
  {
    if b == [] {
      assert a + b == a;
    } else {
      assert (a + b)[..|a + b| - 1] == a + b[..|b| - 1];
      ApplyAllAppend(w, a, b[..|b| - 1]);
    }
  }

  lemma {:induction false} FinishedKeys(w: Watch, vanished: seq<string>)
    ensures ApplyAll(w, FinishMoves(vanished)).known == w.known - (set k | k in vanished)
    decreases |vanished|
  {
    if vanished != [] {
      var before := vanished[..|vanished| - 1];
      FinishedKeys(w, before);
      assert FinishMoves(vanished)[..|vanished| - 1] == FinishMoves(before);
      assert vanished == before + [vanished[|vanished| - 1]];
    }
  }

  /** Some scanned line asked for `k`, and was answered with an id. */
  predicate Taught(panes: seq<RawPane>, added: seq<string>, answers: seq<Option<Id>>, k: string)
    requires |answers| == |panes|
  {
    exists i :: 0 <= i < |panes| && KeyOf(panes[i]) == k && k in added && answers[i].Some?
  }

  lemma TaughtSnoc(panes: seq<RawPane>, added: seq<string>, answers: seq<Option<Id>>, k: string)
    requires |answers| == |panes| > 0
    ensures var last := |panes| - 1;
            Taught(panes, added, answers, k) <==>
              Taught(panes[..last], added, answers[..last], k) ||
              (KeyOf(panes[last]) == k && k in added && answers[last].Some?)
  {
    var last := |panes| - 1;
    if i :| 0 <= i < last && KeyOf(panes[..last][i]) == k && k in added && answers[..last][i].Some? {
      assert KeyOf(panes[i]) == k;
    }
    if i :| 0 <= i < |panes| && KeyOf(panes[i]) == k && k in added && answers[i].Some? {
      if i < last {
        assert KeyOf(panes[..last][i]) == k && answers[..last][i].Some?;
      }
    }
  }

  lemma ApplyOneMore(w: Watch, moves: seq<Move>, m: Move)
    ensures ApplyAll(w, moves + [m]) == Apply(ApplyAll(w, moves), m)
  {
    assert (moves + [m])[..|moves|] == moves;
  }

  lemma {:induction false} LearnedKeys(w: Watch, panes: seq<RawPane>, added: seq<string>,
                                       answers: seq<Option<Id>>, k: string)
    requires |answers| == |panes|
    ensures k in ApplyAll(w, LearnMoves(panes, added, answers)).known <==>
              k in w.known || Taught(panes, added, answers, k)
    decreases |panes|
  {
    if panes != [] {
      var last := |panes| - 1;
      LearnedKeys(w, panes[..last], added, answers[..last], k);
      TaughtSnoc(panes, added, answers, k);
      var moves := LearnMoves(panes[..last], added, answers[..last]);
      if KeyOf(panes[last]) in added {
        ApplyOneMore(w, moves, Learn(KeyOf(panes[last]), answers[last]));
      } else {
        assert moves + [] == moves;
      }
    }
  }

  /** `vanished` and `added` are what a diff of `known` against the scan must return, in
      whatever order the hash sets yield. */
  ghost predicate Diff(known: map<string, PaneState>, panes: seq<RawPane>, vanished: seq<string>, added: seq<string>) {
    && (forall k :: k in vanished <==> k in known && k !in Running(panes))
    && (forall k :: k in added <==> k in Running(panes) && k !in known)
    && (forall i, j | 0 <= i < j < |vanished| :: vanished[i] != vanished[j])
    && (forall i, j | 0 <= i < j < |added| :: added[i] != added[j])
  }

  predicate Answered(panes: seq<RawPane>, answers: seq<Option<Id>>, key: string)
    requires |answers| == |panes|
  {
    exists i :: 0 <= i < |panes| && KeyOf(panes[i]) == key && answers[i].Some?
  }

  /** After every pane check a pane is known exactly if it runs opencode now and either was
      known or had a discover call answered with an id. So known panes all run opencode, and
      if every call is answered, all panes that run opencode are known. */
  lemma PaneCheckExact(w: Watch, panes: seq<RawPane>, vanished: seq<string>, added: seq<string>,
                       answers: seq<Option<Id>>)
    requires Diff(w.known, panes, vanished, added) && |answers| == |panes|
    ensures var after := ApplyAll(w, FinishMoves(vanished) + LearnMoves(panes, added, answers)).known;
            && (forall k :: k in after <==> k in Running(panes) && (k in w.known || Answered(panes, answers, k)))
            && after.Keys <= Running(panes)
            && ((forall a | a in answers :: a.Some?) ==> after.Keys == Running(panes))
  {
    ApplyAllAppend(w, FinishMoves(vanished), LearnMoves(panes, added, answers));
    FinishedKeys(w, vanished);
    var w' := ApplyAll(w, FinishMoves(vanished));
    forall k ensures k in ApplyAll(w', LearnMoves(panes, added, answers)).known <==>
                       k in w'.known || Taught(panes, added, answers, k) {
      LearnedKeys(w', panes, added, answers, k);
    }
    CurrentKeys(panes);
    if forall a | a in answers :: a.Some? {
      forall k | k in Running(panes) ensures Answered(panes, answers, k) {
        var p :| p in panes && KeyOf(p) == k;
        var i :| 0 <= i < |panes| && panes[i] == p;
        assert answers[i] in answers;
      }
    }
  }

  /** Line `i` is the last of the scan for the pane `k`. */
  ghost predicate LastFor(panes: seq<RawPane>, i: int, k: string) {
    0 <= i < |panes| && KeyOf(panes[i]) == k && forall j | i < j < |panes| :: KeyOf(panes[j]) != k
  }

  /** The scan says that opencode runs in the pane. */
  ghost predicate ScanShows(panes: seq<RawPane>, k: string) {
    exists i :: LastFor(panes, i, k) && RunsOpencode(panes[i].command)
  }

  lemma {:induction false} CurrentExact(panes: seq<RawPane>, k: string) returns (i: int)
    ensures k in Current(panes) <==> LastFor(panes, i, k)
    ensures k in Current(panes) ==> Current(panes)[k] == panes[i].command
    decreases |panes|
  {
    i := -1;
    if panes != [] {
      var last := |panes| - 1;
      if KeyOf(panes[last]) == k {
        i := last;
      } else {
        i := CurrentExact(panes[..last], k);
        if k !in Current(panes) { i := -1; }
      }
    }
  }

  lemma RunningExact(panes: seq<RawPane>, k: string)
    ensures k in Running(panes) <==> ScanShows(panes, k)
  {
    var i := CurrentExact(panes, k);
    if k in Current(panes) {
      OpencodeExact(panes[i].command);
    }
    if j :| LastFor(panes, j, k) && RunsOpencode(panes[j].command) {
      CurrentKeys(panes);
      assert panes[j] in panes;
      assert i == j;
    }
  }

  /** The pane check in terms of the scanned commands: afterwards a pane is known exactly if
      the scan shows opencode in it, and it was known or had a discover call answered. A pane
      that stays known keeps its session and status; one that is new has a session it was
      answered with, and is starting. */
  lemma PaneCheckByCommand(w: Watch, panes: seq<RawPane>, vanished: seq<string>, added: seq<string>,
                           answers: seq<Option<Id>>, k: string)
    requires Diff(w.known, panes, vanished, added) && |answers| == |panes|
    ensures var after := ApplyAll(w, FinishMoves(vanished) + LearnMoves(panes, added, answers)).known;
            && (k in after <==> ScanShows(panes, k) && (k in w.known || Answered(panes, answers, k)))
            && (k in after && k in w.known ==> after[k] == w.known[k])
            && (k in after && k !in w.known ==>
                  after[k].status == PaneStarting && AnsweredWith(panes, answers, k, after[k].id))
  {
    PaneCheckExact(w, panes, vanished, added, answers);
    RunningExact(panes, k);
    ApplyAllAppend(w, FinishMoves(vanished), LearnMoves(panes, added, answers));
    FinishedKeys(w, vanished);
    LearnedStates(ApplyAll(w, FinishMoves(vanished)), panes, added, answers, k);
  }

  /** Some line for the pane was answered with the session. */
  predicate AnsweredWith(panes: seq<RawPane>, answers: seq<Option<Id>>, k: string, id: Id)
    requires |answers| == |panes|
  {
    exists i :: 0 <= i < |panes| && KeyOf(panes[i]) == k && answers[i] == Some(id)
  }

  lemma AnsweredLater(panes: seq<RawPane>, answers: seq<Option<Id>>, k: string, id: Id)
    requires |answers| == |panes| > 0
    requires AnsweredWith(panes[..|panes| - 1], answers[..|panes| - 1], k, id)
    ensures AnsweredWith(panes, answers, k, id)
  {
    var last := |panes| - 1;
    var i :| 0 <= i < last && KeyOf(panes[..last][i]) == k && answers[..last][i] == Some(id);
    assert KeyOf(panes[i]) == k && answers[i] == Some(id);
  }

  /** The last line's turn. */
  lemma LearnOneMore(w: Watch, panes: seq<RawPane>, added: seq<string>, answers: seq<Option<Id>>, k: string)
    requires |answers| == |panes| > 0
    ensures var last := |panes| - 1;
            var mid := ApplyAll(w, LearnMoves(panes[..last], added, answers[..last]));
            var next := ApplyAll(w, LearnMoves(panes, added, answers));
            if KeyOf(panes[last]) == k && k in added && answers[last].Some? then
              k in next.known && next.known[k] == PaneState(answers[last].value, PaneStarting)
            else (k in next.known <==> k in mid.known) && (k in mid.known ==> next.known[k] == mid.known[k])
  {
    var last := |panes| - 1;
    var moves := LearnMoves(panes[..last], added, answers[..last]);
    if KeyOf(panes[last]) in added {
      ApplyOneMore(w, moves, Learn(KeyOf(panes[last]), answers[last]));
    } else {
      assert moves + [] == moves;
    }
  }

  lemma {:induction false} LearnedStates(w: Watch, panes: seq<RawPane>, added: seq<string>, answers: seq<Option<Id>>,
                                         k: string)
    requires |answers| == |panes|
    ensures var after := ApplyAll(w, LearnMoves(panes, added, answers)).known;
            && (k in w.known && k !in added ==> k in after && after[k] == w.known[k])
            && (k in after && k !in w.known ==>
                  after[k].status == PaneStarting && AnsweredWith(panes, answers, k, after[k].id))
    decreases |panes|
  {
    if panes != [] {
      var last := |panes| - 1;
      var mid := ApplyAll(w, LearnMoves(panes[..last], added, answers[..last])).known;
      LearnedStates(w, panes[..last], added, answers[..last], k);
      LearnOneMore(w, panes, added, answers, k);
      if k in mid && k !in w.known {
        AnsweredLater(panes, answers, k, mid[k].id);
      }
    }
  }

  // ------------------------------------------------------------------------- the loop

  function StartMoves(panes: seq<OpencodePane>, answers: seq<Option<Id>>): seq<Move>
    requires |answers| == |panes|
  {
    seq(|panes|, i requires 0 <= i < |panes| => Learn(PaneKey(panes[i].tmuxSession, panes[i].paneId), answers[i]))
  }

  /** A poll looks at the startup panes only; `captures[i]` is the text of pane `i`. */
  function PollMoves(panes: seq<OpencodePane>, captures: seq<string>): (moves: seq<Move>)
    requires |captures| == |panes|
    ensures NoStarting(moves)
    ensures forall m | m in moves :: m.Observe? && m.key in StartKeys(panes)
  {
    if panes == [] then []
    else
      var last := |panes| - 1;
      var status := ParseStatus(LastLine(Lines(captures[last])));
      assert panes[last] in panes;
      assert forall p | p in panes[..last] :: p in panes;
      PollMoves(panes[..last], captures[..last]) +
      if status.Some? then [Observe(PaneKey(panes[last].tmuxSession, panes[last].paneId), status.value)] else []
  }

  function StartKeys(panes: seq<OpencodePane>): set<string> {
    set p | p in panes :: PaneKey(p.tmuxSession, p.paneId)
  }

  /** Every known session and every reported status belongs to a key it was asked for. */
  ghost predicate Traceable(w: Watch, keys: set<string>) {
    && (forall k | k in w.known :: Asked(k, Some(w.known[k].id)) in w.sent)
    && (forall s | s in w.sent && s.Reported? && s.notice.Status? ::
          exists k :: k in keys && Asked(k, Some(s.id)) in w.sent)
  }

  /** Panes found after startup are never polled: whatever the loop does, a status report is
      always about a session that was discovered under a startup pane's key. */
  lemma {:induction false} OnlyStartupPanesReportStatus(moves: seq<Move>, keys: set<string>)
    requires forall m | m in moves && m.Observe? :: m.key in keys
    ensures Traceable(ApplyAll(Watch(map[], []), moves), keys)
    decreases |moves|
  {
    if moves != [] {
      var before, m := moves[..|moves| - 1], moves[|moves| - 1];
      OnlyStartupPanesReportStatus(before, keys);
      var w := ApplyAll(Watch(map[], []), before);
      assert m in moves;
      var next := Apply(w, m);
      assert w.sent <= next.sent;
      assert forall s | s in w.sent :: s in next.sent;
      if m.Learn? {
        assert Asked(m.key, m.answer) in next.sent;
      }
    }
  }

  /** One round of the select loop: what the poll captured, or what the scan returned and how
      it was diffed and answered, or a heartbeat, which does nothing to the panes. */
  datatype LoopTick =
    | PollTick(captures: seq<string>)
    | CheckTick(scan: Option<seq<RawPane>>, vanished: seq<string>, added: seq<string>, answers: seq<Option<Id>>)
    | HeartbeatTick

  predicate WellFormed(panes: seq<OpencodePane>, t: LoopTick) {
    && (t.PollTick? ==> |t.captures| == |panes|)
    && (t.CheckTick? && t.scan.Some? ==> |t.answers| == |t.scan.value|)
  }

  predicate AllWellFormed(panes: seq<OpencodePane>, ticks: seq<LoopTick>) {
    forall i | 0 <= i < |ticks| :: WellFormed(panes, ticks[i])
  }

  /** The same tick, up to the diff. */
  predicate SameInput(a: LoopTick, b: LoopTick) {
    match (a, b)
    case (CheckTick(scan, _, _, answers), CheckTick(scan', _, _, answers')) => scan == scan' && answers == answers'
    case _ => a == b
  }

  predicate SameInputs(a: seq<LoopTick>, b: seq<LoopTick>) {
    |a| <= |b| && forall i | 0 <= i < |a| :: SameInput(a[i], b[i])
  }

  function TickMoves(panes: seq<OpencodePane>, t: LoopTick): seq<Move>
    requires WellFormed(panes, t)
  {
    match t
    case PollTick(captures) => PollMoves(panes, captures)
    case CheckTick(scan, vanished, added, answers) =>
      if scan.Some? then FinishMoves(vanished) + LearnMoves(scan.value, added, answers) else []
    case HeartbeatTick => []
  }

  function LoopMoves(panes: seq<OpencodePane>, ticks: seq<LoopTick>): seq<Move>
    requires AllWellFormed(panes, ticks)
  {
    if ticks == [] then []
    else LoopMoves(panes, ticks[..|ticks| - 1]) + TickMoves(panes, ticks[|ticks| - 1])
  }

  /** The watcher after its startup and a stretch of the loop. */
  function Loop(panes: seq<OpencodePane>, answers: seq<Option<Id>>, ticks: seq<LoopTick>): Watch
    requires |answers| == |panes| && AllWellFormed(panes, ticks)
  {
    ApplyAll(Watch(map[], []), StartMoves(panes, answers) + LoopMoves(panes, ticks))
  }

  lemma {:induction false} LearnMovesOnlyLearn(panes: seq<RawPane>, added: seq<string>, answers: seq<Option<Id>>)
    requires |answers| == |panes|
    ensures forall m | m in LearnMoves(panes, added, answers) :: m.Learn?
    decreases |panes|
  {
    if panes != [] {
      LearnMovesOnlyLearn(panes[..|panes| - 1], added, answers[..|panes| - 1]);
    }
  }

  lemma {:induction false} LoopObserves(panes: seq<OpencodePane>, ticks: seq<LoopTick>)
    requires AllWellFormed(panes, ticks)
    ensures forall m | m in LoopMoves(panes, ticks) && m.Observe? ::
              m.key in StartKeys(panes) && m.status != PaneStarting
    decreases |ticks|
  {
    if ticks != [] {
      var before, t := ticks[..|ticks| - 1], ticks[|ticks| - 1];
      LoopObserves(panes, before);
      if t.CheckTick? && t.scan.Some? {
        LearnMovesOnlyLearn(t.scan.value, t.added, t.answers);
      }
    }
  }

  /** The watch loop itself. Whatever it captures, scans and is answered, in whatever order
      its timers fire: if the answers are fresh its reports are disciplined and its panes have
      distinct sessions, and only startup panes ever report a status. */
  lemma LoopDiscipline(panes: seq<OpencodePane>, answers: seq<Option<Id>>, ticks: seq<LoopTick>)
    requires |answers| == |panes| && AllWellFormed(panes, ticks)
    requires FreshAnswers(Loop(panes, answers, ticks).sent)
    ensures Inv(Loop(panes, answers, ticks)) && Traceable(Loop(panes, answers, ticks), StartKeys(panes))
  {
    var start := StartMoves(panes, answers);
    LoopObserves(panes, ticks);
    assert forall m | m in start :: m.Learn?;
    TraceDiscipline(start + LoopMoves(panes, ticks));
    OnlyStartupPanesReportStatus(start + LoopMoves(panes, ticks), StartKeys(panes));
  }

  lemma {:induction false} StartPrefix(panes: seq<OpencodePane>, answers: seq<Option<Id>>, n: nat, key: string)
    requires |answers| == |panes| && n <= |panes|
    requires forall j | 0 <= j < n :: PaneKey(panes[j].tmuxSession, panes[j].paneId) != key
    ensures key !in ApplyAll(Watch(map[], []), StartMoves(panes, answers)[..n]).known
    decreases n
  {
    if n > 0 {
      var moves := StartMoves(panes, answers);
      assert moves[..n][..n - 1] == moves[..n - 1];
      StartPrefix(panes, answers, n - 1, key);
    }
  }

  /** Startup: a pane is known as starting, with the session its own discover call was answered
      with, and not at all if it was not answered. */
  lemma {:induction false} StartExact(panes: seq<OpencodePane>, answers: seq<Option<Id>>, n: nat, i: nat)
    requires |answers| == |panes| && i < n <= |panes| && OnlyPane(panes, i)
    ensures var known := ApplyAll(Watch(map[], []), StartMoves(panes, answers)[..n]).known;
            var key := PaneKey(panes[i].tmuxSession, panes[i].paneId);
            match answers[i]
            case Some(id) => key in known && known[key] == PaneState(id, PaneStarting)
            case None => key !in known
    decreases n
  {
    var moves := StartMoves(panes, answers);
    assert moves[..n][..n - 1] == moves[..n - 1] && moves[..n][n - 1] == moves[n - 1];
    if i == n - 1 {
      StartPrefix(panes, answers, n - 1, PaneKey(panes[i].tmuxSession, panes[i].paneId));
    } else {
      StartExact(panes, answers, n - 1, i);
    }
  }

  lemma MovesOneMore(w: Watch, panes: seq<OpencodePane>, ticks: seq<LoopTick>, t: LoopTick)
    requires AllWellFormed(panes, ticks) && WellFormed(panes, t)
    ensures AllWellFormed(panes, ticks + [t])
    ensures ApplyAll(w, LoopMoves(panes, ticks + [t])) ==
              ApplyAll(ApplyAll(w, LoopMoves(panes, ticks)), TickMoves(panes, t))
  {
    assert (ticks + [t])[..|ticks|] == ticks;
    ApplyAllAppend(w, LoopMoves(panes, ticks), TickMoves(panes, t));
  }

  /** The loop went from `w` to `end` by ticks on the given inputs. */
  ghost predicate Ran(w: Watch, end: Watch, panes: seq<OpencodePane>, inputs: seq<LoopTick>, ticks: seq<LoopTick>) {
    SameInputs(ticks, inputs) && AllWellFormed(panes, ticks) && end == ApplyAll(w, LoopMoves(panes, ticks))
  }

  lemma SameInputsGrow(ticks: seq<LoopTick>, inputs: seq<LoopTick>, t: LoopTick)
    requires SameInputs(ticks, inputs) && |ticks| < |inputs| && SameInput(t, inputs[|ticks|])
    ensures SameInputs(ticks + [t], inputs)
  {
  }

  lemma RanOneMore(w: Watch, mid: Watch, panes: seq<OpencodePane>, inputs: seq<LoopTick>,
                   ticks: seq<LoopTick>, t: LoopTick)
    requires Ran(w, mid, panes, inputs, ticks) && |ticks| < |inputs|
    requires WellFormed(panes, t) && SameInput(t, inputs[|ticks|])
    ensures Ran(w, ApplyAll(mid, TickMoves(panes, t)), panes, inputs, ticks + [t])
  {
    SameInputsGrow(ticks, inputs, t);
    MovesOneMore(w, panes, ticks, t);
  }

  lemma LoopOneMore(panes: seq<OpencodePane>, answers: seq<Option<Id>>, ticks: seq<LoopTick>, t: LoopTick)
    requires |answers| == |panes| && AllWellFormed(panes, ticks) && WellFormed(panes, t)
    ensures Loop(panes, answers, ticks + [t]) == ApplyAll(Loop(panes, answers, ticks), TickMoves(panes, t))
  {
    var start, before, more := StartMoves(panes, answers), LoopMoves(panes, ticks), TickMoves(panes, t);
    assert (ticks + [t])[..|ticks|] == ticks;
    assert start + (before + more) == start + before + more;
    ApplyAllAppend(Watch(map[], []), start + before, more);
  }

  /** After any pane check of the loop the known panes are exactly those that run opencode and
      were known or got an id. */
  lemma LoopCheckExact(panes: seq<OpencodePane>, answers: seq<Option<Id>>, ticks: seq<LoopTick>, t: LoopTick)
    requires |answers| == |panes| && AllWellFormed(panes, ticks) && WellFormed(panes, t)
    requires t.CheckTick? && t.scan.Some?
    requires Diff(Loop(panes, answers, ticks).known, t.scan.value, t.vanished, t.added)
    ensures var before, after := Loop(panes, answers, ticks).known, Loop(panes, answers, ticks + [t]).known;
            forall k :: k in after <==>
              k in Running(t.scan.value) && (k in before || Answered(t.scan.value, t.answers, k))
  {
    LoopOneMore(panes, answers, ticks, t);
    PaneCheckExact(Loop(panes, answers, ticks), t.scan.value, t.vanished, t.added, t.answers);
  }

  // ------------------------------------------------------------- which panes can report

  lemma RunningText()
    ensures ParseStatus(LastLine(Lines("running"))) == Some(PaneWorking)
  {
    var text := "running";
    OneLine(text);
    assert Lower(text) == text && text[0..] == text;
    assert Contains(text, "running");
  }

  lemma TooShort(s: string, part: string)
    requires |s| < |part|
    ensures !Contains(s, part)
  {
  }

  lemma ErrorText()
    ensures ParseStatus(LastLine(Lines("error"))) == Some(PaneErrored)
  {
    var text := "error";
    OneLine(text);
    assert Lower(text) == text && text[0..] == text;
    assert Contains(text, "error");
    TooShort(text, "compiling");
    TooShort(text, "building");
    TooShort(text, "running");
    TooShort(text, "loading");
    TooShort(text, "processing");
  }

  lemma OneLine(line: string)
    requires line != "" && '\n' !in line && !IsSpace(line[0]) && !IsSpace(line[|line| - 1])
    ensures LastLine(Lines(line)) == line
  {
    FindNone(line, '\n');
    assert Lines(line) == [line];
    assert Trim(line) == line;
  }

  /** The same text in every startup pane. */
  function Uniform(panes: seq<OpencodePane>, text: string): seq<string> {
    seq(|panes|, _ => text)
  }

  lemma UniformSnoc(panes: seq<OpencodePane>, text: string)
    requires panes != []
    ensures Uniform(panes, text)[..|panes| - 1] == Uniform(panes[..|panes| - 1], text)
  {
  }

  lemma UniformOneMore(w: Watch, panes: seq<OpencodePane>, text: string, status: PaneStatus)
    requires panes != [] && ParseStatus(LastLine(Lines(text))) == Some(status)
    ensures var last := |panes| - 1;
            ApplyAll(w, PollMoves(panes, Uniform(panes, text))) ==
              Apply(ApplyAll(w, PollMoves(panes[..last], Uniform(panes[..last], text))),
                    Observe(PaneKey(panes[last].tmuxSession, panes[last].paneId), status))
  {
    var last := |panes| - 1;
    UniformSnoc(panes, text);
    ApplyOneMore(w, PollMoves(panes[..last], Uniform(panes[..last], text)),
                 Observe(PaneKey(panes[last].tmuxSession, panes[last].paneId), status));
  }

  lemma ObserveStatus(w: Watch, at: string, status: PaneStatus, key: string)
    requires key in w.known
    ensures var next := Apply(w, Observe(at, status)).known;
            && key in next && next[key].id == w.known[key].id
            && next[key].status == if at == key then status else w.known[key].status
  {
  }

  /** A poll that finds the same new status everywhere has each known startup pane report it. */
  lemma {:induction false} UniformPoll(w: Watch, panes: seq<OpencodePane>, text: string, status: PaneStatus,
                                       key: string)
    requires key in w.known && w.known[key].status != status
    requires ParseStatus(LastLine(Lines(text))) == Some(status)
    ensures var next := ApplyAll(w, PollMoves(panes, Uniform(panes, text)));
            && key in next.known && next.known[key].id == w.known[key].id
            && next.known[key].status == if key in StartKeys(panes) then status else w.known[key].status
    decreases |panes|
  {
    if panes == [] {
      assert StartKeys(panes) == {};
    } else {
      var last := |panes| - 1;
      var mid := ApplyAll(w, PollMoves(panes[..last], Uniform(panes[..last], text)));
      UniformPoll(w, panes[..last], text, status, key);
      UniformOneMore(w, panes, text, status);
      ObserveStatus(mid, PaneKey(panes[last].tmuxSession, panes[last].paneId), status, key);
      StartKeysSnoc(panes);
    }
  }

  lemma StartKeysSnoc(panes: seq<OpencodePane>)
    requires panes != []
    ensures var last := |panes| - 1;
            StartKeys(panes) == StartKeys(panes[..last]) + {PaneKey(panes[last].tmuxSession, panes[last].paneId)}
  {
    var last := |panes| - 1;
    assert panes == panes[..last] + [panes[last]];
  }

  lemma {:induction false} PollLeavesOthers(w: Watch, panes: seq<OpencodePane>, captures: seq<string>, key: string)
    requires |captures| == |panes| && key in w.known && key !in StartKeys(panes)
    ensures var next := ApplyAll(w, PollMoves(panes, captures));
            key in next.known && next.known[key] == w.known[key]
    decreases |panes|
  {
    if panes != [] {
      var last := |panes| - 1;
      StartKeysSnoc(panes);
      PollLeavesOthers(w, panes[..last], captures[..last], key);
      var moves := PollMoves(panes[..last], captures[..last]);
      var status := ParseStatus(LastLine(Lines(captures[last])));
      if status.Some? {
        ApplyOneMore(w, moves, Observe(PaneKey(panes[last].tmuxSession, panes[last].paneId), status.value));
      } else {
        assert moves + [] == moves;
      }
    }
  }

  // ------------------------------------------------------------- what a poll reports

  lemma ObserveKnown(w: Watch, at: string, status: PaneStatus, key: string)
    requires DistinctSessions(w.known) && key in w.known
    ensures var next := Apply(w, Observe(at, status));
            && DistinctSessions(next.known) && key in next.known
            && next.known[key] == if at == key then w.known[key].(status := status) else w.known[key]
  {
    var next := Apply(w, Observe(at, status));
    assert forall k :: k in next.known <==> k in w.known;
    assert forall k | k in w.known :: next.known[k].id == w.known[k].id;
  }

  lemma ObserveNotices(w: Watch, at: string, status: PaneStatus, key: string)
    requires DistinctSessions(w.known) && key in w.known
    ensures var id := w.known[key].id;
            Notices(Apply(w, Observe(at, status)).sent, id) ==
              if at == key && status != w.known[key].status then Notices(w.sent, id) + [Status(status)]
              else Notices(w.sent, id)
  {
    var id := w.known[key].id;
    assert Notices(w.sent, id) + [] == Notices(w.sent, id);
    if at in w.known && w.known[at].status != status {
      SentSnoc(w.sent, Reported(w.known[at].id, Status(status)), id);
    }
  }

  /** The key of no other startup pane. */
  ghost predicate OnlyPane(panes: seq<OpencodePane>, i: nat) {
    i < |panes| && forall j | 0 <= j < |panes| && j != i ::
                     PaneKey(panes[j].tmuxSession, panes[j].paneId) != PaneKey(panes[i].tmuxSession, panes[i].paneId)
  }

  /** What a poll makes of a status, given the line that the pane shows last. */
  function StatusShown(line: string, before: PaneStatus): PaneStatus {
    if Says(line, WORKING_WORDS) then PaneWorking
    else if Says(line, FAILING_WORDS) then PaneErrored
    else if EndsInPrompt(line) then PaneIdle
    else before
  }

  lemma {:induction false} PollOthers(w: Watch, panes: seq<OpencodePane>, captures: seq<string>, key: string)
    requires |captures| == |panes| && DistinctSessions(w.known) && key in w.known && key !in StartKeys(panes)
    ensures var next := ApplyAll(w, PollMoves(panes, captures));
            && DistinctSessions(next.known) && key in next.known && next.known[key] == w.known[key]
            && Notices(next.sent, w.known[key].id) == Notices(w.sent, w.known[key].id)
    decreases |panes|
  {
    if panes != [] {
      var last := |panes| - 1;
      StartKeysSnoc(panes);
      PollOthers(w, panes[..last], captures[..last], key);
      PollOneMore(w, panes, captures, key);
    }
  }

  /** The last pane's turn in a poll. */
  lemma PollOneMore(w: Watch, panes: seq<OpencodePane>, captures: seq<string>, key: string)
    requires |captures| == |panes| > 0
    requires var mid := ApplyAll(w, PollMoves(panes[..|panes| - 1], captures[..|panes| - 1]));
             DistinctSessions(mid.known) && key in mid.known
    ensures var last := |panes| - 1;
            var mid := ApplyAll(w, PollMoves(panes[..last], captures[..last]));
            var next := ApplyAll(w, PollMoves(panes, captures));
            var it := mid.known[key];
            var status := if PaneKey(panes[last].tmuxSession, panes[last].paneId) == key
                          then StatusShown(LastLine(Lines(captures[last])), it.status) else it.status;
            && DistinctSessions(next.known) && key in next.known && next.known[key] == PaneState(it.id, status)
            && Notices(next.sent, it.id) ==
                 if status != it.status then Notices(mid.sent, it.id) + [Status(status)] else Notices(mid.sent, it.id)
  {
    var last := |panes| - 1;
    var moves := PollMoves(panes[..last], captures[..last]);
    var mid := ApplyAll(w, moves);
    var line := LastLine(Lines(captures[last]));
    StatusByKeyword(line);
    if ParseStatus(line).Some? {
      var at := PaneKey(panes[last].tmuxSession, panes[last].paneId);
      ApplyOneMore(w, moves, Observe(at, ParseStatus(line).value));
      ObserveKnown(mid, at, ParseStatus(line).value, key);
      ObserveNotices(mid, at, ParseStatus(line).value, key);
    } else {
      assert moves + [] == moves;
    }
  }

  /** What a poll reports of a known startup pane: the status of the last line of its capture
      that is not blank, by its words or its prompt, if that differs from the one before; and
      nothing else. */
  lemma {:induction false} PollExact(w: Watch, panes: seq<OpencodePane>, captures: seq<string>, i: nat, line: string)
    requires |captures| == |panes| && DistinctSessions(w.known) && OnlyPane(panes, i)
    requires PaneKey(panes[i].tmuxSession, panes[i].paneId) in w.known && LastShown(Lines(captures[i]), line)
    ensures var next, key := ApplyAll(w, PollMoves(panes, captures)), PaneKey(panes[i].tmuxSession, panes[i].paneId);
            var it := w.known[key];
            var status := StatusShown(line, it.status);
            && DistinctSessions(next.known) && key in next.known && next.known[key] == PaneState(it.id, status)
            && Notices(next.sent, it.id) ==
                 if status != it.status then Notices(w.sent, it.id) + [Status(status)] else Notices(w.sent, it.id)
    decreases |panes|
  {
    var last, key := |panes| - 1, PaneKey(panes[i].tmuxSession, panes[i].paneId);
    if i == last {
      LastShownUnique(Lines(captures[i]), line);
      assert key !in StartKeys(panes[..last]);
      PollOthers(w, panes[..last], captures[..last], key);
    } else {
      PollExact(w, panes[..last], captures[..last], i, line);
    }
    PollOneMore(w, panes, captures, key);
  }

  /** Some capture makes the next poll report a status of the pane. */
  ghost predicate CanReport(w: Watch, panes: seq<OpencodePane>, key: string)
    requires key in w.known
  {
    exists captures: seq<string> :: |captures| == |panes| && PollReports(w, panes, captures, key)
  }

  predicate PollReports(w: Watch, panes: seq<OpencodePane>, captures: seq<string>, key: string)
    requires |captures| == |panes| && key in w.known
  {
    var next := ApplyAll(w, PollMoves(panes, captures)).known;
    key !in next || next[key] != w.known[key]
  }

  /** A known pane can still report a status if and only if it is one of the startup panes;
      one found later never does, whatever it shows. */
  lemma ReportsIffStartup(w: Watch, panes: seq<OpencodePane>, key: string)
    requires key in w.known
    ensures CanReport(w, panes, key) <==> key in StartKeys(panes)
  {
    RunningText();
    ErrorText();
    if key in StartKeys(panes) {
      var text := if w.known[key].status == PaneWorking then "error" else "running";
      var status := if w.known[key].status == PaneWorking then PaneErrored else PaneWorking;
      UniformPoll(w, panes, text, status, key);
      assert PollReports(w, panes, Uniform(panes, text), key);
    } else {
      forall captures: seq<string> | |captures| == |panes| ensures !PollReports(w, panes, captures, key) {
        PollLeavesOthers(w, panes, captures, key);
      }
    }
  }

  class WatchLoop {
    const panes: seq<OpencodePane>
    var known: map<string, PaneState>
    ghost var sent: seq<Sent>

    ghost function View(): Watch
      reads this
    {
      Watch(known, sent)
    }

    /** Discovers every startup pane. */
    constructor (panes: seq<OpencodePane>, answers: seq<Option<Id>>)
      requires |answers| == |panes|
      ensures this.panes == panes
      ensures View() == ApplyAll(Watch(map[], []), StartMoves(panes, answers))
    {
      this.panes := panes;
      known := map[];
      sent := [];
      new;
      ghost var moves := StartMoves(panes, answers);
      for i := 0 to |panes|
        invariant View() == ApplyAll(Watch(map[], []), moves[..i])
      {
        assert moves[..i + 1][..i] == moves[..i];
        DiscoverPane(PaneKey(panes[i].tmuxSession, panes[i].paneId), answers[i]);
      }
      assert moves[..|panes|] == moves;
    }

    method DiscoverPane(key: string, answer: Option<Id>)
      modifies this
      ensures View() == Apply(old(View()), Learn(key, answer))
    {
      sent := sent + [Asked(key, answer)];
      if answer.Some? {
        known := known[key := PaneState(answer.value, PaneStarting)];
      }
    }

    /** Reports a status of a known pane if it is not the last one reported. */
    method ReportStatus(key: string, status: PaneStatus)
      modifies this
      ensures View() == Apply(old(View()), Observe(key, status))
    {
      if key in known && status != known[key].status {
        sent := sent + [Reported(known[key].id, Status(status))];
        known := known[key := known[key].(status := status)];
      }
    }

    /** The poll tick. */
    method Poll(captures: seq<string>)
      requires |captures| == |panes|
      modifies this
      ensures View() == ApplyAll(old(View()), PollMoves(panes, captures))
    {
      for i := 0 to |panes|
        invariant View() == ApplyAll(old(View()), PollMoves(panes[..i], captures[..i]))
      {
        assert panes[..i + 1][..i] == panes[..i] && captures[..i + 1][..i] == captures[..i];
        ghost var done := PollMoves(panes[..i], captures[..i]);
        var key := PaneKey(panes[i].tmuxSession, panes[i].paneId);
        var status := ParseStatus(LastLine(Lines(captures[i])));
        if status.Some? {
          assert (done + [Observe(key, status.value)])[..|done|] == done;
          ReportStatus(key, status.value);
        } else {
          assert done + [] == done;
        }
      }
      assert panes[..|panes|] == panes && captures[..|panes|] == captures;
    }

    /** `emit_finished_for_vanished`. */
    method EmitFinished(vanished: seq<string>)
      modifies this
      ensures View() == ApplyAll(old(View()), FinishMoves(vanished))
    {
      for i := 0 to |vanished|
        invariant View() == ApplyAll(old(View()), FinishMoves(vanished[..i]))
      {
        assert FinishMoves(vanished[..i + 1])[..i] == FinishMoves(vanished[..i]);
        var key := vanished[i];
        if key in known {
          sent := sent + [Reported(known[key].id, Ended)];
          known := known - {key};
        }
      }
      assert vanished[..|vanished|] == vanished;
    }

    /** `discover_new_raw_panes`; `answers[i]` is read only if line `i` is asked about. */
    method DiscoverNew(all: seq<RawPane>, added: seq<string>, answers: seq<Option<Id>>)
      requires |answers| == |all|
      modifies this
      ensures View() == ApplyAll(old(View()), LearnMoves(all, added, answers))
    {
      for i := 0 to |all|
        invariant View() == ApplyAll(old(View()), LearnMoves(all[..i], added, answers[..i]))
      {
        assert all[..i + 1][..i] == all[..i] && answers[..i + 1][..i] == answers[..i];
        ghost var done := LearnMoves(all[..i], added, answers[..i]);
        var key := KeyOf(all[i]);
        if key in added {
          assert (done + [Learn(key, answers[i])])[..|done|] == done;
          DiscoverPane(key, answers[i]);
        } else {
          assert done + [] == done;
        }
      }
      assert all[..|all|] == all && answers[..|all|] == answers;
    }

    /** The pane-check tick; `scan` is `None` if tmux failed, and nothing happens then. */
    method PaneCheck(scan: Option<seq<RawPane>>, answers: seq<Option<Id>>)
      returns (vanished: seq<string>, added: seq<string>)
      requires scan.Some? ==> |answers| == |scan.value|
      modifies this
      ensures scan.None? ==> View() == old(View())
      ensures scan.Some? ==> Diff(old(known), scan.value, vanished, added)
      ensures scan.Some? ==>
                View() == ApplyAll(old(View()), FinishMoves(vanished) + LearnMoves(scan.value, added, answers))
    {
      vanished, added := [], [];
      if scan.None? { return; }
      var current := CurrentOf(scan.value);
      vanished, added := DiffPaneStates(known, current, scan.value);
      EmitFinished(vanished);
      DiscoverNew(scan.value, added, answers);
      ApplyAllAppend(old(View()), FinishMoves(vanished), LearnMoves(scan.value, added, answers));
    }

    /** A stretch of the loop, one tick per timer that fired; of a check tick only the scan and
        the answers are given, and the diff is computed here. */
    method Run(inputs: seq<LoopTick>) returns (ghost ticks: seq<LoopTick>)
      requires AllWellFormed(panes, inputs)
      modifies this
      ensures |ticks| == |inputs| && Ran(old(View()), View(), panes, inputs, ticks)
    {
      ticks := [];
      ghost var start := View();
      for i := 0 to |inputs|
        invariant |ticks| == i && Ran(start, View(), panes, inputs, ticks)
      {
        ghost var was := View();
        assert WellFormed(panes, inputs[i]);
        ghost var t := OneTick(inputs[i]);
        RanOneMore(start, was, panes, inputs, ticks, t);
        ticks := ticks + [t];
      }
    }

    method OneTick(input: LoopTick) returns (ghost t: LoopTick)
      requires WellFormed(panes, input)
      modifies this
      ensures WellFormed(panes, t) && SameInput(t, input)
      ensures t.CheckTick? && t.scan.Some? ==> Diff(old(known), t.scan.value, t.vanished, t.added)
      ensures View() == ApplyAll(old(View()), TickMoves(panes, t))
    {
      t := input;
      match input
      case PollTick(captures) => Poll(captures);
      case CheckTick(scan, _, _, answers) =>
        var vanished, added := PaneCheck(scan, answers);
        t := CheckTick(scan, vanished, added, answers);
      case HeartbeatTick =>
    }
  }

  method CurrentOf(panes: seq<RawPane>) returns (current: map<string, string>)
    ensures current == Current(panes)
  {
    current := map[];
    for i := 0 to |panes|
      invariant current == Current(panes[..i])
    {
      assert panes[..i + 1][..i] == panes[..i];
      current := current[KeyOf(panes[i]) := panes[i].command];
    }
    assert panes[..|panes|] == panes;
  }

  /** The keys of `m` in some order. */
  method KeysOf<V>(m: map<string, V>) returns (keys: seq<string>)
    ensures forall k :: k in keys <==> k in m
    ensures forall i, j | 0 <= i < j < |keys| :: keys[i] != keys[j]
  {
    keys := [];
    var rest := m.Keys;
    while rest != {}
      invariant forall k :: k in m <==> k in keys || k in rest
      invariant forall k | k in keys :: k !in rest
      invariant forall i, j | 0 <= i < j < |keys| :: keys[i] != keys[j]
      decreases |rest|
    {
      var k :| k in rest;
      keys, rest := keys + [k], rest - {k};
    }
  }

  /** `filter(...).collect()`. */
  method Select(keys: seq<string>, keep: set<string>) returns (picked: seq<string>)
    requires forall i, j | 0 <= i < j < |keys| :: keys[i] != keys[j]
    ensures forall k :: k in picked <==> k in keys && k in keep
    ensures forall i, j | 0 <= i < j < |picked| :: picked[i] != picked[j]
  {
    picked := [];
    for i := 0 to |keys|
      invariant forall k :: k in picked <==> k in keys[..i] && k in keep
      invariant forall a, b | 0 <= a < b < |picked| :: picked[a] != picked[b]
    {
      assert keys[..i + 1] == keys[..i] + [keys[i]];
      if keys[i] in keep { picked := picked + [keys[i]]; }
    }
    assert keys[..|keys|] == keys;
  }

  /** `diff_pane_states`. */
  method DiffPaneStates(known: map<string, PaneState>, current: map<string, string>, ghost panes: seq<RawPane>)
    returns (vanished: seq<string>, added: seq<string>)
    requires current == Current(panes)
    ensures Diff(known, panes, vanished, added)
  {
    var running := set k | k in current && IsOpencode(current[k]);
    assert running == Running(panes);
    var candidates := KeysOf(known);
    vanished := Select(candidates, known.Keys - running);
    var scanned := KeysOf(current);
    added := Select(scanned, running - known.Keys);
  }
}
