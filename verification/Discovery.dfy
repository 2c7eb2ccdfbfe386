/** The parser of `tmux list-panes -a -F ...`, against the format string that produces its
    input. */
module Discovery {
  import opened Protocol
  import opened Text

  datatype RawPane = RawPane(session: string, paneId: string, pid: U32, workingDir: string, command: string)

  /** One line; a missing field or a pid that is no u32 drops it. The last field keeps its
      spaces. */
  function ParseLine(line: string): Option<RawPane> {
    var f := SplitN(line, 5);
    if |f| < 5 || ParseU32(f[2]).None? then None
    else Some(RawPane(f[0], f[1], ParseU32(f[2]).value, f[3], f[4]))
  }

  function ParseLines(lines: seq<string>): seq<RawPane> {
    if lines == [] then []
    else
      var p := ParseLine(lines[0]);
      (if p.Some? then [p.value] else []) + ParseLines(lines[1..])
  }

  function ParsePanes(output: string): seq<RawPane> {
    ParseLines(Lines(output))
  }

  /** The format `#{session_name} #{pane_id} #{pane_pid} #{pane_current_path} #{pane_current_command}`. */
  function PrintPane(p: RawPane): string {
    Spaced(p.session, Spaced(p.paneId, Spaced(Decimal(p.pid), Spaced(p.workingDir, p.command))))
  }

  function Print(panes: seq<RawPane>): string {
    if panes == [] then "" else PrintPane(panes[0]) + "\n" + Print(panes[1..])
  }

  predicate Word(s: string) {
    ' ' !in s && '\n' !in s
  }

  /** The fields that tmux can print without blurring the format. */
  predicate Delimited(p: RawPane) {
    Word(p.session) && Word(p.paneId) && Word(p.workingDir) && '\n' !in p.command
  }

  predicate EndsInCr(s: string) {
    s != "" && s[|s| - 1] == '\r'
  }

  predicate Faithful(p: RawPane) {
    Delimited(p) && !EndsInCr(p.command)
  }

  function Stripped(panes: seq<RawPane>): seq<RawPane> {
    if panes == [] then []
    else [panes[0].(command := StripCr(panes[0].command))] + Stripped(panes[1..])
  }

  lemma SplitFive(a: string, b: string, c: string, d: string, e: string)
    requires ' ' !in a && ' ' !in b && ' ' !in c && ' ' !in d
    ensures SplitN(Spaced(a, Spaced(b, Spaced(c, Spaced(d, e)))), 5) == [a] + ([b] + ([c] + ([d] + [e])))
  {
    SplitNCons(d, e, 2);
    SplitNCons(c, Spaced(d, e), 3);
    SplitNCons(b, Spaced(c, Spaced(d, e)), 4);
    SplitNCons(a, Spaced(b, Spaced(c, Spaced(d, e))), 5);
  }

  lemma ParsePrinted(p: RawPane)
    requires Word(p.session) && Word(p.paneId) && Word(p.workingDir)
    ensures ParseLine(PrintPane(p)) == Some(p)
  {
    DecimalRoundTrip(p.pid);
    SplitFive(p.session, p.paneId, Decimal(p.pid), p.workingDir, p.command);
  }

  /** `line` consists of the five fields of `p`, one blank apart and in this order, the third
      of them a number in the text `pid`. */
  predicate Fields(line: string, p: RawPane, pid: string) {
    && ' ' !in p.session && ' ' !in p.paneId && ' ' !in pid && ' ' !in p.workingDir
    && ParseU32(pid) == Some(p.pid)
    && line == p.session + " " + (p.paneId + " " + (pid + " " + (p.workingDir + " " + p.command)))
  }

  /** Which lines parse, and to what: those of five fields whose third is a u32. */
  lemma ParseLineExact(line: string, p: RawPane)
    ensures ParseLine(line) == Some(p) <==> exists pid :: Fields(line, p, pid)
  {
    if ParseLine(line) == Some(p) {
      ParsedFields(line, p);
    }
    if pid :| Fields(line, p, pid) {
      SplitFive(p.session, p.paneId, pid, p.workingDir, p.command);
    }
  }

  lemma ParsedFields(line: string, p: RawPane)
    requires ParseLine(line) == Some(p)
    ensures Fields(line, p, SplitN(line, 5)[2])
  {
    var f := SplitN(line, 5);
    SplitNParts(line, 5);
    SplitNJoins(line, 5);
    JoinFive(f);
  }

  lemma JoinFive(f: seq<string>)
    requires |f| == 5
    ensures JoinSpaced(f) == f[0] + " " + (f[1] + " " + (f[2] + " " + (f[3] + " " + f[4])))
  {
    var a, b, c, d := f[1..], f[2..], f[3..], f[4..];
    assert a[1..] == b && b[1..] == c && c[1..] == d;
    assert JoinSpaced(d) == f[4];
    assert JoinSpaced(c) == f[3] + " " + f[4];
    assert JoinSpaced(b) == f[2] + " " + (f[3] + " " + f[4]);
    assert JoinSpaced(a) == f[1] + " " + (f[2] + " " + (f[3] + " " + f[4]));
  }

  lemma PrintedLine(p: RawPane)
    requires Delimited(p)
    ensures '\n' !in PrintPane(p)
    ensures StripCr(PrintPane(p)) == PrintPane(p.(command := StripCr(p.command)))
  {
    var head := p.session + " " + (p.paneId + " " + (Decimal(p.pid) + " " + (p.workingDir + " ")));
    assert PrintPane(p) == head + p.command;
    assert head[|head| - 1] == ' ';
    if p.command != "" {
      assert (head + p.command)[..|head + p.command| - 1] == head + p.command[..|p.command| - 1];
    }
    var q := p.(command := StripCr(p.command));
    assert PrintPane(q) == head + q.command;
  }

  /** Printing and parsing loses at most one trailing carriage return per command. */
  lemma {:induction false} ParseOfPrint(panes: seq<RawPane>)
    requires forall p | p in panes :: Delimited(p)
    ensures ParsePanes(Print(panes)) == Stripped(panes)
  {
    if panes != [] {
      var p := panes[0];
      PrintedLine(p);
      LinesCons(PrintPane(p), Print(panes[1..]));
      ParsePrinted(p.(command := StripCr(p.command)));
      ParseOfPrint(panes[1..]);
      var lines := [StripCr(PrintPane(p))] + Lines(Print(panes[1..]));
      assert lines[1..] == Lines(Print(panes[1..]));
    }
  }

  lemma {:induction false} LinesHoldNoNewline(s: string)
    ensures forall line | line in Lines(s) :: '\n' !in line
    decreases |s|
  {
    if s != "" {
      var i := Find(s, '\n');
      if i == |s| {
        FindNone(s, '\n');
      } else {
        LinesHoldNoNewline(s[i + 1..]);
      }
    }
  }

  lemma {:induction false} ParsedIsDelimited(lines: seq<string>)
    requires forall line | line in lines :: '\n' !in line
    ensures forall p | p in ParseLines(lines) :: Delimited(p)
  {
    if lines != [] {
      ParsedIsDelimited(lines[1..]);
      SplitNParts(lines[0], 5);
      assert lines[0] in lines;
      assert forall p | p in ParseLines(lines) :: p in ParseLines(lines[1..]) || ParseLine(lines[0]) == Some(p);
    }
  }

  lemma {:induction false} StrippedIsSame(panes: seq<RawPane>)
    ensures Stripped(panes) == panes <==> forall p | p in panes :: !EndsInCr(p.command)
  {
    if panes != [] {
      StrippedIsSame(panes[1..]);
      var p := panes[0];
      assert panes == [p] + panes[1..];
      assert Stripped(panes)[0] == p.(command := StripCr(p.command));
      assert Stripped(panes)[1..] == Stripped(panes[1..]);
    }
  }

  /** The round trip: printing any list of panes and parsing the output returns the same list
      if and only if no session, pane id or path holds a space or a newline and no command
      holds a newline or ends in a carriage return. */
  lemma ListPanesRoundTrip(panes: seq<RawPane>)
    ensures ParsePanes(Print(panes)) == panes <==> forall p | p in panes :: Faithful(p)
  {
    StrippedIsSame(panes);
    if ParsePanes(Print(panes)) == panes {
      LinesHoldNoNewline(Print(panes));
      ParsedIsDelimited(Lines(Print(panes)));
    }
    if forall p | p in panes :: Delimited(p) {
      ParseOfPrint(panes);
    }
  }

  // ------------------------------------------------------------------------ pane keys

  function PaneKey(session: string, paneId: string): string {
    session + ":" + paneId
  }

  /** Two panes share a key exactly when they are equal, or when one pane id continues the
      other's with a colon and a stretch of session name. */
  lemma KeyCollisions(s1: string, p1: string, s2: string, p2: string)
    requires |p1| <= |p2|
    ensures PaneKey(s1, p1) == PaneKey(s2, p2) <==>
              (s1 == s2 && p1 == p2) || exists t :: p2 == t + ":" + p1 && s1 == s2 + ":" + t
  {
    var k1, k2 := PaneKey(s1, p1), PaneKey(s2, p2);
    if k1 == k2 {
      assert k1[|k1| - |p1|..] == p1 && k2[|k2| - |p2|..] == p2;
      if |p1| == |p2| {
        assert k1[..|s1|] == s1 && k2[..|s2|] == s2;
      } else {
        var gap := |p2| - |p1| - 1;
        var t := p2[..gap];
        assert k1[|s1|] == ':' && k2[|s2| + 1 + gap] == p2[gap];
        assert p2 == t + ":" + p1;
        assert k1[..|s1|] == s1;
        assert s1 == s2 + ":" + t;
      }
    }
    if t: string :| p2 == t + ":" + p1 && s1 == s2 + ":" + t {
      assert s1 + ":" + p1 == s2 + ":" + (t + ":" + p1);
    }
  }

  /** So keys are injective as long as pane ids hold no colon, which tmux's `%N` never does. */
  lemma KeysInjective(s1: string, p1: string, s2: string, p2: string)
    requires ':' !in p1 && ':' !in p2
    ensures PaneKey(s1, p1) == PaneKey(s2, p2) <==> s1 == s2 && p1 == p2
  {
    if |p1| <= |p2| {
      KeyCollisions(s1, p1, s2, p2);
    } else {
      KeyCollisions(s2, p2, s1, p1);
    }
    assert forall t: string, p: string :: ':' in t + ":" + p by {
      forall t: string, p: string ensures ':' in t + ":" + p {
        assert (t + ":" + p)[|t|] == ':';
      }
    }
  }
}
