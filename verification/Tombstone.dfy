/** The boot-time collection of old finished sessions. The two sides of its comparison are
    texts in different formats; SQLite compares them byte by byte. */
module Tombstone {
  import opened Protocol
  import opened Sequences
  import opened Daemon
  import opened Integrity
  import opened Convergence
  import opened Calendar
  import opened Handlers

  // ---------------------------------------------------------------------------- text

  predicate TextLess(a: string, b: string) {
    b != "" && (a == "" || a[0] < b[0] || (a[0] == b[0] && TextLess(a[1..], b[1..])))
  }

  function Digit(n: int): char {
    ['0', '1', '2', '3', '4', '5', '6', '7', '8', '9'][n % 10]
  }

  /** The low `width` decimal digits of `n`. */
  function Pad(n: int, width: nat): (s: string)
    ensures |s| == width
    decreases width, n
  {
    if width == 0 then "" else Pad(n / 10, width - 1) + [Digit(n)]
  }

  function Dashed(head: string, tail: string): string {
    head + ("-" + tail)
  }

  function DateText(d: Date): (s: string)
    ensures |s| == 10
  {
    Dashed(Pad(d.year, 4), Dashed(Pad(d.month, 2), Pad(d.day, 2)))
  }

  function ClockText(t: Time): string {
    var secs := (t % DAY) / SECOND;
    Pad(secs / 3600, 2) + ":" + Pad(secs / 60 % 60, 2) + ":" + Pad(secs % 60, 2)
  }

  /** chrono prints as many groups of three digits as the fraction needs. */
  function FractionText(t: Time): string {
    var nanos := t % SECOND;
    if nanos == 0 then ""
    else if nanos % 1_000_000 == 0 then "." + Pad(nanos / 1_000_000, 3)
    else if nanos % 1_000 == 0 then "." + Pad(nanos / 1_000, 6)
    else "." + Pad(nanos, 9)
  }

  function StampTail(t: Time): string {
    "T" + (ClockText(t) + FractionText(t) + "+00:00")
  }

  /** `to_rfc3339` of a UTC time with a four-digit year. */
  function Rfc3339(t: Time): string
    requires Printable(t)
  {
    DateText(DateOf(DayOf(t))) + StampTail(t)
  }

  /** SQLite's `datetime(...)`. */
  function SqliteText(t: Time): string
    requires Printable(t)
  {
    DateText(DateOf(DayOf(t))) + (" " + ClockText(t))
  }

  /** Years 0 to 9999. */
  predicate Printable(t: Time) {
    FIRST_DAY <= DayOf(t) < LAST_DAY
  }

  /** Equally long prefixes decide the comparison unless they are equal. */
  lemma {:induction false} PrefixDecides(x: string, y: string, r: string, s: string)
    requires |x| == |y|
    ensures TextLess(x + r, y + s) <==> if x == y then TextLess(r, s) else TextLess(x, y)
  {
    if x == "" {
      assert x + r == r && y + s == s;
    } else {
      assert (x + r)[1..] == x[1..] + r && (y + s)[1..] == y[1..] + s;
      PrefixDecides(x[1..], y[1..], r, s);
      assert x == y <==> x[0] == y[0] && x[1..] == y[1..];
    }
  }

  function Power10(n: nat): nat {
    if n == 0 then 1 else 10 * Power10(n - 1)
  }

  /** Zero-padded numbers of one width are in text order exactly when in numeric order. */
  lemma {:induction false} PadOrder(a: nat, b: nat, width: nat)
    requires a < Power10(width) && b < Power10(width)
    ensures TextLess(Pad(a, width), Pad(b, width)) <==> a < b
    ensures Pad(a, width) == Pad(b, width) <==> a == b
  {
    if width > 0 {
      PadOrder(a / 10, b / 10, width - 1);
      var x, y := Pad(a / 10, width - 1), Pad(b / 10, width - 1);
      PrefixDecides(x, y, [Digit(a)], [Digit(b)]);
      assert TextLess([Digit(a)], [Digit(b)]) <==> a % 10 < b % 10;
      assert Pad(a, width) == Pad(b, width) <==> x == y && Digit(a) == Digit(b) by {
        assert Pad(a, width)[..width - 1] == x && Pad(b, width)[..width - 1] == y;
        assert Pad(a, width)[width - 1] == Digit(a) && Pad(b, width)[width - 1] == Digit(b);
      }
    }
  }

  lemma DashedOrder(x: string, y: string, r: string, s: string)
    requires |x| == |y|
    ensures TextLess(Dashed(x, r), Dashed(y, s)) <==> if x == y then TextLess(r, s) else TextLess(x, y)
    ensures Dashed(x, r) == Dashed(y, s) <==> x == y && r == s
  {
    PrefixDecides(x, y, "-" + r, "-" + s);
    PrefixDecides("-", "-", r, s);
    if Dashed(x, r) == Dashed(y, s) {
      assert Dashed(x, r)[..|x|] == x && Dashed(y, s)[..|y|] == y;
      assert Dashed(x, r)[|x| + 1..] == r && Dashed(y, s)[|y| + 1..] == s;
    }
  }

  lemma DateTextOrder(a: Date, b: Date)
    requires 0 <= a.year < 10_000 && 0 <= b.year < 10_000
    requires 1 <= a.month <= 12 && 1 <= b.month <= 12 && 1 <= a.day <= 31 && 1 <= b.day <= 31
    ensures TextLess(DateText(a), DateText(b)) <==> Earlier(a, b)
    ensures DateText(a) == DateText(b) <==> a == b
  {
    assert Power10(2) == 100 && Power10(4) == 10_000 by {
      assert Power10(1) == 10 && Power10(3) == 1000;
    }
    PadOrder(a.year, b.year, 4);
    PadOrder(a.month, b.month, 2);
    PadOrder(a.day, b.day, 2);
    var ma, mb := Dashed(Pad(a.month, 2), Pad(a.day, 2)), Dashed(Pad(b.month, 2), Pad(b.day, 2));
    DashedOrder(Pad(a.month, 2), Pad(b.month, 2), Pad(a.day, 2), Pad(b.day, 2));
    DashedOrder(Pad(a.year, 4), Pad(b.year, 4), ma, mb);
  }

  lemma YearInRange(t: Time)
    requires Printable(t)
    ensures 0 <= DateOf(DayOf(t)).year < 10_000
  {
    var y := DateOf(DayOf(t)).year;
    if y < 0 {
      if y + 1 < 0 { YearStartMonotone(y + 1, 0); }
      assert false;
    }
    if y >= 10_000 {
      if y > 10_000 { YearStartMonotone(10_000, y); }
      assert false;
    }
  }

  /** The `T` sorts after the blank, so only the dates count. */
  lemma SeparatorDecides(x: string, y: string, r: string, s: string)
    requires |x| == |y| && r != "" && r[0] == 'T' && s != "" && s[0] == ' '
    ensures TextLess(x + r, y + s) <==> TextLess(x, y)
  {
    PrefixDecides(x, y, r, s);
    if x == y {
      PrefixDecides(x, y, "", "");
      assert x + "" == x;
    }
  }

  /** A finish stamp is textually below a cutoff exactly when its date is strictly earlier:
      on the cutoff's own date the clocks do not matter. */
  lemma TextOrderIsDateOrder(t: Time, cutoff: Time)
    requires Printable(t) && Printable(cutoff)
    ensures TextLess(Rfc3339(t), SqliteText(cutoff)) <==> DayOf(t) < DayOf(cutoff)
  {
    var a, b := DateOf(DayOf(t)), DateOf(DayOf(cutoff));
    SeparatorDecides(DateText(a), DateText(b), StampTail(t), " " + ClockText(cutoff));
    YearInRange(t);
    YearInRange(cutoff);
    DateTextOrder(a, b);
    DateOrder(DayOf(t), DayOf(cutoff));
  }

  // ------------------------------------------------------------------------ collection

  function Cutoff(now: Time): Time {
    now - 30 * DAY
  }

  /** The `WHERE` clause; a missing finish time is NULL and never less than anything. */
  predicate Expired(row: Session, now: Time)
    requires Printable(Cutoff(now))
    requires row.finishedAt.Some? ==> Printable(row.finishedAt.value)
  {
    row.status == Finished && row.finishedAt.Some? &&
    TextLess(Rfc3339(row.finishedAt.value), SqliteText(Cutoff(now)))
  }

  predicate AllPrintable(rows: map<Id, Session>) {
    forall id | id in rows && rows[id].finishedAt.Some? :: Printable(rows[id].finishedAt.value)
  }

  function ExpiredIds(rows: map<Id, Session>, now: Time): set<Id>
    requires Printable(Cutoff(now)) && AllPrintable(rows)
  {
    set id | id in rows && Expired(rows[id], now)
  }

  function Survivors(rows: map<Id, Session>, now: Time): map<Id, Session>
    requires Printable(Cutoff(now)) && AllPrintable(rows)
  {
    rows - ExpiredIds(rows, now)
  }

  function About(ids: set<Id>): EventRow -> bool {
    (e: EventRow) => e.session in ids
  }

  /** The events of the given sessions, in order. */
  function EventsOf(events: seq<EventRow>, ids: set<Id>): seq<EventRow> {
    Filter(events, About(ids))
  }

  lemma {:induction false} EventsOfTwice(events: seq<EventRow>, a: set<Id>, b: set<Id>)
    requires b <= a
    ensures EventsOf(EventsOf(events, a), b) == EventsOf(events, b)
    decreases |events|
  {
    if events != [] {
      var before, last := events[..|events| - 1], events[|events| - 1];
      EventsOfTwice(before, a, b);
      if last.session in a {
        assert (EventsOf(before, a) + [last])[..|EventsOf(before, a)|] == EventsOf(before, a);
      } else {
        assert EventsOf(before, a) + [] == EventsOf(before, a);
      }
    }
  }

  method DeleteEvents(db: Db, keep: set<Id>)
    modifies db`events
    ensures db.events == EventsOf(old(db.events), keep)
  {
    db.events := Retain(db.events, About(keep));
  }

  /** `tombstone_gc`: orphaned events go first, then the expired rows, and with each row its
      events by the cascading foreign key. */
  method TombstoneGc(db: Db, now: Time) returns (n: nat)
    requires Printable(Cutoff(now)) && AllPrintable(db.sessions)
    modifies db`sessions, db`events
    ensures db.sessions == Survivors(old(db.sessions), now)
    ensures db.events == EventsOf(old(db.events), db.sessions.Keys)
    ensures n == |old(db.sessions)| - |db.sessions|
  {
    DeleteEvents(db, db.sessions.Keys);
    n := |ExpiredIds(db.sessions, now)|;
    SubtractCount(db.sessions, ExpiredIds(db.sessions, now));
    db.sessions := Survivors(db.sessions, now);
    DeleteEvents(db, db.sessions.Keys);
    EventsOfTwice(old(db.events), old(db.sessions).Keys, db.sessions.Keys);
  }

  lemma SubtractCount(rows: map<Id, Session>, ids: set<Id>)
    requires ids <= rows.Keys
    ensures |ids| == |rows| - |rows - ids|
  {
    assert (rows - ids).Keys == rows.Keys - ids;
  }

  function Collect(s: State, now: Time): State
    requires Printable(Cutoff(now)) && AllPrintable(s.rows)
  {
    var rows := Survivors(s.rows, now);
    s.(rows := rows, events := EventsOf(s.events, rows.Keys))
  }

  /** The row is marked finished and its finish date lies more than 30 dates back. */
  predicate Old(row: Session, now: Time) {
    row.status == Finished && row.finishedAt.Some? && DayOf(row.finishedAt.value) < DayOf(now) - 30
  }

  /** Expiry is by date: a row goes exactly if it is old in this sense; so nothing finished
      under 30 days ago goes, and everything finished 31 days ago goes. */
  lemma ExpiredIsOld(row: Session, now: Time)
    requires Printable(Cutoff(now)) && (row.finishedAt.Some? ==> Printable(row.finishedAt.value))
    ensures Expired(row, now) <==> Old(row, now)
    ensures Expired(row, now) ==> now - row.finishedAt.value > 30 * DAY
    ensures row.status == Finished && row.finishedAt.Some? && now - row.finishedAt.value >= 31 * DAY ==>
              Expired(row, now)
  {
    CutoffDay(now);
    if row.finishedAt.Some? {
      TextOrderIsDateOrder(row.finishedAt.value, Cutoff(now));
      DayGap(row.finishedAt.value, now);
    }
  }

  /** What a boot collects: exactly the old rows, with their events and no others'; every
      other row stays as it is, and the tables stay valid. */
  lemma CollectsByDate(s: State, now: Time)
    requires Valid(s) && Printable(Cutoff(now)) && AllPrintable(s.rows)
    ensures var t := Collect(s, now);
            && (forall id :: id in t.rows <==> id in s.rows && !Old(s.rows[id], now))
            && (forall id | id in t.rows :: t.rows[id] == s.rows[id])
            && (forall e :: e in t.events <==> e in s.events && e.session in t.rows)
            && Valid(t)
  {
    var t := Collect(s, now);
    forall id | id in s.rows ensures Expired(s.rows[id], now) <==> Old(s.rows[id], now) {
      ExpiredIsOld(s.rows[id], now);
    }
    FilterMembers(s.events, About(t.rows.Keys));
    CollectValid(s, t);
  }

  /** What frees a pane: of all that the pane's row can go through, only its collection. A
      discover call for the pane is accepted after a boot's collection if and only if the row
      that held it was old. */
  lemma CollectFreesPane(s: State, id: Id, boot: Time, plugin: string, dir: Dir, newId: Id, now: Time)
    requires Valid(s) && Printable(Cutoff(boot)) && AllPrintable(s.rows)
    requires id in s.rows && Bound(s.rows[id]) && newId !in s.rows && AgentOf(plugin).Some?
    ensures var call := FromPlugin(plugin, Discover(s.rows[id].tmuxSession, s.rows[id].tmuxPaneId, Some(dir), newId));
            Respond(Collect(s, boot), call, now).reply.Ok? <==> Old(s.rows[id], boot)
  {
    var t := Collect(s, boot);
    var session, pane := s.rows[id].tmuxSession.value, s.rows[id].tmuxPaneId.value;
    CollectsByDate(s, boot);
    DiscoverAccepted(t, plugin, session, pane, Some(dir), newId, now);
    if id in t.rows {
      assert InPane(t.rows[id], session, pane);
    } else if k :| k in t.rows && InPane(t.rows[k], session, pane) {
      assert SamePane(s.rows[k], s.rows[id]);
    }
  }

  /** A killed session stays for the dates of 30 days after its kill, whatever it did before. */
  lemma KillDatesExpiry(s: State, id: Id, now: Time, boot: Time)
    requires ValidRows(s.rows) && id in s.rows && s.rows[id].status != Finished
    requires Printable(now) && Printable(Cutoff(boot))
    ensures var t := Step(s, Control(Kill(Some(id))), now);
            && id in t.rows && t.rows[id].finishedAt == Some(now)
            && (Expired(t.rows[id], boot) <==> DayOf(now) < DayOf(boot) - 30)
  {
    ExpiredIsOld(Step(s, Control(Kill(Some(id))), now).rows[id], boot);
  }

  lemma CollectValid(s: State, t: State)
    requires Valid(s) && t.nextEventId == s.nextEventId && t.events == EventsOf(s.events, t.rows.Keys)
    requires forall id | id in t.rows :: id in s.rows && t.rows[id] == s.rows[id]
    ensures Valid(t)
  {
    FilterMembers(s.events, About(t.rows.Keys));
    EventsOfRising(s.events, t.rows.Keys);
    forall i | 0 <= i < |t.events| ensures t.events[i].session in t.rows && t.events[i].id < t.nextEventId {
      assert t.events[i] in t.events;
    }
  }

  lemma CutoffDay(now: Time)
    ensures DayOf(Cutoff(now)) == DayOf(now) - 30
  {
  }

  lemma DayGap(t: Time, now: Time)
    ensures DayOf(t) < DayOf(now) - 30 ==> now - t > 30 * DAY
    ensures now - t >= 31 * DAY ==> DayOf(t) < DayOf(now) - 30
  {
  }

  ghost predicate Rising(events: seq<EventRow>) {
    forall i, j | 0 <= i < j < |events| :: events[i].id < events[j].id
  }

  lemma {:induction false} EventsOfRising(events: seq<EventRow>, ids: set<Id>)
    requires Rising(events)
    ensures Rising(EventsOf(events, ids))
    decreases |events|
  {
    if events != [] {
      var before, last := events[..|events| - 1], events[|events| - 1];
      EventsOfRising(before, ids);
      var kept := EventsOf(before, ids);
      forall i | 0 <= i < |kept| ensures kept[i].id < last.id {
        FilterMember(before, About(ids), kept[i]);
        var k :| 0 <= k < |before| && before[k] == kept[i];
        assert events[k].id < events[|events| - 1].id;
      }
    }
  }

  // --------------------------------------------------------- what the stamps do to it

  /** The SDK's stamp of the year `y` is past the cutoff of exactly the boots after January
      of `y`. */
  lemma StampPastCutoff(at: Time, boot: Time)
    requires DayOf(boot) >= FIRST_DAY
    ensures var d := DateOf(DayOf(boot));
            DayOf(SdkStamp(at)) < DayOf(boot) - 30 <==>
              d.year > StampYear(at) || (d.year == StampYear(at) && d.month > 1)
  {
    StampDay(at);
    var y, d := StampYear(at), DateOf(DayOf(boot));
    if d.year > y {
      YearStartMonotone(y, d.year);
    } else if d.year < y && d.year + 1 < y {
      YearStartMonotone(d.year + 1, y);
    }
    if d.year == y && d.month > 1 {
      MonthStartMonotone(Leap(y), 2, d.month);
    }
  }

  lemma StampPrintable(at: Time)
    requires StampYear(at) < 10_000
    ensures Printable(SdkStamp(at))
  {
    StampDay(at);
    YearStartMonotone(0, StampYear(at));
    YearStartMonotone(StampYear(at), 10_000);
  }

  lemma ReportedFinish(s: State, plugin: string, id: Id, ts: Time, now: Time)
    requires id in s.rows && s.rows[id].plugin == Some(plugin)
    ensures var t := Step(s, FromPlugin(plugin, ReportEvent(Some(id), Some(ReportFinished), Some(ts))), now);
            id in t.rows && t.rows[id].status == Finished && t.rows[id].finishedAt == Some(ts)
  {
  }

  /** The SDK stamps every report with the first of January. A session that its watcher
      reports finished when its clock reads `at` is expired at exactly the boots after
      January of that year, no matter how recently the session finished: a session finished
      in December goes with a boot on the next New Year's Day. */
  lemma WatcherFinishesExpireEarly(s: State, plugin: string, id: Id, at: Time, now: Time, boot: Time)
    requires id in s.rows && s.rows[id].plugin == Some(plugin)
    requires StampYear(at) < 10_000 && Printable(Cutoff(boot))
    ensures DayOf(boot) >= FIRST_DAY
    ensures var t := Step(s, FromPlugin(plugin, ReportEvent(Some(id), Some(ReportFinished), Some(SdkStamp(at)))), now);
            var d := DateOf(DayOf(boot));
            && id in t.rows && t.rows[id].finishedAt == Some(SdkStamp(at)) && Printable(SdkStamp(at))
            && (Expired(t.rows[id], boot) <==> d.year > StampYear(at) || (d.year == StampYear(at) && d.month > 1))
  {
    ReportedFinish(s, plugin, id, SdkStamp(at), now);
    StampPrintable(at);
    CutoffDay(boot);
    StampPastCutoff(at, boot);
    var t := Step(s, FromPlugin(plugin, ReportEvent(Some(id), Some(ReportFinished), Some(SdkStamp(at)))), now);
    ExpiredIsOld(t.rows[id], boot);
  }

  /** Which rows are finished for good. In every reachable state a finished row has no finish
      time exactly if the boot left it none and it was neither killed nor reported finished
      since, so only its status was reported; and no boot ever collects such a row. */
  lemma StatusFinishedNeverExpires(start: State, inputs: seq<Input>, id: Id, boot: Time)
    requires Valid(start) && start.log == [] && id in Run(start, inputs).rows
    requires Printable(Cutoff(boot)) && AllPrintable(Run(start, inputs).rows)
    ensures var s := Run(start, inputs);
            && (s.rows[id].finishedAt.None? <==>
                  (id in start.rows ==> start.rows[id].finishedAt.None?) && !Retired(s.log, id))
            && (s.rows[id].finishedAt.None? ==> id in Collect(s, boot).rows)
            && (s.rows[id].status == Finished && s.rows[id].finishedAt.Some? ==>
                  (id in Collect(s, boot).rows <==> DayOf(s.rows[id].finishedAt.value) >= DayOf(boot) - 30))
  {
    var s := Run(start, inputs);
    RunHistory(start, inputs);
    assert FinishExplained(start, s, id);
    ExpiredIsOld(s.rows[id], boot);
  }
}
