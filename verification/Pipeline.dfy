/** From the daemon's bus to a dashboard: the forwarding task reads the broadcast channel,
    which drops its oldest events when the reader falls behind, and feeds the subscriber
    registry. */
module Pipeline {
  import opened Protocol
  import opened Daemon
  import opened Integrity
  import opened Replica
  import opened Convergence
  import opened FanOut

  /** `pos` is how far into the bus log the forwarder has read. */
  datatype Node = Node(daemon: State, pos: nat, hub: Hub)

  datatype Action =
    | Request(input: Input)
    | Forward
    | Client(op: HubOp)

  /** The channel keeps the last `capacity` events. */
  predicate Behind(n: Node, capacity: nat) {
    n.pos + capacity < |n.daemon.log|
  }

  /** What an action does to the registry. A lagging read skips to the oldest event kept and
      delivers nothing; only the forwarder broadcasts. */
  function Effects(n: Node, a: Action, capacity: nat): seq<HubOp> {
    match a
    case Request(_) => []
    case Forward =>
      if n.pos < |n.daemon.log| && !Behind(n, capacity) then [Broadcast(n.daemon.log[n.pos])] else []
    case Client(op) => if op.Broadcast? then [] else [op]
  }

  function Advance(n: Node, a: Action, capacity: nat): Node {
    var hub := HubRun(n.hub, Effects(n, a, capacity));
    match a
    case Request(input) => Node(Step(n.daemon, input.call, input.now), n.pos, hub)
    case Forward =>
      if n.pos >= |n.daemon.log| then n
      else if Behind(n, capacity) then Node(n.daemon, |n.daemon.log| - capacity, hub)
      else Node(n.daemon, n.pos + 1, hub)
    case Client(_) => n.(hub := hub)
  }

  function Play(n: Node, actions: seq<Action>, capacity: nat): Node {
    if actions == [] then n
    else Advance(Play(n, actions[..|actions| - 1], capacity), actions[|actions| - 1], capacity)
  }

  function HubOps(n: Node, actions: seq<Action>, capacity: nat): seq<HubOp> {
    if actions == [] then []
    else
      var last := |actions| - 1;
      HubOps(n, actions[..last], capacity) + Effects(Play(n, actions[..last], capacity), actions[last], capacity)
  }

  function Requests(actions: seq<Action>): seq<Input> {
    if actions == [] then []
    else
      var last := |actions| - 1;
      Requests(actions[..last]) + if actions[last].Request? then [actions[last].input] else []
  }

  /** The forwarder was told at some point that it had lagged. */
  predicate Lagged(n: Node, actions: seq<Action>, capacity: nat) {
    actions != [] &&
    var last := |actions| - 1;
    Lagged(n, actions[..last], capacity) ||
    (actions[last].Forward? && Behind(Play(n, actions[..last], capacity), capacity))
  }

  /** `got` is picked from `log[lo..hi]` in order and without repetition. */
  ghost predicate Subsequence(got: seq<Event>, log: seq<Event>, lo: nat, hi: nat) {
    hi <= |log| &&
    exists at: seq<nat> :: Picks(at, got, log, lo, hi)
  }

  ghost predicate Picks(at: seq<nat>, got: seq<Event>, log: seq<Event>, lo: nat, hi: nat)
    requires hi <= |log|
  {
    && |at| == |got|
    && (forall i | 0 <= i < |at| :: lo <= at[i] < hi && got[i] == log[at[i]])
    && (forall i, j | 0 <= i < j < |at| :: at[i] < at[j])
  }

  lemma {:induction false} HubRunAppend(h: Hub, a: seq<HubOp>, b: seq<HubOp>)
    ensures HubRun(h, a + b) == HubRun(HubRun(h, a), b)
    decreases |b|
  {
    if b == [] {
      assert a + b == a;
    } else {
      assert (a + b)[..|a + b| - 1] == a + b[..|b| - 1];
      HubRunAppend(h, a, b[..|b| - 1]);
    }
  }

  lemma {:induction false} RunIssued(h: Hub, ops: seq<HubOp>)
    requires AllIssued(h)
    ensures AllIssued(HubRun(h, ops))
    decreases |ops|
  {
    if ops != [] {
      RunIssued(h, ops[..|ops| - 1]);
      StepIssued(HubRun(h, ops[..|ops| - 1]), ops[|ops| - 1]);
    }
  }

  lemma {:induction false} PlayProjects(n: Node, actions: seq<Action>, capacity: nat)
    ensures Play(n, actions, capacity).daemon == Run(n.daemon, Requests(actions))
    ensures Play(n, actions, capacity).hub == HubRun(n.hub, HubOps(n, actions, capacity))
    decreases |actions|
  {
    if actions != [] {
      var last := |actions| - 1;
      var before := actions[..last];
      PlayProjects(n, before, capacity);
      HubRunAppend(n.hub, HubOps(n, before, capacity), Effects(Play(n, before, capacity), actions[last], capacity));
      var requests := Requests(before);
      if actions[last].Request? {
        assert (requests + [actions[last].input])[..|requests|] == requests;
      } else {
        assert requests + [] == requests;
      }
    }
  }

  lemma {:induction false} PlayAppend(n: Node, a: seq<Action>, b: seq<Action>, capacity: nat)
    ensures Play(n, a + b, capacity) == Play(Play(n, a, capacity), b, capacity)
    ensures Requests(a + b) == Requests(a) + Requests(b)
    decreases |b|
  {
    if b == [] {
      assert a + b == a;
    } else {
      var last := |b| - 1;
      assert (a + b)[..|a + b| - 1] == a + b[..last];
      PlayAppend(n, a, b[..last], capacity);
    }
  }

  /** A lagging read loses exactly the events that the channel no longer keeps: it delivers
      nothing and leaves the `capacity` newest to be read. */
  lemma LagLosesOldest(n: Node, capacity: nat)
    requires Behind(n, capacity)
    ensures var next := Advance(n, Forward, capacity);
            && next.daemon == n.daemon && next.hub == n.hub
            && |n.daemon.log[next.pos..]| == capacity && n.pos < next.pos && !Behind(next, capacity)
  {
  }

  lemma BroadcastsSnoc(ops: seq<HubOp>, op: HubOp)
    ensures Broadcasts(ops + [op]) == Broadcasts(ops) + if op.Broadcast? then [op.event] else []
  {
    assert (ops + [op])[..|ops|] == ops;
  }

  lemma SubsequenceWidens(got: seq<Event>, log: seq<Event>, lo: nat, hi: nat, log': seq<Event>, hi': nat)
    requires Subsequence(got, log, lo, hi) && log <= log' && hi <= hi' <= |log'|
    ensures Subsequence(got, log', lo, hi')
  {
    var at :| Picks(at, got, log, lo, hi);
    assert Picks(at, got, log', lo, hi');
  }

  lemma SubsequenceTakesNext(got: seq<Event>, log: seq<Event>, lo: nat, hi: nat)
    requires Subsequence(got, log, lo, hi) && lo <= hi < |log|
    ensures Subsequence(got + [log[hi]], log, lo, hi + 1)
  {
    var at :| Picks(at, got, log, lo, hi);
    assert Picks(at + [hi], got + [log[hi]], log, lo, hi + 1);
  }

  /** `sent` was read from `log[lo..hi]`, and is all of it unless the reader lagged. */
  ghost predicate ReadFrom(sent: seq<Event>, log: seq<Event>, lo: nat, hi: nat, lagged: bool) {
    && lo <= hi <= |log|
    && Subsequence(sent, log, lo, hi)
    && (!lagged ==> sent == log[lo..hi])
  }

  lemma ReadNext(sent: seq<Event>, log: seq<Event>, lo: nat, hi: nat, lagged: bool)
    requires ReadFrom(sent, log, lo, hi, lagged) && hi < |log|
    ensures ReadFrom(sent + [log[hi]], log, lo, hi + 1, lagged)
  {
    SubsequenceTakesNext(sent, log, lo, hi);
    assert log[lo..hi + 1] == log[lo..hi] + [log[hi]];
  }

  lemma ReadSkips(sent: seq<Event>, log: seq<Event>, lo: nat, hi: nat, lagged: bool, log': seq<Event>, hi': nat)
    requires ReadFrom(sent, log, lo, hi, lagged) && log <= log' && hi <= hi' <= |log'|
    ensures ReadFrom(sent, log', lo, hi', lagged || hi != hi')
  {
    SubsequenceWidens(sent, log, lo, hi, log', hi');
    assert log'[lo..hi] == log[lo..hi];
  }

  /** Between `n` and `end` the forwarder sent `sent`. */
  ghost predicate ForwardedAt(n: Node, end: Node, sent: seq<Event>, lagged: bool) {
    n.daemon.log <= end.daemon.log && ReadFrom(sent, end.daemon.log, n.pos, end.pos, lagged)
  }

  /** What has been forwarded since `n`. */
  ghost predicate Forwarded(n: Node, actions: seq<Action>, capacity: nat) {
    ForwardedAt(n, Play(n, actions, capacity), Broadcasts(HubOps(n, actions, capacity)), Lagged(n, actions, capacity))
  }

  lemma ForwardsNext(n: Node, mid: Node, end: Node, sent: seq<Event>, lagged: bool)
    requires ForwardedAt(n, mid, sent, lagged) && mid.pos < |mid.daemon.log|
    requires end.daemon == mid.daemon && end.pos == mid.pos + 1
    ensures ForwardedAt(n, end, sent + [mid.daemon.log[mid.pos]], lagged)
  {
    ReadNext(sent, mid.daemon.log, n.pos, mid.pos, lagged);
  }

  lemma ForwardsNothing(n: Node, mid: Node, end: Node, sent: seq<Event>, lagged: bool)
    requires ForwardedAt(n, mid, sent, lagged)
    requires mid.daemon.log <= end.daemon.log && mid.pos <= end.pos <= |end.daemon.log|
    ensures ForwardedAt(n, end, sent, lagged || mid.pos != end.pos)
  {
    ReadSkips(sent, mid.daemon.log, n.pos, mid.pos, lagged, end.daemon.log, end.pos);
  }

  /** One more action, seen from the forwarder. */
  lemma {:induction false} OneMore(n: Node, before: seq<Action>, a: Action, capacity: nat)
    ensures var mid := Play(n, before, capacity);
            && Play(n, before + [a], capacity) == Advance(mid, a, capacity)
            && HubOps(n, before + [a], capacity) == HubOps(n, before, capacity) + Effects(mid, a, capacity)
            && (Lagged(n, before + [a], capacity) <==>
                  Lagged(n, before, capacity) || (a.Forward? && Behind(mid, capacity)))
  {
    assert (before + [a])[..|before|] == before;
  }

  /** Registrations and the like are not forwarded. */
  lemma {:induction false} EffectsBroadcast(n: Node, ops: seq<HubOp>, a: Action, capacity: nat)
    requires a.Forward? ==> n.pos >= |n.daemon.log| || Behind(n, capacity)
    ensures Broadcasts(ops + Effects(n, a, capacity)) == Broadcasts(ops)
  {
    if a.Client? && !a.op.Broadcast? {
      BroadcastsSnoc(ops, a.op);
    } else {
      assert ops + [] == ops;
    }
  }

  lemma {:induction false} QuietFacts(n: Node, before: seq<Action>, a: Action, capacity: nat)
    requires var mid := Play(n, before, capacity);
             && mid.pos <= |mid.daemon.log|
             && (a.Forward? ==> mid.pos >= |mid.daemon.log| || Behind(mid, capacity))
    ensures var mid, end := Play(n, before, capacity), Play(n, before + [a], capacity);
            && mid.daemon.log <= end.daemon.log && mid.pos <= end.pos <= |end.daemon.log|
            && Broadcasts(HubOps(n, before + [a], capacity)) == Broadcasts(HubOps(n, before, capacity))
            && Lagged(n, before + [a], capacity) == (Lagged(n, before, capacity) || mid.pos != end.pos)
  {
    OneMore(n, before, a, capacity);
    EffectsBroadcast(Play(n, before, capacity), HubOps(n, before, capacity), a, capacity);
  }

  /** An action that forwards nothing. */
  lemma {:induction false} QuietStep(n: Node, before: seq<Action>, a: Action, capacity: nat)
    requires Forwarded(n, before, capacity)
    requires var mid := Play(n, before, capacity);
             a.Forward? ==> mid.pos >= |mid.daemon.log| || Behind(mid, capacity)
    ensures Forwarded(n, before + [a], capacity)
  {
    QuietFacts(n, before, a, capacity);
    ForwardsNothing(n, Play(n, before, capacity), Play(n, before + [a], capacity),
                    Broadcasts(HubOps(n, before, capacity)), Lagged(n, before, capacity));
  }

  lemma {:induction false} BusyFacts(n: Node, before: seq<Action>, capacity: nat)
    requires var mid := Play(n, before, capacity);
             mid.pos < |mid.daemon.log| && !Behind(mid, capacity)
    ensures var mid, end := Play(n, before, capacity), Play(n, before + [Forward], capacity);
            && end.daemon == mid.daemon && end.pos == mid.pos + 1
            && Broadcasts(HubOps(n, before + [Forward], capacity)) ==
                 Broadcasts(HubOps(n, before, capacity)) + [mid.daemon.log[mid.pos]]
            && Lagged(n, before + [Forward], capacity) == Lagged(n, before, capacity)
  {
    OneMore(n, before, Forward, capacity);
    var mid := Play(n, before, capacity);
    BroadcastsSnoc(HubOps(n, before, capacity), Broadcast(mid.daemon.log[mid.pos]));
  }

  /** The forwarder passes the next event on. */
  lemma {:induction false} BusyStep(n: Node, before: seq<Action>, capacity: nat)
    requires Forwarded(n, before, capacity)
    requires var mid := Play(n, before, capacity);
             mid.pos < |mid.daemon.log| && !Behind(mid, capacity)
    ensures Forwarded(n, before + [Forward], capacity)
  {
    BusyFacts(n, before, capacity);
    ForwardsNext(n, Play(n, before, capacity), Play(n, before + [Forward], capacity),
                 Broadcasts(HubOps(n, before, capacity)), Lagged(n, before, capacity));
  }

  lemma {:induction false} ForwardedStep(n: Node, before: seq<Action>, a: Action, capacity: nat)
    requires Forwarded(n, before, capacity)
    ensures Forwarded(n, before + [a], capacity)
  {
    var mid := Play(n, before, capacity);
    if a.Forward? && mid.pos < |mid.daemon.log| && !Behind(mid, capacity) {
      BusyStep(n, before, capacity);
    } else {
      QuietStep(n, before, a, capacity);
    }
  }

  lemma NothingForwarded(n: Node, capacity: nat)
    requires n.pos <= |n.daemon.log|
    ensures Forwarded(n, [], capacity)
  {
    assert Picks([], [], n.daemon.log, n.pos, n.pos);
  }

  /** The forwarded stream is an in-order, duplicate-free selection from the bus log, and
      all of it unless the forwarder lagged. */
  lemma {:induction false} ForwardingKeepsOrder(n: Node, actions: seq<Action>, capacity: nat)
    requires n.pos <= |n.daemon.log|
    ensures Forwarded(n, actions, capacity)
    decreases |actions|
  {
    if actions == [] {
      NothingForwarded(n, capacity);
    } else {
      var before, last := actions[..|actions| - 1], actions[|actions| - 1];
      ForwardingKeepsOrder(n, before, capacity);
      ForwardedStep(n, before, last, capacity);
      assert actions == before + [last];
    }
  }

  lemma Registered(n: Node, capacity: nat)
    ensures Advance(n, Client(Register), capacity) == n.(hub := HubStep(n.hub, Register))
  {
    assert HubRun(n.hub, [Register][..0]) == n.hub;
  }

  /** A subscription made at `n` receives, whatever else happens, an in-order selection of
      the events the forwarder had not yet read; without lag it receives all of them. */
  lemma {:induction false} SubscriberStream(n: Node, start: Node, actions: seq<Action>, capacity: nat, got: seq<Event>)
    requires n.pos <= |n.daemon.log| && AllIssued(n.hub)
    requires start == Advance(n, Client(Register), capacity)
    requires n.hub.issued + 1 + Registrations(HubOps(start, actions, capacity)) <= IDS
    requires Subscriber(IdOf(n.hub.issued), true, got) in Play(start, actions, capacity).hub.subs
    ensures var end := Play(start, actions, capacity);
            ReadFrom(got, end.daemon.log, n.pos, end.pos, Lagged(start, actions, capacity))
  {
    Registered(n, capacity);
    PlayProjects(start, actions, capacity);
    Delivery(n.hub, HubOps(start, actions, capacity));
    ForwardingKeepsOrder(start, actions, capacity);
  }

  /** Where a run of the pipeline stands in the run of the daemon. */
  lemma {:induction false} DaemonAt(boot: State, past: seq<Input>, n: Node, second: seq<Action>, third: seq<Action>,
                                    capacity: nat)
    requires n.daemon == Run(boot, past)
    ensures var all, q := past + Requests(second + third), |past + Requests(second)|;
            && q <= |all|
            && Play(n, second, capacity).daemon == Run(boot, all[..q])
            && Play(n, second + third, capacity).daemon == Run(boot, all)
  {
    PlayProjects(n, second, capacity);
    PlayProjects(n, second + third, capacity);
    PlayAppend(n, second, third, capacity);
    RunAppend(boot, past, Requests(second));
    RunAppend(boot, past, Requests(second + third));
    var all := past + Requests(second + third);
    assert all[..|past + Requests(second)|] == past + Requests(second);
  }

  /** A replica fed with all that the bus carried since `start`. */
  lemma {:induction false} MirrorsSince(boot: State, past: seq<Input>, start: Node, second: seq<Action>,
                                        third: seq<Action>, capacity: nat, got: seq<Event>)
    requires Valid(boot) && boot.log == [] && start.daemon == Run(boot, past)
    requires start.pos <= |start.daemon.log| <= |Play(start, second + third, capacity).daemon.log|
    requires got == Play(start, second + third, capacity).daemon.log[start.pos..]
    ensures Mirrors(Replay(Play(start, second, capacity).daemon.rows, got), got,
                    Play(start, second + third, capacity).daemon)
  {
    DaemonAt(boot, past, start, second, third, capacity);
    ForwardingKeepsOrder(start, second, capacity);
    ReplicaConverges(boot, past + Requests(second + third), |past + Requests(second)|, start.pos);
  }

  /** A subscriber of a run without lag, whose forwarder has read everything, was sent all that
      the bus carried since it registered. */
  lemma {:induction false} SentEverything(n: Node, start: Node, actions: seq<Action>, capacity: nat, got: seq<Event>)
    requires AllIssued(n.hub) && n.pos <= |n.daemon.log|
    requires start == Advance(n, Client(Register), capacity)
    requires n.hub.issued + 1 + Registrations(HubOps(start, actions, capacity)) <= IDS
    requires var end := Play(start, actions, capacity);
             && Subscriber(IdOf(n.hub.issued), true, got) in end.hub.subs
             && end.pos == |end.daemon.log| && !Lagged(start, actions, capacity)
    ensures start.daemon == n.daemon && start.pos == n.pos
    ensures var end := Play(start, actions, capacity);
            |n.daemon.log| <= |end.daemon.log| && got == end.daemon.log[n.pos..]
  {
    SubscriberStream(n, start, actions, capacity, got);
    Registered(n, capacity);
    ForwardingKeepsOrder(start, actions, capacity);
  }

  lemma {:induction false} MirrorsFrom(boot: State, past: seq<Input>, n: Node, start: Node, second: seq<Action>,
                                       third: seq<Action>, capacity: nat, got: seq<Event>)
    requires Valid(boot) && boot.log == [] && n.daemon == Run(boot, past)
    requires AllIssued(n.hub) && n.pos <= |n.daemon.log|
    requires start == Advance(n, Client(Register), capacity)
    requires n.hub.issued + 1 + Registrations(HubOps(start, second + third, capacity)) <= IDS
    requires var end := Play(start, second + third, capacity);
             && Subscriber(IdOf(n.hub.issued), true, got) in end.hub.subs
             && end.pos == |end.daemon.log| && !Lagged(start, second + third, capacity)
    ensures Mirrors(Replay(Play(start, second, capacity).daemon.rows, got), got,
                    Play(start, second + third, capacity).daemon)
  {
    SentEverything(n, start, second + third, capacity, got);
    MirrorsSince(boot, past, start, second, third, capacity, got);
  }

  /** End to end. A dashboard subscribes at any moment of any run of the whole pipeline, takes
      its snapshot at any later moment, and in the end has been sent everything the bus
      carried. If the forwarder never lagged since the subscription, what it received, replayed
      over the snapshot, mirrors the daemon. */
  lemma DashboardMirrorsDaemon(boot: State, first: seq<Action>, second: seq<Action>, third: seq<Action>,
                               capacity: nat, got: seq<Event>)
    requires Valid(boot) && boot.log == []
    requires var n := Play(Node(boot, 0, Hub([], 0)), first, capacity);
             var start := Advance(n, Client(Register), capacity);
             var end := Play(start, second + third, capacity);
             && n.hub.issued + 1 + Registrations(HubOps(start, second + third, capacity)) <= IDS
             && Subscriber(IdOf(n.hub.issued), true, got) in end.hub.subs
             && end.pos == |end.daemon.log|
             && !Lagged(start, second + third, capacity)
    ensures var n := Play(Node(boot, 0, Hub([], 0)), first, capacity);
            var start := Advance(n, Client(Register), capacity);
            var snapshot := Play(start, second, capacity).daemon.rows;
            var end := Play(start, second + third, capacity);
            Mirrors(Replay(snapshot, got), got, end.daemon)
  {
    var origin := Node(boot, 0, Hub([], 0));
    var n := Play(origin, first, capacity);
    PlayProjects(origin, first, capacity);
    RunIssued(origin.hub, HubOps(origin, first, capacity));
    ForwardingKeepsOrder(origin, first, capacity);
    MirrorsFrom(boot, Requests(first), n, Advance(n, Client(Register), capacity), second, third, capacity, got);
  }
}
