/** Event delivery: `SubscriberRegistry` copies every event it is given to one channel per
    subscriber. */
module FanOut {
  import opened Protocol
  import opened Sequences

  /** `next_id` is a 64-bit counter that wraps. */
  const IDS: nat := 0x1_0000_0000_0000_0000

  /** The id handed to the n-th registration, counting from 0. */
  function IdOf(serial: nat): nat {
    (1 + serial) % IDS
  }

  /** `got` is everything ever sent into the subscriber's channel. */
  datatype Subscriber = Subscriber(id: nat, open: bool, got: seq<Event>)

  datatype Hub = Hub(subs: seq<Subscriber>, issued: nat)

  datatype HubOp =
    | Register
    | Unregister(id: nat)
    | Close(id: nat)       // the receiver is dropped
    | Broadcast(event: Event)

  function OtherSubscriber(id: nat): Subscriber -> bool {
    (s: Subscriber) => s.id != id
  }

  function Closed(subs: seq<Subscriber>, id: nat): seq<Subscriber> {
    seq(|subs|, i requires 0 <= i < |subs| =>
      if subs[i].id == id then subs[i].(open := false) else subs[i])
  }

  /** A send into a closed channel fails, and the subscriber is dropped. */
  function Delivered(subs: seq<Subscriber>, e: Event): seq<Subscriber> {
    if subs == [] then []
    else
      var last := |subs| - 1;
      Delivered(subs[..last], e) +
      if subs[last].open then [subs[last].(got := subs[last].got + [e])] else []
  }

  function HubStep(h: Hub, op: HubOp): Hub {
    match op
    case Register => Hub(h.subs + [Subscriber(IdOf(h.issued), true, [])], h.issued + 1)
    case Unregister(id) => h.(subs := Filter(h.subs, OtherSubscriber(id)))
    case Close(id) => h.(subs := Closed(h.subs, id))
    case Broadcast(e) => h.(subs := Delivered(h.subs, e))
  }

  function HubRun(h: Hub, ops: seq<HubOp>): Hub {
    if ops == [] then h
    else HubStep(HubRun(h, ops[..|ops| - 1]), ops[|ops| - 1])
  }

  function Broadcasts(ops: seq<HubOp>): seq<Event> {
    if ops == [] then []
    else
      var op := ops[|ops| - 1];
      Broadcasts(ops[..|ops| - 1]) + if op.Broadcast? then [op.event] else []
  }

  /** Nobody has unregistered the subscription or dropped its receiver. */
  predicate Undisturbed(ops: seq<HubOp>, id: nat) {
    forall op | op in ops :: op != Unregister(id) && op != Close(id)
  }

  /** Subscription ids repeat if and only if more than 2^64 of them are handed out. */
  lemma IdsNeverReused(n: nat)
    ensures (forall a, b | 0 <= a < b < n :: IdOf(a) != IdOf(b)) <==> n <= IDS
  {
    if n <= IDS {
      forall a, b | 0 <= a < b < n ensures IdOf(a) != IdOf(b) {
        IdOfRange(a);
        IdOfRange(b);
      }
    } else {
      assert IdOf(0) == IdOf(IDS);
    }
  }

  lemma IdOfRange(k: nat)
    requires k < IDS
    ensures IdOf(k) == if k == IDS - 1 then 0 else k + 1
  {
  }

  lemma NextId(n: nat)
    ensures IdOf(n + 1) == (IdOf(n) + 1) % IDS
  {
  }

  /** Every listed subscription's id was handed out. */
  ghost predicate AllIssued(h: Hub) {
    forall s | s in h.subs :: exists k :: 0 <= k < h.issued && s.id == IdOf(k)
  }

  // -------------------------------------------- one subscriber through the three filters

  lemma {:induction false} DeliveredMembers(subs: seq<Subscriber>, e: Event)
    ensures forall s | s in subs && s.open :: s.(got := s.got + [e]) in Delivered(subs, e)
    ensures forall t | t in Delivered(subs, e) ::
              t.open && |t.got| > 0 && t.got[|t.got| - 1] == e && t.(got := t.got[..|t.got| - 1]) in subs
    decreases |subs|
  {
    if subs != [] {
      var last := |subs| - 1;
      DeliveredMembers(subs[..last], e);
      assert subs == subs[..last] + [subs[last]];
      if subs[last].open {
        var t := subs[last].(got := subs[last].got + [e]);
        assert t.(got := t.got[..|t.got| - 1]) == subs[last];
      }
    }
  }

  lemma ClosedMembers(subs: seq<Subscriber>, id: nat)
    ensures forall s | s in subs && s.id != id :: s in Closed(subs, id)
    ensures forall t | t in Closed(subs, id) && t.open :: t in subs && t.id != id
    ensures forall t | t in Closed(subs, id) :: exists s :: s in subs && s.id == t.id
  {
    var after := Closed(subs, id);
    forall s | s in subs && s.id != id ensures s in after {
      var i :| 0 <= i < |subs| && subs[i] == s;
      assert after[i] == s;
    }
    forall t | t in after ensures exists s :: s in subs && s.id == t.id {
      var i :| 0 <= i < |after| && after[i] == t;
      assert subs[i] in subs && subs[i].id == t.id;
    }
  }

  lemma StepIssued(h: Hub, op: HubOp)
    requires AllIssued(h)
    ensures AllIssued(HubStep(h, op))
  {
    match op
    case Register =>
    case Unregister(id) => FilterMembers(h.subs, OtherSubscriber(id));
    case Close(id) => ClosedMembers(h.subs, id);
    case Broadcast(e) =>
      DeliveredMembers(h.subs, e);
      forall t | t in Delivered(h.subs, e) ensures exists k :: 0 <= k < h.issued && t.id == IdOf(k) {
        assert t.(got := t.got[..|t.got| - 1]) in h.subs;
      }
  }

  lemma ClosedOne(subs: seq<Subscriber>, x: nat, it: Subscriber)
    requires it.open
    ensures it in Closed(subs, x) <==> it in subs && it.id != x
  {
    ClosedMembers(subs, x);
  }

  lemma DeliveredOne(subs: seq<Subscriber>, e: Event, id: nat, got: seq<Event>)
    ensures Subscriber(id, true, got + [e]) in Delivered(subs, e) <==> Subscriber(id, true, got) in subs
  {
    DeliveredMembers(subs, e);
    var it, longer := Subscriber(id, true, got), Subscriber(id, true, got + [e]);
    assert it.(got := it.got + [e]) == longer;
    assert longer.(got := longer.got[..|longer.got| - 1]) == it;
  }

  lemma DeliveredEndsWith(subs: seq<Subscriber>, e: Event, id: nat, got: seq<Event>)
    requires Subscriber(id, true, got) in Delivered(subs, e)
    ensures |got| > 0 && got[|got| - 1] == e
  {
    DeliveredMembers(subs, e);
  }

  /** What one operation does to a live subscription: it stays, exactly one event longer if
      the operation was a broadcast, unless the operation ends it. */
  lemma OneStep(h: Hub, op: HubOp, id: nat, got: seq<Event>)
    requires op.Register? ==> IdOf(h.issued) != id
    ensures Subscriber(id, true, if op.Broadcast? then got + [op.event] else got) in HubStep(h, op).subs <==>
              Subscriber(id, true, got) in h.subs && op != Unregister(id) && op != Close(id)
  {
    match op
    case Register =>
    case Unregister(x) => FilterMember(h.subs, OtherSubscriber(x), Subscriber(id, true, got));
    case Close(x) => ClosedOne(h.subs, x, Subscriber(id, true, got));
    case Broadcast(e) => DeliveredOne(h.subs, e, id, got);
  }

  lemma UndisturbedSnoc(ops: seq<HubOp>, op: HubOp, id: nat)
    ensures Undisturbed(ops + [op], id) <==> Undisturbed(ops, id) && op != Unregister(id) && op != Close(id)
  {
    assert forall o :: o in ops + [op] <==> o in ops || o == op;
    assert op in ops + [op];
  }

  function Registrations(ops: seq<HubOp>): nat {
    if ops == [] then 0
    else Registrations(ops[..|ops| - 1]) + if ops[|ops| - 1].Register? then 1 else 0
  }

  lemma FreshId(h: Hub)
    requires AllIssued(h) && h.issued < IDS
    ensures forall s | s in h.subs :: s.id != IdOf(h.issued)
  {
    IdsNeverReused(h.issued + 1);
  }

  /** The live subscriptions under `id`: none, or one that holds exactly `sent`. */
  ghost predicate Exactly(h: Hub, id: nat, sent: seq<Event>, live: bool) {
    forall got :: Subscriber(id, true, got) in h.subs <==> live && got == sent
  }

  lemma ExactlyStep(h: Hub, op: HubOp, id: nat, sent: seq<Event>, live: bool)
    requires Exactly(h, id, sent, live)
    requires op.Register? ==> IdOf(h.issued) != id
    ensures Exactly(HubStep(h, op), id, sent + if op.Broadcast? then [op.event] else [],
                    live && op != Unregister(id) && op != Close(id))
  {
    var next := HubStep(h, op);
    var sent' := sent + if op.Broadcast? then [op.event] else [];
    assert sent + [] == sent;
    forall got
      ensures Subscriber(id, true, got) in next.subs <==>
                live && op != Unregister(id) && op != Close(id) && got == sent'
    {
      if op.Broadcast? {
        OneStep(h, op, id, sent);
        if Subscriber(id, true, got) in next.subs {
          DeliveredEndsWith(h.subs, op.event, id, got);
          assert got == got[..|got| - 1] + [op.event];
          OneStep(h, op, id, got[..|got| - 1]);
        }
      } else {
        OneStep(h, op, id, got);
      }
    }
  }

  /** Fan-out delivery. From its registration on, under every interleaving of registrations,
      unregistrations, dropped receivers and broadcasts, a subscription is live if and only
      if nobody ended it, and a live one holds exactly the broadcasts since then, in order
      and once each. */
  lemma {:induction false} Delivery(h: Hub, ops: seq<HubOp>)
    requires AllIssued(h) && h.issued + 1 + Registrations(ops) <= IDS
    ensures var end := HubRun(HubStep(h, Register), ops);
            && AllIssued(end) && end.issued == h.issued + 1 + Registrations(ops)
            && Exactly(end, IdOf(h.issued), Broadcasts(ops), Undisturbed(ops, IdOf(h.issued)))
    decreases |ops|
  {
    var id := IdOf(h.issued);
    if ops == [] {
      FreshId(h);
      StepIssued(h, Register);
    } else {
      var last := |ops| - 1;
      var before, op := ops[..last], ops[last];
      Delivery(h, before);
      var mid := HubRun(HubStep(h, Register), before);
      assert op.Register? ==> IdOf(mid.issued) != id by {
        IdsNeverReused(h.issued + 1 + Registrations(ops));
      }
      StepIssued(mid, op);
      ExactlyStep(mid, op, id, Broadcasts(before), Undisturbed(before, id));
      assert ops == before + [op];
      UndisturbedSnoc(before, op, id);
      assert Broadcasts(ops) == Broadcasts(before) + if op.Broadcast? then [op.event] else [];
    }
  }

  // -------------------------------------------------------------------- the registry

  /** The registry; each sender's entry stands for both ends of its channel. */
  class SubscriberRegistry {
    var senders: seq<Subscriber>
    var nextId: nat
    ghost var issued: nat

    ghost predicate Valid()
      reads this
    {
      nextId == IdOf(issued)
    }

    ghost function View(): Hub
      reads this
    {
      Hub(senders, issued)
    }

    constructor ()
      ensures Valid() && View() == Hub([], 0)
    {
      senders, nextId, issued := [], 1, 0;
    }

    method RegisterSubscriber() returns (id: nat)
      requires Valid()
      modifies this
      ensures Valid() && id == IdOf(old(issued))
      ensures View() == HubStep(old(View()), Register)
    {
      NextId(issued);
      id := nextId;
      nextId := (nextId + 1) % IDS;
      senders := senders + [Subscriber(id, true, [])];
      issued := issued + 1;
    }

    /** Idempotent: an unknown id changes nothing. */
    method UnregisterSubscriber(id: nat)
      requires Valid()
      modifies this`senders
      ensures Valid() && View() == HubStep(old(View()), Unregister(id))
    {
      senders := Retain(senders, OtherSubscriber(id));
    }

    /** `retain` over the sends: a failed send drops its subscriber. */
    method BroadcastEvent(e: Event)
      requires Valid()
      modifies this`senders
      ensures Valid() && View() == HubStep(old(View()), Broadcast(e))
    {
      var kept: seq<Subscriber> := [];
      for i := 0 to |senders|
        invariant senders == old(senders) && kept == Delivered(senders[..i], e)
      {
        assert senders[..i + 1][..i] == senders[..i];
        if senders[i].open {
          kept := kept + [senders[i].(got := senders[i].got + [e])];
        }
      }
      assert senders[..|senders|] == senders;
      senders := kept;
    }
  }
}
