/**
 Whole histories of the broker: connections open and go away between its calls, clients
 subscribe and publish. What is sent does not depend on when dead subscribers are pruned.
 */
module BrokerHistory {
  import opened Joaat
  import opened Registry
  import opened Broker

  datatype Event =
    | Open(conn: Conn)
    | Expire(conn: Conn)
    | Subscribe(topic: Str, conn: Conn)
    | Publish(topic: Str, payload: Payload)

  /** alive: connections with a shared pointer left; gone: those that expired. */
  datatype State = State(
    subscribers: map<Str, seq<Conn>>,
    alive: set<Conn>,
    gone: set<Conn>,
    wire: seq<Sent>,
    calls: seq<Call>
  )

  const INITIAL := State(map[], {}, {}, [], [])

  /** Opening and expiring; an expired connection never comes back. */
  function Connect(s: State, e: Event): State
    requires e.Open? || e.Expire?
  {
    match e
    case Open(c) => if c in s.gone then s else s.(alive := s.alive + {c})
    case Expire(c) => s.(alive := s.alive - {c}, gone := s.gone + {c})
  }

  /** Subscribing takes a connection that is alive. */
  function Enlist(s: State, topic: Str, conn: Conn): State {
    if conn !in s.alive then s
    else s.(subscribers := s.subscribers[topic := Subscribers(s.subscribers, topic) + [conn]])
  }

  // ---------------------------------------------------------------- the broker as it is

  function Apply(cs: seq<Consumer>, s: State, e: Event): State {
    match e
    case Open(_) => Connect(s, e)
    case Expire(_) => Connect(s, e)
    case Subscribe(topic, conn) => Enlist(s, topic, conn)
    case Publish(topic, payload) =>
      var live := Live(Subscribers(s.subscribers, topic), s.alive);
      s.(subscribers := s.subscribers[topic := live],
         wire := s.wire + ToAll(Message(topic, payload), live),
         calls := s.calls + CallFor(cs, Message(topic, payload)))
  }

  function Run(cs: seq<Consumer>, events: seq<Event>): State {
    if events == [] then INITIAL
    else Apply(cs, Run(cs, events[..|events| - 1]), events[|events| - 1])
  }

  /** The state of a broker object, seen together with the connections. */
  ghost function View(b: MessageBroker, alive: set<Conn>, gone: set<Conn>): State
    reads b
  {
    State(b.subscribers, alive, gone, b.wire, b.calls)
  }

  /** The broker object serves every history as Run says. */
  method Serve(b: MessageBroker, events: seq<Event>) returns (alive: set<Conn>, gone: set<Conn>)
    requires b.Valid() && b.subscribers == map[] && b.wire == [] && b.calls == []
    modifies b
    ensures b.Valid()
    ensures View(b, alive, gone) == Run(b.table.registered, events)
  {
    hide Live, First, Hash, ToAll;
    alive, gone := {}, {};
    ghost var cs := b.table.registered;
    var i := 0;
    while i < |events|
      invariant 0 <= i <= |events| && b.Valid() && b.table.registered == cs
      invariant View(b, alive, gone) == Run(cs, events[..i])
    {
      assert events[..i + 1][..i] == events[..i];
      match events[i] {
        case Open(c) => if c !in gone { alive := alive + {c}; }
        case Expire(c) => alive, gone := alive - {c}, gone + {c};
        case Subscribe(topic, conn) => if conn in alive { b.Subscribe(topic, conn); }
        case Publish(topic, payload) => b.Publish(topic, payload, alive);
      }
      i := i + 1;
    }
    assert events[..i] == events;
  }

  // ---------------------------------------------------------------- eager removal

  function Without(subs: seq<Conn>, c: Conn): seq<Conn> {
    if subs == [] then []
    else Without(subs[..|subs| - 1], c) + if subs[|subs| - 1] == c then [] else [subs[|subs| - 1]]
  }

  /** A broker that removes a connection from every list as it goes away, and never prunes. */
  function ApplyEager(cs: seq<Consumer>, s: State, e: Event): State {
    match e
    case Open(_) => Connect(s, e)
    case Expire(c) =>
      Connect(s, e).(subscribers := map t | t in s.subscribers :: Without(s.subscribers[t], c))
    case Subscribe(topic, conn) => Enlist(s, topic, conn)
    case Publish(topic, payload) =>
      s.(wire := s.wire + ToAll(Message(topic, payload), Subscribers(s.subscribers, topic)),
         calls := s.calls + CallFor(cs, Message(topic, payload)))
  }

  function RunEager(cs: seq<Consumer>, events: seq<Event>): State {
    if events == [] then INITIAL
    else ApplyEager(cs, RunEager(cs, events[..|events| - 1]), events[|events| - 1])
  }

  lemma LiveAppend(subs: seq<Conn>, c: Conn, alive: set<Conn>)
    requires c in alive
    ensures Live(subs + [c], alive) == Live(subs, alive) + [c]
  {
    assert (subs + [c])[..|subs|] == subs;
  }

  lemma {:induction false} LiveAfterExpire(subs: seq<Conn>, c: Conn, alive: set<Conn>)
    ensures Without(Live(subs, alive), c) == Live(subs, alive - {c})
    decreases |subs|
  {
    if subs != [] {
      LiveAfterExpire(subs[..|subs| - 1], c, alive);
      var r := Live(subs[..|subs| - 1], alive);
      assert (r + [subs[|subs| - 1]])[..|r|] == r;
    }
  }

  lemma {:induction false} LiveAfterOpen(subs: seq<Conn>, c: Conn, alive: set<Conn>)
    requires c !in subs
    ensures Live(subs, alive + {c}) == Live(subs, alive)
    decreases |subs|
  {
    if subs != [] {
      LiveAfterOpen(subs[..|subs| - 1], c, alive);
    }
  }

  lemma {:induction false} LiveAmong(subs: seq<Conn>, alive: set<Conn>)
    ensures forall c :: c in Live(subs, alive) <==> c in subs && c in alive
    decreases |subs|
  {
    if subs != [] {
      LiveAmong(subs[..|subs| - 1], alive);
      assert subs == subs[..|subs| - 1] + [subs[|subs| - 1]];
    }
  }

  /** Whoever is in a list is alive or was once. */
  ghost predicate Known(s: State) {
    forall t, c :: c in Subscribers(s.subscribers, t) ==> c in s.alive || c in s.gone
  }

  /** The eager lists are the live part of the lazy ones, and the outside sees no difference. */
  ghost predicate Alike(l: State, e: State) {
    && l.alive == e.alive && l.gone == e.gone
    && l.wire == e.wire && l.calls == e.calls
    && forall t :: Subscribers(e.subscribers, t) == Live(Subscribers(l.subscribers, t), l.alive)
  }

  lemma KnownKept(cs: seq<Consumer>, s: State, e: Event)
    requires Known(s)
    ensures Known(Apply(cs, s, e))
  {
    hide Live, CallFor, ToAll;
    var s' := Apply(cs, s, e);
    if e.Publish? {
      LiveAmong(Subscribers(s.subscribers, e.topic), s.alive);
    }
    forall t, c | c in Subscribers(s'.subscribers, t) ensures c in s'.alive || c in s'.gone {
      assert c in Subscribers(s.subscribers, t) || c in s.alive;
    }
  }

  lemma AlikeKept(cs: seq<Consumer>, l: State, e: State, ev: Event)
    requires Known(l) && Alike(l, e)
    ensures Alike(Apply(cs, l, ev), ApplyEager(cs, e, ev))
  {
    hide Live, CallFor, ToAll, Without;
    var l', e' := Apply(cs, l, ev), ApplyEager(cs, e, ev);
    forall t ensures Subscribers(e'.subscribers, t) == Live(Subscribers(l'.subscribers, t), l'.alive) {
      var subs := Subscribers(l.subscribers, t);
      assert Subscribers(e.subscribers, t) == Live(subs, l.alive);
      match ev
      case Open(c) =>
        if c !in l.gone {
          StillLive(subs, c, l.alive);
        }
      case Expire(c) =>
        LiveAfterExpire(subs, c, l.alive);
        NothingWithout(c);
      case Subscribe(topic, c) =>
        if c in l.alive {
          LiveAppend(subs, c, l.alive);
        }
      case Publish(topic, _) =>
        LiveIsIdempotent(subs, l.alive);
    }
  }

  lemma NothingWithout(c: Conn)
    ensures Without([], c) == []
  {
  }

  lemma StillLive(subs: seq<Conn>, c: Conn, alive: set<Conn>)
    requires c in subs ==> c in alive
    ensures Live(subs, alive + {c}) == Live(subs, alive)
  {
    hide Live;
    if c in alive {
      assert alive + {c} == alive;
    } else {
      LiveAfterOpen(subs, c, alive);
    }
  }

  lemma {:induction false} RunsAlike(cs: seq<Consumer>, events: seq<Event>)
    ensures Known(Run(cs, events)) && Alike(Run(cs, events), RunEager(cs, events))
    decreases |events|
  {
    hide Apply, ApplyEager, Known, Alike;
    if events == [] {
      InitiallyAlike();
    } else {
      var before := events[..|events| - 1];
      RunsAlike(cs, before);
      KnownKept(cs, Run(cs, before), events[|events| - 1]);
      AlikeKept(cs, Run(cs, before), RunEager(cs, before), events[|events| - 1]);
    }
  }

  lemma InitiallyAlike()
    ensures Known(INITIAL) && Alike(INITIAL, INITIAL)
  {
  }

  /** Lazy pruning cannot be told from eager removal: the same sends in the same order, the same calls. */
  lemma LazyPruningIsInvisible(cs: seq<Consumer>, events: seq<Event>)
    ensures Run(cs, events).wire == RunEager(cs, events).wire
    ensures Run(cs, events).calls == RunEager(cs, events).calls
  {
    hide Run, RunEager, Known;
    RunsAlike(cs, events);
  }

  // ---------------------------------------------------------------- what one connection is sent

  /** The messages sent to one connection. */
  function Mailbox(wire: seq<Sent>, c: Conn): seq<Message> {
    if wire == [] then []
    else (if wire[0].conn == c then [wire[0].message] else []) + Mailbox(wire[1..], c)
  }

  function Repeat(m: Message, n: nat): (r: seq<Message>)
    ensures |r| == n && forall i :: 0 <= i < n ==> r[i] == m
  {
    seq(n, i => m)
  }

  predicate Connected(events: seq<Event>, c: Conn) {
    Open(c) in events && Expire(c) !in events
  }

  /** How often a connection subscribed to a topic while it was connected. */
  function Subscriptions(events: seq<Event>, topic: Str, c: Conn): nat {
    if events == [] then 0
    else
      var before := events[..|events| - 1];
      Subscriptions(before, topic, c)
      + if events[|events| - 1] == Subscribe(topic, c) && Connected(before, c) then 1 else 0
  }

  /** What an event after a history owes to c: a message once for each subscription, if c is connected. */
  function Owed(before: seq<Event>, e: Event, c: Conn): seq<Message> {
    match e
    case Publish(topic, payload) =>
      if Connected(before, c) then Repeat(Message(topic, payload), Subscriptions(before, topic, c)) else []
    case _ => []
  }

  /** Every message published while c was connected, once for each of its subscriptions so far. */
  function Expected(events: seq<Event>, c: Conn): seq<Message> {
    if events == [] then []
    else
      var before := events[..|events| - 1];
      Expected(before, c) + Owed(before, events[|events| - 1], c)
  }

  lemma {:induction false} MailboxAppend(v: seq<Sent>, w: seq<Sent>, c: Conn)
    ensures Mailbox(v + w, c) == Mailbox(v, c) + Mailbox(w, c)
    decreases |v|
  {
    if v == [] {
      assert v + w == w;
    } else {
      assert (v + w)[1..] == v[1..] + w;
      MailboxAppend(v[1..], w, c);
      var first := if v[0].conn == c then [v[0].message] else [];
      assert (first + Mailbox(v[1..], c)) + Mailbox(w, c) == first + (Mailbox(v[1..], c) + Mailbox(w, c));
    }
  }

  /** How often c is in a list. */
  function Count(subs: seq<Conn>, c: Conn): nat {
    if subs == [] then 0
    else Count(subs[..|subs| - 1], c) + if subs[|subs| - 1] == c then 1 else 0
  }

  lemma {:induction false} MailboxOfToAll(m: Message, subs: seq<Conn>, c: Conn)
    ensures Mailbox(ToAll(m, subs), c) == Repeat(m, Count(subs, c))
    decreases |subs|
  {
    if subs != [] {
      var most, last := subs[..|subs| - 1], subs[|subs| - 1];
      MailboxOfToAll(m, most, c);
      assert ToAll(m, subs) == ToAll(m, most) + [Sent(last, m)];
      MailboxAppend(ToAll(m, most), [Sent(last, m)], c);
      assert Mailbox([Sent(last, m)], c) == if last == c then [m] else [];
    }
  }

  lemma {:induction false} CountLive(subs: seq<Conn>, alive: set<Conn>, c: Conn)
    ensures Count(Live(subs, alive), c) == if c in alive then Count(subs, c) else 0
    decreases |subs|
  {
    if subs != [] {
      CountLive(subs[..|subs| - 1], alive, c);
      var r := Live(subs[..|subs| - 1], alive);
      assert (r + [subs[|subs| - 1]])[..|r|] == r;
    }
  }

  lemma CountAppend(subs: seq<Conn>, d: Conn, c: Conn)
    ensures Count(subs + [d], c) == Count(subs, c) + if d == c then 1 else 0
  {
    assert (subs + [d])[..|subs|] == subs;
  }

  /** What a state knows about one connection after a history. */
  ghost predicate Accounted(s: State, events: seq<Event>, c: Conn) {
    && (c in s.alive <==> Connected(events, c))
    && (c in s.gone <==> Expire(c) in events)
    && (c !in s.gone ==> forall t :: Count(Subscribers(s.subscribers, t), c) == Subscriptions(events, t, c))
    && (c !in s.gone && c !in s.alive ==> forall t :: Subscriptions(events, t, c) == 0)
  }

  lemma AccountedKept(cs: seq<Consumer>, s: State, before: seq<Event>, e: Event, c: Conn)
    requires Accounted(s, before, c)
    ensures Accounted(Apply(cs, s, e), before + [e], c)
  {
    hide Live, CallFor, ToAll, Count;
    var s', events := Apply(cs, s, e), before + [e];
    assert events[..|events| - 1] == before;
    assert c in s'.alive <==> Connected(events, c);
    assert c in s'.gone <==> Expire(c) in events;
    assert c !in s'.gone && c !in s'.alive ==> forall t :: Subscriptions(events, t, c) == 0;
    if c !in s'.gone {
      forall t ensures Count(Subscribers(s'.subscribers, t), c) == Subscriptions(events, t, c) {
        var subs := Subscribers(s.subscribers, t);
        assert Count(subs, c) == Subscriptions(before, t, c);
        if e.Publish? {
          CountLive(subs, s.alive, c);
        } else if e.Subscribe? {
          CountAppend(subs, e.conn, c);
        }
      }
    }
  }

  lemma {:induction false} RunAccounted(cs: seq<Consumer>, events: seq<Event>, c: Conn)
    ensures Accounted(Run(cs, events), events, c)
    decreases |events|
  {
    hide Apply, Accounted;
    if events == [] {
      InitiallyAccounted(c);
    } else {
      var before := events[..|events| - 1];
      RunAccounted(cs, before, c);
      AccountedKept(cs, Run(cs, before), before, events[|events| - 1], c);
      assert before + [events[|events| - 1]] == events;
    }
  }

  lemma InitiallyAccounted(c: Conn)
    ensures Accounted(INITIAL, [], c)
  {
  }

  /** One step of the delivery theorem. */
  lemma SentByOneEvent(cs: seq<Consumer>, s: State, before: seq<Event>, e: Event, c: Conn)
    requires Accounted(s, before, c)
    ensures Mailbox(Apply(cs, s, e).wire, c) == Mailbox(s.wire, c) + Owed(before, e, c)
  {
    hide Live, CallFor, ToAll, Count, Mailbox, Subscriptions;
    if e.Publish? {
      var subs := Subscribers(s.subscribers, e.topic);
      var live := Live(subs, s.alive);
      var m := Message(e.topic, e.payload);
      MailboxAppend(s.wire, ToAll(m, live), c);
      MailboxOfToAll(m, live, c);
      CountLive(subs, s.alive, c);
      assert c !in s.alive ==> Repeat(m, 0) == [];
    } else {
      assert Mailbox(s.wire, c) + [] == Mailbox(s.wire, c);
    }
  }

  /**
   The delivery theorem, for every history and every connection: it is sent exactly the messages
   that were published while it was connected, in the order of publication, each as often as it
   had subscribed to the topic by then.
   */
  lemma {:induction false} DeliveriesAreExact(cs: seq<Consumer>, events: seq<Event>, c: Conn)
    ensures Mailbox(Run(cs, events).wire, c) == Expected(events, c)
    decreases |events|
  {
    hide Apply, Accounted, Owed;
    if events != [] {
      var before := events[..|events| - 1];
      DeliveriesAreExact(cs, before, c);
      RunAccounted(cs, before, c);
      SentByOneEvent(cs, Run(cs, before), before, events[|events| - 1], c);
    }
  }

  // ---------------------------------------------------------------- what one consumer is called with

  /** The payloads of one consumer's calls. */
  function Inbox(calls: seq<Call>, c: Consumer): seq<Payload> {
    if calls == [] then []
    else Inbox(calls[..|calls| - 1], c)
         + if calls[|calls| - 1].consumer == c then [calls[|calls| - 1].payload] else []
  }

  /** Everything that was published to topics with hash h. */
  function PublishedUnder(events: seq<Event>, h: bv32): seq<Payload> {
    if events == [] then []
    else
      var last := events[|events| - 1];
      PublishedUnder(events[..|events| - 1], h) + if last.Publish? && Hash(last.topic) == h then [last.payload] else []
  }

  /** The consumer is the first one registered under its hash. */
  ghost predicate Answers(cs: seq<Consumer>, c: Consumer) {
    exists i: nat :: FirstAt(cs, i, Hash(c.name)) && cs[i] == c
  }

  lemma InboxAfterCall(calls: seq<Call>, call: Call, c: Consumer)
    ensures Inbox(calls + [call], c) == Inbox(calls, c) + if call.consumer == c then [call.payload] else []
  {
    assert (calls + [call])[..|calls|] == calls;
  }

  /** One step of the call theorem. */
  lemma CalledByOneEvent(cs: seq<Consumer>, s: State, e: Event, c: Consumer)
    ensures Inbox(Apply(cs, s, e).calls, c)
         == Inbox(s.calls, c) + if e.Publish? && Hash(e.topic) == Hash(c.name) && Answers(cs, c) then [e.payload] else []
  {
    hide Live, ToAll, CallFor, Hash, First, Inbox;
    if e.Publish? {
      var m := Message(e.topic, e.payload);
      CallGoesToTheFirst(cs, m);
      var i := FoundAt(cs, Hash(e.topic));
      if First(cs, Hash(e.topic)).Some? {
        OnlyOneIsFirst(cs, Hash(e.topic));
        InboxAfterCall(s.calls, Call(cs[i], e.payload), c);
      } else {
        assert s.calls + [] == s.calls;
      }
    }
  }

  lemma OnlyOneIsFirst(cs: seq<Consumer>, h: bv32)
    ensures forall i: nat, j: nat :: FirstAt(cs, i, h) && FirstAt(cs, j, h) ==> i == j
  {
    hide Hash;
  }

  /**
   The call theorem, for every history and every consumer: the first consumer under its hash is
   called with exactly the payloads published to the topics of that hash, in their order, and a
   consumer that another one shadows, or that was never registered, is not called at all.
   */
  lemma {:induction false} CallsAreExact(cs: seq<Consumer>, events: seq<Event>, c: Consumer)
    ensures Inbox(Run(cs, events).calls, c) == if Answers(cs, c) then PublishedUnder(events, Hash(c.name)) else []
    decreases |events|
  {
    hide Apply, Answers, Hash;
    if events != [] {
      var before := events[..|events| - 1];
      CallsAreExact(cs, before, c);
      CalledByOneEvent(cs, Run(cs, before), events[|events| - 1], c);
    }
  }
}
