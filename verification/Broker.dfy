/**
 The message broker of src/message_broker.cpp. Subscribers are weak pointers that are pruned
 when a dispatch comes across them; the theorems compare this with removing a connection from
 all lists the moment it goes away, and with counting subscriptions.
 */
module Broker {
  import opened Options
  import opened Joaat
  import opened Registry

  type Payload = Str
  type Conn = nat

  datatype Message = Message(topic: Str, payload: Payload)

  /** One TcpConnection::send. */
  datatype Sent = Sent(conn: Conn, message: Message)

  /** One consumer::call, which puts a job for the consumer into the thread pool. */
  datatype Call = Call(consumer: Consumer, payload: Payload)

  // ---------------------------------------------------------------- one call

  function Subscribers(m: map<Str, seq<Conn>>, topic: Str): seq<Conn> {
    if topic in m then m[topic] else []
  }

  function Queued(m: map<Str, seq<Message>>, topic: Str): seq<Message> {
    if topic in m then m[topic] else []
  }

  /** The subscribers that can still be locked, in order and with repetitions. */
  function Live(subs: seq<Conn>, alive: set<Conn>): (r: seq<Conn>)
    ensures |r| <= |subs|
  {
    if subs == [] then []
    else if subs[|subs| - 1] in alive then Live(subs[..|subs| - 1], alive) + [subs[|subs| - 1]]
    else Live(subs[..|subs| - 1], alive)
  }

  /** One message to every subscriber. */
  function ToAll(m: Message, subs: seq<Conn>): (r: seq<Sent>)
    ensures |r| == |subs|
  {
    seq(|subs|, i requires 0 <= i < |subs| => Sent(subs[i], m))
  }

  /** All messages of a queue, one after the other, to every subscriber. */
  function Deliveries(queue: seq<Message>, subs: seq<Conn>): seq<Sent> {
    if queue == [] then [] else ToAll(queue[0], subs) + Deliveries(queue[1..], subs)
  }

  function CallFor(registered: seq<Consumer>, m: Message): seq<Call> {
    match First(registered, Hash(m.topic))
    case Some(c) => [Call(c, m.payload)]
    case None => []
  }

  /** The payload, and nothing else, goes to the first consumer under the hash of the topic. */
  lemma CallGoesToTheFirst(registered: seq<Consumer>, m: Message)
    ensures forall i: nat :: FirstAt(registered, i, Hash(m.topic)) ==> CallFor(registered, m) == [Call(registered[i], m.payload)]
    ensures (forall i :: 0 <= i < |registered| ==> Hash(registered[i].name) != Hash(m.topic)) ==>
      CallFor(registered, m) == []
  {
    hide Hash, First;
    forall i: nat | FirstAt(registered, i, Hash(m.topic)) ensures CallFor(registered, m) == [Call(registered[i], m.payload)] {
      FirstIs(registered, Hash(m.topic), i);
    }
    var k := FoundAt(registered, Hash(m.topic));
  }

  /** A queue is delivered message by message, and each message subscriber by subscriber. */
  lemma {:induction false} DeliveredInOrder(queue: seq<Message>, subs: seq<Conn>, k: nat, j: nat)
    requires k < |queue| && j < |subs|
    ensures |Deliveries(queue, subs)| == |queue| * |subs|
    ensures 0 <= k * |subs| + j < |Deliveries(queue, subs)|
    ensures Deliveries(queue, subs)[k * |subs| + j] == Sent(subs[j], queue[k])
    decreases |queue|
  {
    var all, rest := Deliveries(queue, subs), Deliveries(queue[1..], subs);
    assert all == ToAll(queue[0], subs) + rest;
    assert |queue| * |subs| == |subs| + |queue[1..]| * |subs|;
    if k > 0 {
      DeliveredInOrder(queue[1..], subs, k - 1, j);
      assert k * |subs| + j == |subs| + ((k - 1) * |subs| + j);
      assert queue[1..][k - 1] == queue[k];
    } else if |queue| > 1 {
      DeliveredInOrder(queue[1..], subs, 0, j);
    } else {
      assert rest == [];
    }
  }

  lemma {:induction false} LiveIsIdempotent(subs: seq<Conn>, alive: set<Conn>)
    ensures Live(Live(subs, alive), alive) == Live(subs, alive)
    decreases |subs|
  {
    if subs != [] {
      LiveIsIdempotent(subs[..|subs| - 1], alive);
      var r := Live(subs[..|subs| - 1], alive);
      assert (r + [subs[|subs| - 1]])[..|r|] == r;
    }
  }

  lemma NobodyIsLive(alive: set<Conn>)
    ensures Live([], alive) == []
  {
  }

  lemma LiveTakesOneMore(subs: seq<Conn>, alive: set<Conn>, i: nat)
    requires i < |subs|
    ensures Live(subs[..i + 1], alive) == Live(subs[..i], alive) + if subs[i] in alive then [subs[i]] else []
  {
    assert subs[..i + 1][..i] == subs[..i];
  }

  lemma OneDelivery(m: Message, subs: seq<Conn>)
    ensures Deliveries([m], subs) == ToAll(m, subs)
  {
    assert ToAll(m, subs) + [] == ToAll(m, subs);
  }

  class MessageBroker {
    const table: Consumers
    var topicQueues: map<Str, seq<Message>>
    var subscribers: map<Str, seq<Conn>>
    var wire: seq<Sent>
    var calls: seq<Call>

    /** Between calls every topic queue is empty. */
    ghost predicate Valid()
      reads this, table
    {
      && table.Valid()
      && forall t :: t in topicQueues ==> topicQueues[t] == []
    }

    constructor (consumers: Consumers)
      requires consumers.Valid()
      ensures Valid() && table == consumers && subscribers == map[] && wire == [] && calls == []
    {
      table := consumers;
      topicQueues, subscribers, wire, calls := map[], map[], [], [];
    }

    method Subscribe(topic: Str, conn: Conn)
      requires Valid()
      modifies this
      ensures Valid() && wire == old(wire) && calls == old(calls)
      ensures subscribers == old(subscribers)[topic := Subscribers(old(subscribers), topic) + [conn]]
    {
      if topic !in subscribers {
        subscribers := subscribers[topic := []];
      }
      subscribers := subscribers[topic := subscribers[topic] + [conn]];
    }

    /** The consumer of the topic is called, and the message goes to the subscribers in any case. */
    method Publish(topic: Str, payload: Payload, alive: set<Conn>)
      requires Valid()
      modifies this
      ensures Valid()
      ensures calls == old(calls) + CallFor(table.registered, Message(topic, payload))
      ensures subscribers == old(subscribers)[topic := Live(Subscribers(old(subscribers), topic), alive)]
      ensures wire == old(wire) + ToAll(Message(topic, payload), Live(Subscribers(old(subscribers), topic), alive))
    {
      hide Hash, First, Live, ToAll, Deliveries;
      OneDelivery(Message(topic, payload), Live(Subscribers(subscribers, topic), alive));
      var hash := Compute(topic);
      var c := table.GetConsumer(hash);
      if c.Some? {
        calls := calls + [Call(c.value, payload)];
      }
      assert calls == old(calls) + CallFor(table.registered, Message(topic, payload));
      if topic !in topicQueues {
        topicQueues := topicQueues[topic := []];
      }
      topicQueues := topicQueues[topic := topicQueues[topic] + [Message(topic, payload)]];
      assert Queued(topicQueues, topic) == [Message(topic, payload)];
      Dispatch(topic, alive);
    }

    /** Empties the queue of a topic, whatever is in it, and prunes the topic's subscribers. */
    method Dispatch(topic: Str, alive: set<Conn>)
      requires table.Valid()
      modifies this`topicQueues, this`subscribers, this`wire
      ensures topicQueues == old(topicQueues)[topic := []]
      ensures var live := Live(Subscribers(old(subscribers), topic), alive);
              && wire == old(wire) + Deliveries(Queued(old(topicQueues), topic), live)
              && (Queued(old(topicQueues), topic) == [] ==> subscribers == old(subscribers))
              && (Queued(old(topicQueues), topic) != [] ==> subscribers == old(subscribers)[topic := live])
    {
      hide Live;
      // queue and subs stand for the references into the two maps
      var queue := Queued(topicQueues, topic);
      topicQueues := topicQueues[topic := []];
      if queue == [] {
        return;
      }
      var subs := Subscribers(subscribers, topic);
      ghost var live := Live(subs, alive);
      ghost var all := queue;
      LiveIsIdempotent(subs, alive);
      while queue != []
        invariant Live(subs, alive) == live && Live(live, alive) == live
        invariant queue == [] ==> subs == live
        invariant wire + Deliveries(queue, live) == old(wire) + Deliveries(all, live)
        decreases |queue|
        modifies this`wire
      {
        var message := queue[0];
        queue := queue[1..];
        subs := SendToSubscribers(message, subs, alive);
      }
      subscribers := subscribers[topic := subs];
    }

    /** The inner loop: sends to whoever can be locked, and erases the others in place. */
    method SendToSubscribers(message: Message, before: seq<Conn>, alive: set<Conn>) returns (subs: seq<Conn>)
      modifies this`wire
      ensures subs == Live(before, alive)
      ensures wire == old(wire) + ToAll(message, Live(before, alive))
    {
      hide Live;
      subs := before;
      var i := 0;
      ghost var seen := 0;
      NobodyIsLive(alive);
      while i < |subs|
        invariant seen <= |before|
        invariant subs == Live(before[..seen], alive) + before[seen..]
        invariant i == |Live(before[..seen], alive)|
        invariant wire == old(wire) + ToAll(message, Live(before[..seen], alive))
        decreases |before| - seen
      {
        var conn := subs[i];
        LiveTakesOneMore(before, alive, seen);
        if conn in alive {
          wire := wire + [Sent(conn, message)];
          i := i + 1;
        } else {
          subs := subs[..i] + subs[i + 1..];
        }
        seen := seen + 1;
      }
      assert before[..seen] == before;
    }
  }
}
