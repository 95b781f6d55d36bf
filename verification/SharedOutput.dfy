/**
 * All clients of src/mqtt_server.cpp build their packets in one static buffer. Here the
 * connections and queues are objects with that buffer between them, and each turns out to do
 * what it would do with a buffer of its own.
 */
module SharedOutput {
  import opened Bytes
  import opened MessageQueue
  import opened Packet
  import opened Reassembly
  import opened Reader
  import opened Topics
  import opened Retained
  import opened Broker
  import opened BrokerInvariant
  import opened Streams

  datatype Action =
    | SendPublish(topic: seq<byte>, data: seq<byte>, qos: int, retain: int)
    | SendAck(kind: int, id: word, codes: seq<byte>)
    | Fetch

  /** An action, and the client that it concerns. */
  datatype Deed = Deed(client: nat, action: Action)

  /** What a client has for itself: its id counter and its ring. */
  datatype Own = Own(counter: word, ring: seq<byte>)

  /** The acknowledgements that the broker builds fit the buffer. */
  predicate Possible(a: Action, room: nat) {
    a.SendAck? ==> HEADER + 2 + |a.codes| <= room
  }

  /** One action of a client whose buffer of `room` bytes nobody else uses. */
  function Act(o: Own, size: nat, room: nat, a: Action): Own
    requires |o.ring| <= size
  {
    match a
    case SendPublish(topic, data, qos, retain) =>
      var built := PublishMessage(room, topic, data, qos, retain, o.counter);
      Own(built.counter, PutContents(o.ring, size, built.message))
    case SendAck(kind, id, codes) =>
      var built := AckMessage(kind, id, codes, o.counter);
      Own(built.counter, PutContents(o.ring, size, built.message))
    case Fetch =>
      o.(ring := Exec(o.ring, size, Gets(room, false)).0)
  }

  predicate Fit(vs: seq<Own>, size: nat) {
    forall i :: 0 <= i < |vs| ==> |vs[i].ring| <= size
  }

  predicate Doable(deeds: seq<Deed>, clients: nat, room: nat) {
    forall d :: d in deeds ==> d.client < clients && Possible(d.action, room)
  }

  lemma ActFits(o: Own, size: nat, room: nat, a: Action)
    requires |o.ring| <= size
    ensures |Act(o, size, room, a).ring| <= size
  {
  }

  /** All clients after one deed of one of them. */
  function Turn(vs: seq<Own>, size: nat, room: nat, d: Deed): (r: seq<Own>)
    requires Fit(vs, size) && d.client < |vs|
    ensures |r| == |vs| && Fit(r, size)
  {
    ActFits(vs[d.client], size, room, d.action);
    vs[d.client := Act(vs[d.client], size, room, d.action)]
  }

  /** All clients after the deeds, in turn. */
  function Turns(vs: seq<Own>, size: nat, room: nat, deeds: seq<Deed>): (r: seq<Own>)
    requires Fit(vs, size) && Doable(deeds, |vs|, room)
    ensures |r| == |vs| && Fit(r, size)
    decreases |deeds|
  {
    if deeds == [] then vs else Turns(Turn(vs, size, room, deeds[0]), size, room, deeds[1..])
  }

  /** A client after its own share of `deeds`, as if it were alone. */
  function Alone(o: Own, size: nat, room: nat, k: nat, deeds: seq<Deed>): Own
    requires |o.ring| <= size
    decreases |deeds|
  {
    if deeds == [] then o
    else
      ActFits(o, size, room, deeds[0].action);
      Alone(if deeds[0].client == k then Act(o, size, room, deeds[0].action) else o, size, room, k, deeds[1..])
  }

  /** Each client ends with the ring and the id counter that its own deeds alone give. */
  lemma {:induction false} Undisturbed(vs: seq<Own>, size: nat, room: nat, deeds: seq<Deed>, k: nat)
    requires Fit(vs, size) && Doable(deeds, |vs|, room) && k < |vs|
    ensures Turns(vs, size, room, deeds)[k] == Alone(vs[k], size, room, k, deeds)
    decreases |deeds|
  {
    if deeds != [] {
      Undisturbed(Turn(vs, size, room, deeds[0]), size, room, deeds[1..], k);
    }
  }

  function OwnOf(c: Client): Own {
    Own(c.counter, c.ring)
  }

  /** What the broker's steps do to a client's record is such an action on what it has for itself. */
  lemma BrokerActs(c: Client, topic: seq<byte>, data: seq<byte>, qos: int, retain: int, kind: int, id: word, codes: seq<byte>)
    ensures OwnOf(PublishTo(c, topic, data, qos, retain)) == Act(OwnOf(c), QSIZE, BUF, SendPublish(topic, data, qos, retain))
    ensures OwnOf(Ack(c, kind, id, codes)) == Act(OwnOf(c), QSIZE, BUF, SendAck(kind, id, codes))
    ensures OwnOf(Take(c).0) == Act(OwnOf(c), QSIZE, BUF, Fetch)
  {
  }

  // ---------------------------------------------------------------- the sending steps of the broker

  function Views(cs: seq<Client>): (vs: seq<Own>)
    ensures |vs| == |cs| && Fit(vs, QSIZE)
  {
    seq(|cs|, i requires 0 <= i < |cs| => OwnOf(cs[i]))
  }

  /** What one publication has the clients do, slot by slot from `k` on. */
  function FanoutDeeds(b: Broker, topic: seq<byte>, data: seq<byte>, k: nat): seq<Deed>
    decreases |b.slots| - k
  {
    if |b.slots| <= k then []
    else if !Hit(b.slots[k], topic) then FanoutDeeds(b, topic, data, k + 1)
    else
      var b1 := PublishSlot(b, b.slots[k], topic, data);
      (match b.slots[k].owner
       case Local => []
       case Con(h) => if Has(b, h) then [Deed(At(b.clients, h), SendPublish(topic, data, b.slots[k].qos, 0))] else [])
      + FanoutDeeds(b1, topic, data, k + 1)
  }

  lemma OneTurn(b: Broker, h: nat, c: Client, a: Action)
    requires Has(b, h) && c.h == h && OwnOf(c) == Act(OwnOf(Get(b, h)), QSIZE, BUF, a)
    ensures Turn(Views(b.clients), QSIZE, BUF, Deed(At(b.clients, h), a)) == Views(Put(b, h, c).clients)
  {
  }

  lemma {:induction false} FanoutTurns(b: Broker, topic: seq<byte>, data: seq<byte>, k: nat)
    ensures var deeds := FanoutDeeds(b, topic, data, k);
            && Doable(deeds, |b.clients|, BUF)
            && Turns(Views(b.clients), QSIZE, BUF, deeds) == Views(Fanout(b, topic, data, k).clients)
    decreases |b.slots| - k
  {
    if k < |b.slots| {
      if !Hit(b.slots[k], topic) {
        FanoutTurns(b, topic, data, k + 1);
      } else {
        var b1 := PublishSlot(b, b.slots[k], topic, data);
        FanoutTurns(b1, topic, data, k + 1);
        var more := FanoutDeeds(b1, topic, data, k + 1);
        if b.slots[k].owner.Con? && Has(b, b.slots[k].owner.h) {
          var h := b.slots[k].owner.h;
          var a := SendPublish(topic, data, b.slots[k].qos, 0);
          BrokerActs(Get(b, h), topic, data, b.slots[k].qos, 0, PUBACK, 0, []);
          OneTurn(b, h, PublishTo(Get(b, h), topic, data, b.slots[k].qos, 0), a);
          FirstTurn(Views(b.clients), Deed(At(b.clients, h), a), more);
        } else {
          assert [] + more == more;
        }
      }
    }
  }

  lemma FirstTurn(vs: seq<Own>, d: Deed, more: seq<Deed>)
    requires Fit(vs, QSIZE) && d.client < |vs| && Possible(d.action, BUF) && Doable(more, |vs|, BUF)
    ensures Doable([d] + more, |vs|, BUF)
    ensures Turns(vs, QSIZE, BUF, [d] + more) == Turns(Turn(vs, QSIZE, BUF, d), QSIZE, BUF, more)
  {
    assert ([d] + more)[1..] == more;
  }

  /** A PUBLISH that has arrived whole. */
  predicate Publishes(b: Broker, h: nat, chunk: seq<byte>)
    requires Has(b, h)
  {
    Get(b, h).state == MqttData && Get(b, h).read == 0 && WholePacket(chunk) && Kind(chunk) == PUBLISH
  }

  /**
   * The steps that queue or take messages and are considered here: local publications and
   * subscriptions, PUBLISH packets that arrive whole, and MQTT_ServerTask on a connection that
   * has not been refused.
   */
  predicate Sends(b: Broker, e: Event) {
    match e
    case LocalPublish(_, _, _, _, _) => true
    case LocalSubscribe(_) => true
    case LocalUnsubscribe(_) => true
    case Chunk(h, chunk, _) => Has(b, h) && Publishes(b, h, chunk)
    case Task(h, _, _) => Has(b, h) && Get(b, h).state != TcpDisconnecting
    case _ => false
  }

  /** The broker with the chunk in in_buffer and counted. */
  function Arrived(b: Broker, h: nat, p: seq<byte>): Broker
    requires Has(b, h) && WholePacket(p)
  {
    var c := Get(b, h);
    Put(b, h, c.(inBuf := p + c.inBuf[|p|..], read := |p|, dispatched := c.dispatched + [p]))
  }

  function PublishDeeds(b: Broker, buf: InBuffer): seq<Deed> {
    match PublishTopic(buf, BUF)
    case None => []
    case Some(t) => if Head(CStr(t), DOLLAR) then [] else FanoutDeeds(b, CStr(t), PayloadOf(buf), 0)
  }

  function StepDeeds(b: Broker, e: Event): seq<Deed>
    requires Sends(b, e)
  {
    if Halted(b) then []
    else
      match e
      case LocalPublish(topic, data, _, _, _) => FanoutDeeds(b, topic, data, 0)
      case Chunk(h, chunk, _) => PublishDeeds(Arrived(b, h, chunk), chunk + Get(b, h).inBuf[|chunk|..])
      case Task(h, _, _) =>
        var c := Get(b, h);
        if c.state == MqttData && c.ring != [] && c.sendTimeout == 0 then [Deed(At(b.clients, h), Fetch)] else []
      case _ => []
  }

  lemma PublishTurns(b: Broker, buf: InBuffer, mem: Mem)
    ensures var deeds := PublishDeeds(b, buf);
            && Doable(deeds, |b.clients|, BUF)
            && Turns(Views(b.clients), QSIZE, BUF, deeds) == Views(HandlePublish(b, buf, mem).clients)
  {
    match PublishTopic(buf, BUF)
    case None =>
    case Some(t) => FanoutTurns(b, CStr(t), PayloadOf(buf), 0);
  }

  /** A change of the record that is not about ring and counter does not show. */
  lemma SameViews(b: Broker, h: nat, c: Client)
    requires Has(b, h) && OwnOf(c) == OwnOf(Get(b, h))
    ensures Views(Put(b, h, c).clients) == Views(b.clients)
  {
  }

  lemma ChunkTurns(b: Broker, h: nat, chunk: seq<byte>, inputs: seq<Input>)
    requires Inv(b) && Has(b, h) && Publishes(b, h, chunk)
    ensures var deeds := PublishDeeds(Arrived(b, h, chunk), chunk + Get(b, h).inBuf[|chunk|..]);
            && Doable(deeds, |b.clients|, BUF)
            && Turns(Views(b.clients), QSIZE, BUF, deeds) == Views(ReceiveChunk(b, h, chunk, inputs).clients)
  {
    WholeChunk(b, h, chunk, inputs);
    var b0 := Arrived(b, h, chunk);
    var buf := chunk + Get(b, h).inBuf[|chunk|..];
    SameViews(b, h, Get(b, h).(inBuf := buf, read := |chunk|, dispatched := Get(b, h).dispatched + [chunk]));
    PutGet(b, h, Get(b, h).(inBuf := buf, read := |chunk|, dispatched := Get(b, h).dispatched + [chunk]));
    assert buf[0] == chunk[0];
    PublishTurns(b0, buf, NextInput(inputs).own);
    var b1 := HandlePublish(b0, buf, NextInput(inputs).own);
    SameViews(b1, h, Finish(Get(b1, h), |chunk|, |chunk|));
  }

  /** A sending step is those deeds, on what each client has for itself. */
  lemma StepTurns(b: Broker, e: Event)
    requires Inv(b) && Sends(b, e)
    ensures var deeds := StepDeeds(b, e);
            && Doable(deeds, |b.clients|, BUF)
            && Turns(Views(b.clients), QSIZE, BUF, deeds) == Views(Step(b, e).clients)
  {
    if !Halted(b) {
      match e
      case LocalPublish(topic, data, _, _, _) => FanoutTurns(b, topic, data, 0);
      case Chunk(h, chunk, inputs) => ChunkTurns(b, h, chunk, inputs);
      case Task(h, room, mem) => TaskTurns(b, h, room, mem);
      case _ =>
    }
  }

  lemma TaskTurns(b: Broker, h: nat, room: nat, mem: Mem)
    requires Has(b, h) && Get(b, h).state != TcpDisconnecting
    ensures var c := Get(b, h);
            var deeds := if c.state == MqttData && c.ring != [] && c.sendTimeout == 0 then [Deed(At(b.clients, h), Fetch)] else [];
            && Doable(deeds, |b.clients|, BUF)
            && Turns(Views(b.clients), QSIZE, BUF, deeds) == Views(RunTask(b, h, room, mem).clients)
  {
    var c := Get(b, h);
    if c.state == MqttData {
      var c1 := Attempt(c, room).0;
      if c.ring != [] && c.sendTimeout == 0 {
        BrokerActs(c, [], [], 0, 0, PUBACK, 0, []);
        OneTurn(b, h, c1, Fetch);
        FirstTurn(Views(b.clients), Deed(At(b.clients, h), Fetch), []);
        assert [Deed(At(b.clients, h), Fetch)] + [] == [Deed(At(b.clients, h), Fetch)];
      } else {
        SameViews(b, h, c1);
      }
    }
  }

  ghost predicate AllSend(b: Broker, es: seq<Event>)
    decreases |es|
  {
    es == [] || (Sends(b, es[0]) && AllSend(Step(b, es[0]), es[1..]))
  }

  /** The deeds of a run of sending steps. */
  ghost function RunDeeds(b: Broker, es: seq<Event>): seq<Deed>
    requires AllSend(b, es)
    decreases |es|
  {
    if es == [] then [] else StepDeeds(b, es[0]) + RunDeeds(Step(b, es[0]), es[1..])
  }

  lemma {:induction false} TurnsJoin(vs: seq<Own>, a: seq<Deed>, more: seq<Deed>)
    requires Fit(vs, QSIZE) && Doable(a, |vs|, BUF) && Doable(more, |vs|, BUF)
    ensures Doable(a + more, |vs|, BUF)
    ensures Turns(vs, QSIZE, BUF, a + more) == Turns(Turns(vs, QSIZE, BUF, a), QSIZE, BUF, more)
    decreases |a|
  {
    if a == [] {
      assert a + more == more;
    } else {
      assert (a + more)[1..] == a[1..] + more;
      TurnsJoin(Turn(vs, QSIZE, BUF, a[0]), a[1..], more);
    }
  }

  /** A run of sending steps is the deeds of its steps, in order. */
  lemma {:induction false} RunTurns(b: Broker, es: seq<Event>)
    requires Inv(b) && AllSend(b, es)
    ensures Doable(RunDeeds(b, es), |b.clients|, BUF)
    ensures Turns(Views(b.clients), QSIZE, BUF, RunDeeds(b, es)) == Views(Run(b, es).clients)
    decreases |es|
  {
    if es != [] {
      var b1 := Step(b, es[0]);
      StepKeeps(b, es[0]);
      StepTurns(b, es[0]);
      RunTurns(b1, es[1..]);
      TurnsJoin(Views(b.clients), StepDeeds(b, es[0]), RunDeeds(b1, es[1..]));
    }
  }

  /** Over such a run, each client ends with the ring and counter that its own share of it gives. */
  lemma RunUndisturbed(b: Broker, es: seq<Event>, k: nat)
    requires Inv(b) && AllSend(b, es) && k < |b.clients|
    ensures |Run(b, es).clients| == |b.clients|
    ensures OwnOf(Run(b, es).clients[k]) == Alone(OwnOf(b.clients[k]), QSIZE, BUF, k, RunDeeds(b, es))
  {
    RunTurns(b, es);
    Undisturbed(Views(b.clients), QSIZE, BUF, RunDeeds(b, es), k);
    assert |Views(Run(b, es).clients)| == |b.clients|;
    assert Views(Run(b, es).clients)[k] == OwnOf(Run(b, es).clients[k]);
  }

  class Outlet {
    const conn: Connection
    const queue: Queue

    ghost predicate Valid(shared: array<byte>)
      reads this, conn, queue, queue.rb, queue.rb.mem
    {
      conn.Valid() && queue.Valid() && conn.buffer == shared && queue.rb.mem != shared
    }

    ghost function View(): Own
      requires conn.Valid() && queue.Valid()
      reads this, conn, queue, queue.rb, queue.rb.mem
    {
      Own(conn.messageId, queue.rb.Contents())
    }

    /** MQTT_server_initClientCon, as far as sending goes. */
    constructor (shared: array<byte>, queueSize: nat)
      requires HEADER <= shared.Length < 0x1_0000 && 2 <= queueSize
      ensures Valid(shared) && View() == Own(0, []) && queue.rb.mem.Length == queueSize
      ensures fresh(conn) && fresh(queue) && fresh(queue.rb) && fresh(queue.rb.mem)
    {
      conn := new Connection(shared);
      queue := new Queue(queueSize);
    }

    /** Queueing the message just built. */
    method QueueMessage()
      requires Valid(conn.buffer)
      modifies queue.rb, queue.rb.mem
      ensures Valid(conn.buffer)
      ensures View() == old(View()).(ring := PutContents(old(View()).ring, queue.rb.mem.Length, old(conn.Message())))
    {
      var m := conn.buffer[conn.start..conn.start + conn.length];
      var _ := queue.Puts(m);
    }

    /** `dataBuffer` is where the messages taken from any queue are put. */
    method Do(a: Action, dataBuffer: array<byte>)
      requires Valid(conn.buffer) && Possible(a, conn.buffer.Length)
      requires dataBuffer.Length == conn.buffer.Length && dataBuffer != queue.rb.mem && dataBuffer != conn.buffer
      modifies conn, conn.buffer, queue.rb, queue.rb.mem, dataBuffer
      ensures Valid(conn.buffer)
      ensures View() == Act(old(View()), queue.rb.mem.Length, conn.buffer.Length, a)
    {
      match a
      case SendPublish(topic, data, qos, retain) =>
        conn.MsgPublish(topic, data, qos, retain);
        QueueMessage();
      case SendAck(kind, id, codes) =>
        conn.MsgAck(kind, id, codes);
        QueueMessage();
      case Fetch =>
        var _, _ := queue.Gets(dataBuffer, dataBuffer.Length, false);
    }
  }

  /** The clients share the two static buffers and nothing else; `vs` is what they hold. */
  ghost predicate Hold(os: seq<Outlet>, shared: array<byte>, dataBuffer: array<byte>, size: nat, vs: seq<Own>)
    reads Footprint(os)
  {
    && shared != dataBuffer && shared.Length == dataBuffer.Length && |vs| == |os| && Fit(vs, size)
    && (forall i :: 0 <= i < |os| ==>
          os[i].Valid(shared) && os[i].queue.rb.mem != dataBuffer && os[i].queue.rb.mem.Length == size && os[i].View() == vs[i])
    && (forall i, j :: 0 <= i < j < |os| ==>
          os[i].conn != os[j].conn && os[i].queue.rb != os[j].queue.rb && os[i].queue.rb.mem != os[j].queue.rb.mem)
  }

  ghost function Footprint(os: seq<Outlet>): set<object> {
    (set i | 0 <= i < |os| :: os[i] as object)
    + (set i | 0 <= i < |os| :: os[i].conn as object)
    + (set i | 0 <= i < |os| :: os[i].queue as object)
    + (set i | 0 <= i < |os| :: os[i].queue.rb as object)
    + (set i | 0 <= i < |os| :: os[i].queue.rb.mem as object)
  }

  method DoOne(os: seq<Outlet>, shared: array<byte>, dataBuffer: array<byte>, d: Deed, ghost size: nat, ghost vs: seq<Own>)
    requires Hold(os, shared, dataBuffer, size, vs)
    requires d.client < |os| && Possible(d.action, shared.Length)
    modifies Footprint(os), shared, dataBuffer
    ensures Hold(os, shared, dataBuffer, size, Turn(vs, size, shared.Length, d))
  {
    var o := os[d.client];
    o.Do(d.action, dataBuffer);
    forall i | 0 <= i < |os|
      ensures os[i].Valid(shared) && os[i].View() == Turn(vs, size, shared.Length, d)[i]
    {
      var p := os[i];
      if i != d.client {
        assert p.conn != o.conn && p.queue.rb != o.queue.rb && p.queue.rb.mem != o.queue.rb.mem;
        assert p.Valid(shared) && p.View() == old(p.View());
      }
    }
  }

  /** Whatever the clients do in turn, the objects end as the values say. */
  method DoAll(os: seq<Outlet>, shared: array<byte>, dataBuffer: array<byte>, deeds: seq<Deed>, ghost size: nat, ghost vs: seq<Own>)
    requires Hold(os, shared, dataBuffer, size, vs)
    requires Doable(deeds, |os|, shared.Length)
    modifies Footprint(os), shared, dataBuffer
    ensures Hold(os, shared, dataBuffer, size, Turns(vs, size, shared.Length, deeds))
  {
    var n := 0;
    ghost var now := vs;
    assert deeds[0..] == deeds;
    while n < |deeds|
      invariant 0 <= n <= |deeds|
      invariant Hold(os, shared, dataBuffer, size, now)
      invariant Turns(now, size, shared.Length, deeds[n..]) == Turns(vs, size, shared.Length, deeds)
    {
      assert deeds[n..][0] == deeds[n] && deeds[n..][1..] == deeds[n + 1..];
      DoOne(os, shared, dataBuffer, deeds[n], size, now);
      now := Turn(now, size, shared.Length, deeds[n]);
      n := n + 1;
    }
  }

  /**
   * The objects, sharing one output buffer, carry out a run of the broker's sending steps: in
   * the end they hold what the clients' records have.
   */
  method DoRun(os: seq<Outlet>, shared: array<byte>, dataBuffer: array<byte>, deeds: seq<Deed>, ghost b: Broker, ghost es: seq<Event>)
    requires Inv(b) && AllSend(b, es) && deeds == RunDeeds(b, es) && shared.Length == BUF
    requires Hold(os, shared, dataBuffer, QSIZE, Views(b.clients))
    modifies Footprint(os), shared, dataBuffer
    ensures Hold(os, shared, dataBuffer, QSIZE, Views(Run(b, es).clients))
  {
    RunTurns(b, es);
    DoAll(os, shared, dataBuffer, deeds, QSIZE, Views(b.clients));
  }
}
