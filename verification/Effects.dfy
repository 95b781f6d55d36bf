/**
 * What a stream of packets does to the broker, however it is cut into chunks and whatever
 * shares the buffer with a packet: the packets' effects one after the other, and nothing else.
 */
module Effects {
  import opened Bytes
  import opened Packet
  import opened Reader
  import opened Reassembly
  import opened Topics
  import opened TopicList
  import opened Retained
  import opened Broker
  import opened BrokerInvariant
  import opened Publishing
  import opened Streams
  import opened Subscribing

  // ---------------------------------------------------------------- packets and what they are to do

  /** A packet past CONNECT that leaves the connection. */
  datatype Item =
    | Pub(topic: seq<byte>, data: payload, qos: byte, retain: int, id: word)
    | Ping
    | Subs(sid: word, rs: seq<Request>)
    | Unsubs(uid: word, fs: seq<seq<byte>>)

  function Wire(p: Item): seq<byte> {
    match p
    case Pub(topic, data, qos, retain, id) => PublishPacket(topic, data, qos, retain, id)
    case Ping => [0xC0, 0]
    case Subs(id, rs) => SubscribeRequest(id, rs)
    case Unsubs(id, fs) => Build(UNSUBSCRIBE, 0, 1, 0, Word16(id) + EncodeFilters(fs))
  }

  predicate ItemOk(p: Item) {
    match p
    case Pub(topic, data, qos, retain, id) => topic != [] && 0 !in topic && qos < 4 && |Wire(p)| <= BUF
    case Ping => true
    case Subs(id, rs) =>
      id != 0 && rs != [] && Subscribing.AllPlain(Taken(rs)) && 4 <= |EncodeRequests(rs)| <= 125
    case Unsubs(id, fs) => id != 0 && fs != [] && PlainFilters(fs) && |EncodeFilters(fs)| <= 125
  }

  predicate AllOk(ps: seq<Item>) {
    ps == [] || (ItemOk(ps[0]) && AllOk(ps[1..]))
  }

  function Wires(ps: seq<Item>): seq<seq<byte>> {
    if ps == [] then [] else [Wire(ps[0])] + Wires(ps[1..])
  }

  /** A copy of `m` to each client for each of its slots that the topic matches. */
  function ServeAll(cs: seq<Client>, slots: seq<Slot>, topic: seq<byte>, m: seq<byte>): seq<Client> {
    seq(|cs|, i requires 0 <= i < |cs| => EnqueueTimes(cs[i], m, Hits(slots, Con(cs[i].h), topic, 0)))
  }

  /** A publication: the copies `m` to all subscribers, and the retained map is updated if that is asked for. */
  function Publication(b: Broker, m: seq<byte>, topic: seq<byte>, data: payload, qos: byte, retain: bool, mem: Mem): Broker {
    b.(clients := ServeAll(b.clients, b.slots, topic, m),
       local := b.local + Repeat(Delivery(topic, data), Hits(b.slots, Local, topic, 0)),
       retained := if retain then Update(b.retained, topic, data, qos, mem).0 else b.retained)
  }

  /** What one packet of connection `h` is to do. */
  function Effect(b: Broker, h: nat, p: Item, mem: Mem): Broker {
    if !Has(b, h) then b
    else
      var c := Get(b, h);
      match p
      case Pub(topic, data, qos, retain, _) =>
        if Head(topic, DOLLAR) then b else Publication(b, PublishPacket(topic, data, 0, 0, 0), topic, data, qos, retain % 2 == 1, mem)
      case Ping => Put(b, h, Enqueue(c, [0xD0, 0]))
      case Subs(id, rs) =>
        if rs == [] then b
        else
          var (slots', codes) := SubscribeAll(b.slots, h, Taken(rs));
          var (ms, end) := RetainedMessages(Matched(b.retained, LastTaken(rs)), c.counter);
          var suback := Build(SUBACK, 0, 0, 0, Word16(id) + codes);
          Put(b.(slots := slots'), h, EnqueueAll(Enqueue(c, suback), ms).(counter := end))
      case Unsubs(id, fs) =>
        Put(b.(slots := DropAll(b.slots, h, fs)), h, Enqueue(c, [0xB0, 2, id / 0x100, id % 0x100]))
  }

  /** One packet after the other, each with its own input. */
  function EffectAll(b: Broker, h: nat, ps: seq<Item>, inputs: seq<Input>): Broker
    decreases |ps|
  {
    if ps == [] then b
    else EffectAll(Effect(b, h, ps[0], NextInput(inputs).own), h, ps[1..], LaterInputs(inputs))
  }

  // ---------------------------------------------------------------- without the bytes received

  /** The record without what belongs to receiving. */
  function Core(c: Client): (r: Client)
    ensures r.h == c.h
  {
    c.(inBuf := seq(BUF, _ => 0), read := 0, dispatched := [], connTimeout := 0)
  }

  function Cores(cs: seq<Client>): (r: seq<Client>)
    ensures |r| == |cs| && forall i :: 0 <= i < |cs| ==> r[i] == Core(cs[i])
  {
    seq(|cs|, i requires 0 <= i < |cs| => Core(cs[i]))
  }

  function View(b: Broker): Broker {
    b.(clients := Cores(b.clients))
  }

  lemma ViewGet(b: Broker, h: nat)
    ensures At(View(b).clients, h) == At(b.clients, h)
    ensures Has(b, h) ==> Get(View(b), h) == Core(Get(b, h))
  {
    SameHandles(b.clients, View(b).clients, h);
  }

  lemma ViewPut(b: Broker, h: nat, c: Client)
    requires Has(b, h) && c.h == h
    ensures Has(View(b), h) && View(Put(b, h, c)) == Put(View(b), h, Core(c))
  {
    ViewGet(b, h);
    assert View(Put(b, h, c)).clients == Put(View(b), h, Core(c)).clients;
  }

  /** Receiving alone is not seen. */
  lemma ViewSame(b: Broker, h: nat, c: Client)
    requires Has(b, h) && c.h == h && Core(c) == Core(Get(b, h))
    ensures View(Put(b, h, c)) == View(b)
  {
    ViewPut(b, h, c);
    ViewGet(b, h);
    assert Put(View(b), h, Core(c)).clients == View(b).clients;
  }

  lemma {:induction false} CoreTimes(c: Client, m: seq<byte>, n: nat)
    ensures Core(EnqueueTimes(c, m, n)) == EnqueueTimes(Core(c), m, n)
    decreases n
  {
    if n > 0 {
      assert Core(Enqueue(c, m)) == Enqueue(Core(c), m);
      CoreTimes(Enqueue(c, m), m, n - 1);
    }
  }

  lemma {:induction false} CoreAll(c: Client, ms: seq<seq<byte>>)
    ensures Core(EnqueueAll(c, ms)) == EnqueueAll(Core(c), ms)
    decreases |ms|
  {
    if ms != [] {
      assert Core(Enqueue(c, ms[0])) == Enqueue(Core(c), ms[0]);
      CoreAll(Enqueue(c, ms[0]), ms[1..]);
    }
  }

  // ---------------------------------------------------------------- one packet

  lemma ServedView(cs: seq<Client>, cs': seq<Client>, slots: seq<Slot>, topic: seq<byte>, m: seq<byte>)
    requires Served(cs, cs', slots, topic, m, 0)
    ensures Cores(cs') == ServeAll(Cores(cs), slots, topic, m)
  {
    forall i | 0 <= i < |cs|
      ensures Core(cs'[i]) == EnqueueTimes(Core(cs[i]), m, Hits(slots, Con(Core(cs[i]).h), topic, 0))
    {
      CoreTimes(cs[i], m, Hits(slots, Con(cs[i].h), topic, 0));
    }
  }

  lemma PublicationView(b: Broker, b1: Broker, b': Broker, m: seq<byte>, topic: seq<byte>, data: payload, qos: byte, retain: bool, mem: Mem)
    requires Served(b.clients, b1.clients, b.slots, topic, m, 0)
    requires b1 == b.(clients := b1.clients, local := b.local + Repeat(Delivery(topic, data), Hits(b.slots, Local, topic, 0)))
    requires b' == if retain then UpdateRetained(b1, topic, data, qos, mem) else b1
    ensures View(b') == Publication(View(b), m, topic, data, qos, retain, mem)
  {
    ServedView(b.clients, b1.clients, b.slots, topic, m);
  }

  lemma FannedOut(b: Broker, topic: seq<byte>, data: payload, m: seq<byte>)
    requires Inv(b) && m == Copy(topic, data)
    ensures var b1 := Fanout(b, topic, data, 0);
            && Served(b.clients, b1.clients, b.slots, topic, m, 0)
            && b1 == b.(clients := b1.clients, local := b.local + Repeat(Delivery(topic, data), Hits(b.slots, Local, topic, 0)))
  {
    FanoutServes(b, topic, data);
    OwnedSlotsAreSafe(b, topic, data);
  }

  lemma PassedOn(b: Broker, buf: InBuffer, topic: seq<byte>, data: payload, qos: byte, retain: int, id: word, mem: Mem)
    requires Inv(b) && topic != [] && 0 !in topic && !Head(topic, DOLLAR) && qos < 4
    requires PublishPacket(topic, data, qos, retain, id) <= buf
    ensures Copy(topic, data) == PublishPacket(topic, data, 0, 0, 0)
    ensures View(HandlePublish(b, buf, mem)) == Publication(View(b), Copy(topic, data), topic, data, qos, retain % 2 == 1, mem)
  {
    PublishIsPassedOn(b, buf, topic, data, qos, retain, id, mem);
    var m := Copy(topic, data);
    FannedOut(b, topic, data, m);
    PublicationView(b, Fanout(b, topic, data, 0), HandlePublish(b, buf, mem), m, topic, data, qos, retain % 2 == 1, mem);
  }

  /** A PUBLISH at the head of in_buffer is that publication, whatever follows it there. */
  lemma PubEffect(b: Broker, h: nat, p: Item, mem: Mem)
    requires Inv(b) && Has(b, h) && p.Pub? && ItemOk(p) && Wire(p) <= Get(b, h).inBuf
    ensures View(HandlePublish(b, Get(b, h).inBuf, mem)) == Effect(View(b), h, p, mem)
  {
    var buf := Get(b, h).inBuf;
    ViewGet(b, h);
    if Head(p.topic, DOLLAR) {
      PublishReadsBack(p.topic, p.data, p.qos, p.retain, p.id, buf, BUF);
    } else {
      PassedOn(b, buf, p.topic, p.data, p.qos, p.retain, p.id, mem);
    }
  }

  /** Queueing for the connection, together with a change of the slots. */
  lemma QueuedView(b: Broker, slots: seq<Slot>, h: nat, m: seq<byte>)
    requires Has(b, h)
    ensures Has(View(b), h)
    ensures View(Put(b.(slots := slots), h, Enqueue(Get(b, h), m))) == Put(View(b).(slots := slots), h, Enqueue(Get(View(b), h), m))
  {
    var c := Get(b, h);
    ViewGet(b, h);
    ViewPut(b.(slots := slots), h, Enqueue(c, m));
    assert Core(Enqueue(c, m)) == Enqueue(Core(c), m);
  }

  lemma AllQueuedView(b: Broker, slots: seq<Slot>, h: nat, m: seq<byte>, ms: seq<seq<byte>>, end: word)
    requires Has(b, h)
    ensures Has(View(b), h)
    ensures View(Put(b.(slots := slots), h, EnqueueAll(Enqueue(Get(b, h), m), ms).(counter := end))) ==
            Put(View(b).(slots := slots), h, EnqueueAll(Enqueue(Get(View(b), h), m), ms).(counter := end))
  {
    var c := Get(b, h);
    ViewGet(b, h);
    ViewPut(b.(slots := slots), h, EnqueueAll(Enqueue(c, m), ms).(counter := end));
    CoreAll(Enqueue(c, m), ms);
    assert Core(Enqueue(c, m)) == Enqueue(Core(c), m);
  }

  lemma PingEffect(b: Broker, h: nat, mem: Mem)
    requires Has(b, h)
    ensures View(Put(b, h, Enqueue(Get(b, h), Build(PINGRESP, 0, 0, 0, [])))) == Effect(View(b), h, Ping, mem)
  {
    assert Build(PINGRESP, 0, 0, 0, []) == [0xD0, 0];
    QueuedView(b, b.slots, h, [0xD0, 0]);
  }

  /** What a SUBSCRIBE is to do, given what storing its filters and matching the last one come to. */
  lemma SubsIs(v: Broker, h: nat, p: Item, mem: Mem)
    requires Has(v, h) && p.Subs? && p.rs != []
    ensures var (slots', codes) := SubscribeAll(v.slots, h, Taken(p.rs));
            var suback := Build(SUBACK, 0, 0, 0, Word16(p.sid) + codes);
            var (ms, end) := RetainedMessages(Matched(v.retained, LastTaken(p.rs)), Get(v, h).counter);
            Effect(v, h, p, mem) == Put(v.(slots := slots'), h, EnqueueAll(Enqueue(Get(v, h), suback), ms).(counter := end))
  {
  }

  lemma SubsEffect(b: Broker, h: nat, p: Item, inp: Input)
    requires Has(b, h) && p.Subs? && ItemOk(p) && Wire(p) <= Get(b, h).inBuf
    ensures |Wire(p)| <= BUF
    ensures var r := HandleSubscribe(b, h, |Wire(p)|, inp);
            r.Continue? && View(r.b) == Effect(View(b), h, p, inp.own)
  {
    var (slots', codes) := SubscribeAll(b.slots, h, Taken(p.rs));
    var suback := Build(SUBACK, 0, 0, 0, Word16(p.sid) + codes);
    var (ms, end) := RetainedMessages(Matched(b.retained, LastTaken(p.rs)), Get(b, h).counter);
    SubscribeIsAnswered(b, h, p.sid, p.rs, inp);
    AllQueuedView(b, slots', h, suback, ms, end);
    ViewGet(b, h);
    SubsIs(View(b), h, p, inp.own);
  }

  lemma UnsubackBytes(id: word)
    ensures Build(UNSUBACK, 0, 0, 0, Word16(id) + []) == [0xB0, 2, id / 0x100, id % 0x100]
  {
    var body := Word16(id) + [];
    assert body == [id / 0x100, id % 0x100];
    assert Build(UNSUBACK, 0, 0, 0, body) == [0xB0] + [2] + body;
  }

  lemma UnsubsEffect(b: Broker, h: nat, p: Item, inp: Input)
    requires Has(b, h) && p.Unsubs? && ItemOk(p) && Wire(p) <= Get(b, h).inBuf
    ensures |Wire(p)| <= BUF
    ensures var r := HandleUnsubscribe(b, h, |Wire(p)|, inp);
            r.Continue? && View(r.b) == Effect(View(b), h, p, inp.own)
  {
    UnsubscribeIsAnswered(b, h, p.uid, p.fs, inp);
    var slots' := HandleUnsubscribe(b, h, |Wire(p)|, inp).b.slots;
    SameDropped(b.slots, slots', h, p.fs);
    UnsubackBytes(p.uid);
    QueuedView(b, slots', h, [0xB0, 2, p.uid / 0x100, p.uid % 0x100]);
  }

  lemma SameDropped(slots: seq<Slot>, slots': seq<Slot>, h: nat, fs: seq<seq<byte>>)
    requires Unsubscribed(slots, slots', h, fs)
    ensures slots' == DropAll(slots, h, fs)
  {
    DropAllIs(slots, h, fs);
  }

  // ---------------------------------------------------------------- one round of the loop

  lemma BuildIsWhole(kind: int, qos: int, retain: int, body: seq<byte>)
    requires |Build(kind, 0, qos, retain, body)| <= BUF && 0 <= kind < 16
    ensures WholePacket(Build(kind, 0, qos, retain, body)) && Kind(Build(kind, 0, qos, retain, body)) == kind
  {
    var p := Build(kind, 0, qos, retain, body);
    HeaderReadsBack(kind, 0, qos, retain, body, p, |p|);
    if 127 < |body| {
      assert p[2] == |body| / 128 < 0x80;
    } else {
      assert p[1] < 0x80;
    }
  }

  function KindOf(p: Item): int {
    match p
    case Pub(_, _, _, _, _) => PUBLISH
    case Ping => PINGREQ
    case Subs(_, _) => SUBSCRIBE
    case Unsubs(_, _) => UNSUBSCRIBE
  }

  lemma WireIsWhole(p: Item)
    requires ItemOk(p)
    ensures WholePacket(Wire(p)) && Kind(Wire(p)) == KindOf(p)
  {
    match p
    case Pub(topic, data, qos, retain, id) => BuildIsWhole(PUBLISH, qos, retain, PublishBody(topic, data, qos, id));
    case Ping => BuildIsWhole(PINGREQ, 0, 0, []); assert Wire(p) == Build(PINGREQ, 0, 0, 0, []);
    case Subs(id, rs) => BuildIsWhole(SUBSCRIBE, 1, 0, Word16(id) + EncodeRequests(rs));
    case Unsubs(id, fs) => BuildIsWhole(UNSUBSCRIBE, 1, 0, Word16(id) + EncodeFilters(fs));
  }

  /** Which of the four handles the packet. */
  lemma HandlerOf(b: Broker, h: nat, p: Item, len: Count, inp: Input, r: Handled)
    requires Has(b, h) && Get(b, h).state == MqttData && Kind(Get(b, h).inBuf) == KindOf(p)
    requires match p
             case Pub(_, _, _, _, _) => r == Continue(HandlePublish(b, Get(b, h).inBuf, inp.own))
             case Ping => r == Continue(Put(b, h, Enqueue(Get(b, h), Build(PINGRESP, 0, 0, 0, []))))
             case Subs(_, _) => r == HandleSubscribe(b, h, len, inp)
             case Unsubs(_, _) => r == HandleUnsubscribe(b, h, len, inp)
    ensures Handle(b, h, len, inp) == r
  {
  }

  lemma HandleItem(b: Broker, h: nat, p: Item, inp: Input) returns (r: Handled)
    requires Inv(b) && Has(b, h) && Get(b, h).state == MqttData && ItemOk(p) && Wire(p) <= Get(b, h).inBuf
    ensures |Wire(p)| <= BUF && r == Handle(b, h, |Wire(p)|, inp)
    ensures r.Continue? && View(r.b) == Effect(View(b), h, p, inp.own)
  {
    WireIsWhole(p);
    assert Kind(Get(b, h).inBuf) == KindOf(p);
    match p {
      case Pub(_, _, _, _, _) =>
        r := Continue(HandlePublish(b, Get(b, h).inBuf, inp.own));
        PubEffect(b, h, p, inp.own);
      case Ping =>
        r := Continue(Put(b, h, Enqueue(Get(b, h), Build(PINGRESP, 0, 0, 0, []))));
        PingEffect(b, h, inp.own);
      case Subs(_, _) =>
        r := HandleSubscribe(b, h, |Wire(p)|, inp);
        SubsEffect(b, h, p, inp);
      case Unsubs(_, _) =>
        r := HandleUnsubscribe(b, h, |Wire(p)|, inp);
        UnsubsEffect(b, h, p, inp);
    }
    HandlerOf(b, h, p, |Wire(p)|, inp, r);
  }

  /** The connection is past CONNECT and nothing has stopped the broker; `pending` waits in in_buffer. */
  ghost predicate Ready(b: Broker, h: nat, pending: seq<byte>) {
    Inv(b) && Has(b, h) && Get(b, h).state == MqttData && !Halted(b) && Pending(Get(b, h)) == pending
  }

  lemma EffectKeepsFlags(v: Broker, h: nat, p: Item, mem: Mem)
    ensures Effect(v, h, p, mem).stuck == v.stuck && Effect(v, h, p, mem).fault == v.fault
  {
  }

  /** What is at the head, and how long READPACKET takes it to be. */
  lemma ItemAtHead(c: Client, p: Item, more: seq<byte>)
    requires ItemOk(p) && Pending(c) == Wire(p) + more
    ensures 0 < |Wire(p)| && MessageLength(c) == |Wire(p)| && c.read == |Wire(p)| + |more| && Wire(p) <= c.inBuf && Pending(c)[|Wire(p)|..] == more
  {
    WireIsWhole(p);
    SameLength(c);
    FirstPacket(Wire(p), more);
    assert c.inBuf[..c.read][..|Wire(p)|] == Wire(p);
  }

  function Seen(c: Client, len: Count): (r: Client)
    ensures r.h == c.h && Pending(r) == Pending(c)
  {
    c.(dispatched := c.dispatched + [c.inBuf[..len]])
  }

  lemma SeenReady(b: Broker, h: nat, len: Count)
    requires Inv(b) && Has(b, h)
    ensures var b0 := Put(b, h, Seen(Get(b, h), len));
            && Inv(b0) && Has(b0, h) && Get(b0, h) == Seen(Get(b, h), len) && View(b0) == View(b)
  {
    PutKeeps(b, h, Seen(Get(b, h), len), None);
    PutGet(b, h, Seen(Get(b, h), len));
    ViewSame(b, h, Seen(Get(b, h), len));
  }

  /** The packet is handled, whatever is behind it. */
  lemma ItemHandled(b: Broker, h: nat, p: Item, inp: Input)
    requires Inv(b) && Has(b, h) && Get(b, h).state == MqttData && ItemOk(p) && Wire(p) <= Get(b, h).inBuf
    ensures |Wire(p)| <= BUF
    ensures var r := Handle(b, h, |Wire(p)|, inp);
            && r.Continue? && Inv(r.b) && Has(r.b, h) && r.b.stuck == b.stuck && Get(r.b, h).state == MqttData
            && SameInput(Get(b, h), Get(r.b, h), |Wire(p)|)
            && View(r.b) == Effect(View(b), h, p, inp.own)
  {
    var r := HandleItem(b, h, p, inp);
    HandleSound(b, h, |Wire(p)|, inp);
    assert StateStep(Get(b, h).state, Get(r.b, h).state);
  }

  /** READPACKET puts the buffer in order and goes on if there is more. */
  lemma ItemFinished(b: Broker, h: nat, c: Client, len: Count)
    requires Inv(b) && Has(b, h) && Get(b, h).state == MqttData && !Halted(b)
    requires SameInput(c, Get(b, h), len) && len <= c.read
    ensures var b1 := Put(b, h, Finish(Get(b, h), c.read, len));
            Ready(b1, h, Pending(c)[len..]) && Get(b1, h).read == c.read - len && View(b1) == View(b)
  {
    FinishedPending(b, h, c, len);
    ViewSame(b, h, Finish(Get(b, h), c.read, len));
  }

  /** One round, when it is known how the packet is handled. */
  lemma RoundIs(b: Broker, h: nat, inputs: seq<Input>, len: Count, r: Handled)
    requires Has(b, h) && MessageLength(Get(b, h)) == len <= Get(b, h).read && len != 0
    requires Has(Put(b, h, Seen(Get(b, h), len)), h)
    requires r == Handle(Put(b, h, Seen(Get(b, h), len)), h, len, NextInput(inputs))
    requires r.Closed? || (Has(r.b, h) && Has(Put(r.b, h, Finish(Get(r.b, h), Get(b, h).read, len)), h)
                           && Get(Put(r.b, h, Finish(Get(r.b, h), Get(b, h).read, len)), h).read == Get(b, h).read - len)
    ensures ReadPackets(b, h, inputs) ==
            if r.Closed? then r.b
            else
              var b1 := Put(r.b, h, Finish(Get(r.b, h), Get(b, h).read, len));
              if len < Get(b, h).read then ReadPackets(b1, h, LaterInputs(inputs)) else b1
  {
  }

  /** One packet, handled where it lies, with `more` behind it. */
  lemma OneItem(b: Broker, h: nat, p: Item, more: seq<byte>, inputs: seq<Input>) returns (b1: Broker)
    requires ItemOk(p) && Ready(b, h, Wire(p) + more)
    ensures Ready(b1, h, more) && View(b1) == Effect(View(b), h, p, NextInput(inputs).own)
    ensures ReadPackets(b, h, inputs) == if more != [] then ReadPackets(b1, h, LaterInputs(inputs)) else b1
  {
    var c, len, inp := Get(b, h), |Wire(p)|, NextInput(inputs);
    ItemAtHead(c, p, more);
    SeenReady(b, h, len);
    ItemHandled(Put(b, h, Seen(c, len)), h, p, inp);
    var r := Handle(Put(b, h, Seen(c, len)), h, len, inp);
    EffectKeepsFlags(View(b), h, p, inp.own);
    ItemFinished(r.b, h, Seen(c, len), len);
    b1 := Put(r.b, h, Finish(Get(r.b, h), c.read, len));
    RoundIs(b, h, inputs, len, r);
  }

  // ---------------------------------------------------------------- a stream of packets in one buffer

  lemma NothingYet(b: Broker, h: nat, more: seq<byte>, inputs: seq<Input>)
    requires Ready(b, h, more) && more != [] && Waits(more)
    ensures ReadPackets(b, h, inputs) == b
  {
    SameLength(Get(b, h));
  }

  lemma WiresAreThere(ps: seq<Item>)
    requires AllOk(ps)
    ensures Concat(Wires(ps)) == [] <==> ps == []
  {
    if ps != [] {
      WireIsWhole(ps[0]);
    }
  }

  /** The loop does what the packets are to do, one after the other, and keeps what waits behind them. */
  lemma {:induction false} ReadItems(b: Broker, h: nat, ps: seq<Item>, more: seq<byte>, inputs: seq<Input>)
    requires AllOk(ps) && Waits(more) && (ps != [] || more != [])
    requires Ready(b, h, Concat(Wires(ps)) + more)
    ensures var b' := ReadPackets(b, h, inputs);
            Ready(b', h, more) && View(b') == EffectAll(View(b), h, ps, inputs)
    decreases |ps|
  {
    if ps == [] {
      assert Concat(Wires(ps)) + more == more;
      NothingYet(b, h, more, inputs);
    } else {
      var rest := Concat(Wires(ps[1..])) + more;
      Associate(Wire(ps[0]), Concat(Wires(ps[1..])), more);
      var b1 := OneItem(b, h, ps[0], rest, inputs);
      WiresAreThere(ps[1..]);
      if rest != [] {
        ReadItems(b1, h, ps[1..], more, LaterInputs(inputs));
      }
    }
  }

  /** DISCONNECT. */
  const BYE: seq<byte> := [0xE0, 0]

  /** What is left when connection `h` has said that it goes: neither its slots, nor a will published. */
  function Departed(b: Broker, h: nat): Broker {
    if !Has(b, h) then b
    else b.(clients := Remove(b, h).clients, slots := Unsubscribe(b.slots, Some(Con(h)), None))
  }

  lemma ViewRemoved(b: Broker, h: nat)
    requires Has(b, h)
    ensures View(b.(clients := Remove(b, h).clients, slots := Unsubscribe(b.slots, Some(Con(h)), None))) == Departed(View(b), h)
  {
    ViewGet(b, h);
    var i := At(b.clients, h);
    assert Cores(b.clients[..i] + b.clients[i + 1..]) == Cores(b.clients)[..i] + Cores(b.clients)[i + 1..];
  }

  lemma PutRemoved(b: Broker, h: nat, c: Client)
    requires Has(b, h) && c.h == h
    ensures Has(Put(b, h, c), h) && Remove(Put(b, h, c), h).clients == Remove(b, h).clients
  {
    PutGet(b, h, c);
  }

  lemma ByeHandled(b: Broker, h: nat, inp: Input)
    requires Has(b, h) && Get(b, h).state == MqttData && Get(b, h).inBuf[0] == 0xE0
    ensures var r := Handle(b, h, 2, inp);
            r.Closed? && r.b == b.(clients := Remove(b, h).clients, slots := Unsubscribe(b.slots, Some(Con(h)), None))
  {
    var c := Get(b, h);
    var c1 := c.(will := c.will.(topic := None));
    PutGet(b, h, c1);
    PutRemoved(b, h, c1);
  }

  lemma ByeAtHead(c: Client, more: seq<byte>)
    requires Pending(c) == BYE + more
    ensures c.inBuf[0] == 0xE0 && MessageLength(c) == 2 <= c.read
  {
    BuildIsWhole(DISCONNECT, 0, 0, []);
    assert Build(DISCONNECT, 0, 0, 0, []) == BYE;
    SameLength(c);
    FirstPacket(BYE, more);
    assert c.inBuf[0] == Pending(c)[0];
  }

  /** With a DISCONNECT at the head the connection departs, whatever is behind it. */
  lemma ReadBye(b: Broker, h: nat, more: seq<byte>, inputs: seq<Input>)
    requires Ready(b, h, BYE + more)
    ensures var b' := ReadPackets(b, h, inputs);
            View(b') == Departed(View(b), h) && !Has(b', h) && !Halted(b')
  {
    var c := Get(b, h);
    ByeAtHead(c, more);
    SeenReady(b, h, 2);
    var b0 := Put(b, h, Seen(c, 2));
    ByeHandled(b0, h, NextInput(inputs));
    RoundIs(b, h, inputs, 2, Handle(b0, h, 2, NextInput(inputs)));
    RemoveShape(b0, h);
    ViewRemoved(b0, h);
  }

  lemma {:induction false} ReadItemsThenBye(b: Broker, h: nat, ps: seq<Item>, more: seq<byte>, inputs: seq<Input>)
    requires AllOk(ps) && Ready(b, h, Concat(Wires(ps)) + (BYE + more))
    ensures var b' := ReadPackets(b, h, inputs);
            View(b') == Departed(EffectAll(View(b), h, ps, inputs), h) && !Has(b', h) && !Halted(b')
    decreases |ps|
  {
    if ps == [] {
      assert Concat(Wires(ps)) + (BYE + more) == BYE + more;
      ReadBye(b, h, more, inputs);
    } else {
      var rest := Concat(Wires(ps[1..])) + (BYE + more);
      Associate(Wire(ps[0]), Concat(Wires(ps[1..])), BYE + more);
      var b1 := OneItem(b, h, ps[0], rest, inputs);
      assert rest != [];
      ReadItemsThenBye(b1, h, ps[1..], more, LaterInputs(inputs));
    }
  }

  // ---------------------------------------------------------------- chunks

  lemma ChunkCopied(b: Broker, h: nat, rest: seq<byte>, chunk: seq<byte>)
    requires Ready(b, h, rest) && |rest + chunk| <= BUF
    ensures |chunk| + Get(b, h).read <= BUF
    ensures var b0 := Put(b, h, CopyIn(Get(b, h), chunk));
            && Ready(b0, h, rest + chunk) && View(b0) == View(b)
            && forall inputs :: 2 <= |chunk| ==> Step(b, Chunk(h, chunk, inputs)) == ReadPackets(b0, h, inputs)
  {
    var c1 := CopyIn(Get(b, h), chunk);
    PutKeeps(b, h, c1, None);
    PutGet(b, h, c1);
    ViewSame(b, h, c1);
    assert Pending(c1) == rest + chunk;
  }

  /**
   * One chunk that completes the packets `ps`, with what waited before it: it does what they
   * are to do, one after the other, and nothing else. `more` waits in its turn.
   */
  lemma ChunkOfPackets(b: Broker, h: nat, rest: seq<byte>, chunk: seq<byte>, ps: seq<Item>, more: seq<byte>, inputs: seq<Input>)
    requires AllOk(ps) && Waits(more) && Ready(b, h, rest)
    requires 2 <= |chunk| && rest + chunk == Concat(Wires(ps)) + more && |rest + chunk| <= BUF
    ensures var b' := Step(b, Chunk(h, chunk, inputs));
            Ready(b', h, more) && View(b') == EffectAll(View(b), h, ps, inputs)
  {
    ChunkCopied(b, h, rest, chunk);
    ReadItems(Put(b, h, CopyIn(Get(b, h), chunk)), h, ps, more, inputs);
  }

  /** The same when the packets are followed by a DISCONNECT, and by anything. */
  lemma ChunkThenBye(b: Broker, h: nat, rest: seq<byte>, chunk: seq<byte>, ps: seq<Item>, more: seq<byte>, inputs: seq<Input>)
    requires AllOk(ps) && Ready(b, h, rest)
    requires 2 <= |chunk| && rest + chunk == Concat(Wires(ps)) + (BYE + more) && |rest + chunk| <= BUF
    ensures var b' := Step(b, Chunk(h, chunk, inputs));
            View(b') == Departed(EffectAll(View(b), h, ps, inputs), h) && !Has(b', h) && !Halted(b')
  {
    ChunkCopied(b, h, rest, chunk);
    ReadItemsThenBye(Put(b, h, CopyIn(Get(b, h), chunk)), h, ps, more, inputs);
  }

  // ---------------------------------------------------------------- any cut

  /** The packets complete within the first `n` bytes of the stream, and the others. */
  function Done(ps: seq<Item>, n: nat): seq<Item> {
    if ps == [] || n < |Wire(ps[0])| then [] else [ps[0]] + Done(ps[1..], n - |Wire(ps[0])|)
  }

  function Undone(ps: seq<Item>, n: nat): seq<Item> {
    if ps == [] || n < |Wire(ps[0])| then ps else Undone(ps[1..], n - |Wire(ps[0])|)
  }

  lemma {:induction false} DoneAre(ps: seq<Item>, n: nat)
    requires AllOk(ps)
    ensures Wires(Done(ps, n)) == Whole(Wires(ps), n) && Wires(Undone(ps, n)) == Todo(Wires(ps), n)
    ensures AllOk(Done(ps, n)) && AllOk(Undone(ps, n)) && AllWhole(Wires(ps))
    decreases |ps|
  {
    if ps != [] {
      assert Wires(ps)[1..] == Wires(ps[1..]);
      WireIsWhole(ps[0]);
      DoneAre(ps[1..], if n < |Wire(ps[0])| then 0 else n - |Wire(ps[0])|);
      var later := Done(ps[1..], if n < |Wire(ps[0])| then 0 else n - |Wire(ps[0])|);
      assert ([ps[0]] + later)[1..] == later;
    }
  }

  /** The inputs that are left after `n` packets. */
  function InputsAfter(inputs: seq<Input>, n: nat): seq<Input>
    decreases n
  {
    if n == 0 then inputs else InputsAfter(LaterInputs(inputs), n - 1)
  }

  lemma {:induction false} EffectsInTurn(b: Broker, h: nat, ps: seq<Item>, qs: seq<Item>, inputs: seq<Input>)
    ensures EffectAll(b, h, ps + qs, inputs) == EffectAll(EffectAll(b, h, ps, inputs), h, qs, InputsAfter(inputs, |ps|))
    decreases |ps|
  {
    if ps == [] {
      assert ps + qs == qs;
    } else {
      assert (ps + qs)[1..] == ps[1..] + qs;
      EffectsInTurn(Effect(b, h, ps[0], NextInput(inputs).own), h, ps[1..], qs, LaterInputs(inputs));
    }
  }

  /** The chunks as events, each with the inputs for the packets that it completes. */
  function ChunkEvents(h: nat, rest: seq<byte>, ps: seq<Item>, chunks: seq<seq<byte>>, inputs: seq<Input>): seq<Event>
    decreases |chunks|
  {
    if chunks == [] then []
    else
      var buf := rest + chunks[0];
      [Chunk(h, chunks[0], inputs)] +
      ChunkEvents(h, Left(Wires(ps), buf), Undone(ps, |buf|), chunks[1..], InputsAfter(inputs, |Done(ps, |buf|)|))
  }

  lemma RestOfRun(b: Broker, e: Event, es: seq<Event>)
    ensures Run(b, [e] + es) == Run(Step(b, e), es)
  {
    assert ([e] + es)[1..] == es;
  }

  lemma {:induction false} DoneInTurn(ps: seq<Item>, n: nat, k: nat)
    ensures Done(ps, n + k) == Done(ps, n) + Done(Undone(ps, n), Over(ps, n) + k)
    decreases |ps|
  {
    if ps != [] && |Wire(ps[0])| <= n {
      var w, p := |Wire(ps[0])|, ps[0];
      var first, later := Done(ps[1..], n - w), Done(Undone(ps, n), Over(ps, n) + k);
      assert Done(ps[1..], n - w + k) == first + later by {
        DoneInTurn(ps[1..], n - w, k);
      }
      assert Done(ps, n + k) == [p] + (first + later) && Done(ps, n) == [p] + first;
      Associate([p], first, later);
    }
  }

  /** How many of the first `n` bytes are behind the complete packets. */
  function Over(ps: seq<Item>, n: nat): nat {
    if ps == [] || n < |Wire(ps[0])| then n else Over(ps[1..], n - |Wire(ps[0])|)
  }

  lemma {:induction false} OverIsLeft(ps: seq<Item>, buf: seq<byte>)
    ensures |Left(Wires(ps), buf)| == Over(ps, |buf|)
    decreases |ps|
  {
    if ps != [] && |Wire(ps[0])| <= |buf| {
      assert Wires(ps)[1..] == Wires(ps[1..]);
      OverIsLeft(ps[1..], buf[|Wire(ps[0])|..]);
    }
  }

  /** From `b` to `b'` by the packets of the stream `ps` that are complete in `total`; the rest of it waits. */
  ghost predicate Came(b: Broker, h: nat, ps: seq<Item>, total: seq<byte>, inputs: seq<Input>, b': Broker) {
    Ready(b', h, Left(Wires(ps), total)) && View(b') == EffectAll(View(b), h, Done(ps, |total|), inputs)
  }

  /** The first chunk of a cut. */
  lemma CutRound(b: Broker, h: nat, rest: seq<byte>, ps: seq<Item>, chunk: seq<byte>, inputs: seq<Input>)
    requires AllOk(ps) && Ready(b, h, rest) && 2 <= |chunk| && |rest + chunk| <= BUF
    requires rest + chunk <= Concat(Wires(ps)) && Waits(Left(Wires(ps), rest + chunk))
    ensures Came(b, h, ps, rest + chunk, inputs, Step(b, Chunk(h, chunk, inputs)))
  {
    var buf := rest + chunk;
    DoneAre(ps, |buf|);
    WholeThenLeft(Wires(ps), buf);
    ChunkOfPackets(b, h, rest, chunk, Done(ps, |buf|), Left(Wires(ps), buf), inputs);
  }

  lemma CameInTurn(b: Broker, b1: Broker, b': Broker, h: nat, ps: seq<Item>, buf: seq<byte>, tail: seq<byte>, inputs: seq<Input>)
    requires AllOk(ps) && buf + tail <= Concat(Wires(ps)) && Came(b, h, ps, buf, inputs, b1)
    requires Came(b1, h, Undone(ps, |buf|), Left(Wires(ps), buf) + tail, InputsAfter(inputs, |Done(ps, |buf|)|), b')
    ensures Came(b, h, ps, buf + tail, inputs, b')
  {
    var done, todo := Done(ps, |buf|), Undone(ps, |buf|);
    SplitStream(ps, buf, tail);
    SplitDone(ps, buf, tail);
    EffectsInTurn(View(b), h, done, Done(todo, |Left(Wires(ps), buf) + tail|), inputs);
  }

  /** What is left to be cut after the first chunk, and what then comes of all of it. */
  lemma FirstOfCut(b: Broker, h: nat, rest: seq<byte>, ps: seq<Item>, chunk: seq<byte>, tail: seq<byte>, inputs: seq<Input>, es: seq<Event>)
    requires AllOk(ps) && Ready(b, h, rest) && 2 <= |chunk| && |rest + chunk| <= BUF
    requires rest + chunk + tail <= Concat(Wires(ps)) && Waits(Left(Wires(ps), rest + chunk))
    ensures var buf := rest + chunk;
            var b1, todo, left := Step(b, Chunk(h, chunk, inputs)), Undone(ps, |buf|), Left(Wires(ps), buf);
            && AllOk(todo) && Wires(todo) == Todo(Wires(ps), |buf|) && left + tail <= Concat(Wires(todo))
            && Ready(b1, h, left) && Done(todo, |left|) == []
            && (Came(b1, h, todo, left + tail, InputsAfter(inputs, |Done(ps, |buf|)|), Run(b1, es)) ==>
                Came(b, h, ps, buf + tail, inputs, Run(b, [Chunk(h, chunk, inputs)] + es)))
  {
    var buf := rest + chunk;
    var b1, todo, left := Step(b, Chunk(h, chunk, inputs)), Undone(ps, |buf|), Left(Wires(ps), buf);
    assert (buf + tail)[..|buf|] == buf;
    CutRound(b, h, rest, ps, chunk, inputs);
    SplitStream(ps, buf, tail);
    SplitDone(ps, buf, tail);
    if Came(b1, h, todo, left + tail, InputsAfter(inputs, |Done(ps, |buf|)|), Run(b1, es)) {
      CameInTurn(b, b1, Run(b1, es), h, ps, buf, tail, inputs);
      RestOfRun(b, Chunk(h, chunk, inputs), es);
    }
  }

  /** The rest of the stream, after the packets complete in `buf`. */
  lemma SplitStream(ps: seq<Item>, buf: seq<byte>, tail: seq<byte>)
    requires AllOk(ps) && buf + tail <= Concat(Wires(ps))
    ensures var todo, left := Undone(ps, |buf|), Left(Wires(ps), buf);
            && AllOk(todo) && Wires(todo) == Todo(Wires(ps), |buf|)
            && left + tail <= Concat(Wires(todo)) && Left(Wires(ps), buf + tail) == Left(Wires(todo), left + tail)
  {
    DoneAre(ps, |buf|);
    TwoSteps(Wires(ps), buf, tail);
  }

  lemma SplitDone(ps: seq<Item>, buf: seq<byte>, tail: seq<byte>)
    ensures var left := Left(Wires(ps), buf);
            && Done(Undone(ps, |buf|), |left|) == []
            && Done(ps, |buf + tail|) == Done(ps, |buf|) + Done(Undone(ps, |buf|), |left + tail|)
  {
    var left, n, k := Left(Wires(ps), buf), |buf|, |tail|;
    OverIsLeft(ps, buf);
    OverNothing(ps, n);
    assert |left| == Over(ps, n) && |left + tail| == Over(ps, n) + k && |buf + tail| == n + k;
    DoneInTurn(ps, n, k);
  }

  lemma {:induction false} OverNothing(ps: seq<Item>, n: nat)
    ensures Done(Undone(ps, n), Over(ps, n)) == []
    decreases |ps|
  {
    if ps != [] && |Wire(ps[0])| <= n {
      OverNothing(ps[1..], n - |Wire(ps[0])|);
    }
  }

  /**
   * However a stream of packets is cut: if the cut is good, the calls together do what the
   * packets completed are to do, one after the other. The cut itself makes no difference.
   */
  lemma {:induction false} AnyCutDoesTheSame(b: Broker, h: nat, rest: seq<byte>, ps: seq<Item>, chunks: seq<seq<byte>>, inputs: seq<Input>)
    requires AllOk(ps) && Ready(b, h, rest) && Done(ps, |rest|) == []
    requires GoodCut(rest, Wires(ps), chunks) && rest + Concat(chunks) <= Concat(Wires(ps))
    ensures Came(b, h, ps, rest + Concat(chunks), inputs, Run(b, ChunkEvents(h, rest, ps, chunks, inputs)))
    decreases |chunks|
  {
    if chunks == [] {
      assert rest + Concat(chunks) == rest;
      NoneDone(ps, rest);
    } else {
      var buf, tail := rest + chunks[0], Concat(chunks[1..]);
      Associate(rest, chunks[0], tail);
      var todo, left := Undone(ps, |buf|), Left(Wires(ps), buf);
      var later := InputsAfter(inputs, |Done(ps, |buf|)|);
      FirstOfCut(b, h, rest, ps, chunks[0], tail, inputs, ChunkEvents(h, left, todo, chunks[1..], later));
      AnyCutDoesTheSame(Step(b, Chunk(h, chunks[0], inputs)), h, left, todo, chunks[1..], later);
    }
  }

  lemma NoneDone(ps: seq<Item>, rest: seq<byte>)
    requires Done(ps, |rest|) == []
    ensures Left(Wires(ps), rest) == rest
  {
  }

  lemma {:induction false} DoneThenUndone(ps: seq<Item>, n: nat)
    ensures Done(ps, n) + Undone(ps, n) == ps
    decreases |ps|
  {
    if ps != [] && |Wire(ps[0])| <= n {
      DoneThenUndone(ps[1..], n - |Wire(ps[0])|);
    }
  }

  lemma NothingDone(ps: seq<Item>)
    requires AllOk(ps)
    ensures Done(ps, 0) == []
  {
    if ps != [] {
      WireIsWhole(ps[0]);
    }
  }

  lemma RunThen(b: Broker, es: seq<Event>, e: Event)
    ensures Run(b, es + [e]) == Step(Run(b, es), e)
  {
    RunJoin(b, es, [e]);
    RestOfRun(Run(b, es), e, []);
    assert [e] + [] == [e] && Run(Step(Run(b, es), e), []) == Step(Run(b, es), e);
  }

  /** With a DISCONNECT at the end of the stream: its packets do what they are to do, and the connection departs. */
  lemma AnyCutThenBye(b: Broker, h: nat, ps: seq<Item>, chunks: seq<seq<byte>>, last: seq<byte>, more: seq<byte>, inputs: seq<Input>)
    requires AllOk(ps) && Ready(b, h, []) && GoodCut([], Wires(ps), chunks) && Concat(chunks) <= Concat(Wires(ps))
    requires var total := Concat(chunks);
             var left := Left(Wires(ps), total);
             && 2 <= |last| && |left + last| <= BUF
             && left + last == Concat(Wires(Undone(ps, |total|))) + (BYE + more)
    ensures var done := Done(ps, |Concat(chunks)|);
            var es := ChunkEvents(h, [], ps, chunks, inputs) + [Chunk(h, last, InputsAfter(inputs, |done|))];
            View(Run(b, es)) == Departed(EffectAll(View(b), h, ps, inputs), h) && !Has(Run(b, es), h) && !Halted(Run(b, es))
  {
    var total := Concat(chunks);
    var done, todo := Done(ps, |total|), Undone(ps, |total|);
    var es, e := ChunkEvents(h, [], ps, chunks, inputs), Chunk(h, last, InputsAfter(inputs, |done|));
    assert [] + total == total;
    NothingDone(ps);
    AnyCutDoesTheSame(b, h, [], ps, chunks, inputs);
    DoneAre(ps, |total|);
    ChunkThenBye(Run(b, es), h, Left(Wires(ps), total), last, todo, more, InputsAfter(inputs, |done|));
    assert EffectAll(View(b), h, ps, inputs) == EffectAll(EffectAll(View(b), h, done, inputs), h, todo, InputsAfter(inputs, |done|)) by {
      DoneThenUndone(ps, |total|);
      EffectsInTurn(View(b), h, done, todo, inputs);
    }
    RunThen(b, es, e);
  }
}
