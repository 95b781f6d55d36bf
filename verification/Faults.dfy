/** The fault of a will that matches a subscription of its own connection is reachable. */
module Faults {
  import opened Bytes
  import opened Packet
  import opened Reader
  import opened Reassembly
  import opened Topics
  import opened TopicList
  import opened Broker
  import opened BrokerInvariant
  import opened Publishing
  import opened Streams
  import opened Subscribing
  import opened Connecting

  lemma {:induction false} HitCounts(slots: seq<Slot>, owner: Owner, topic: seq<byte>, k: nat, j: nat)
    requires k <= j < |slots| && Hit(slots[j], topic) && slots[j].owner == owner
    ensures 0 < Hits(slots, owner, topic, k)
    decreases j - k
  {
    if k < j {
      HitCounts(slots, owner, topic, k + 1, j);
    }
  }

  /** Names without wildcards are valid, and match themselves. */
  lemma PlainMatchesItself(t: seq<byte>)
    requires !HasWildcards(t)
    ensures ValidName(t) && Matches(t, true, t)
  {
  }

  /** A topic that a client can have as its will and as a filter. */
  predicate Ordinary(t: seq<byte>) {
    t != [] && 0 !in t && !HasWildcards(t) && !Head(t, DOLLAR) && |t| <= 60
  }

  function OwnSubscription(t: seq<byte>): seq<byte> {
    SubscribeRequest(1, [Request(t, 0)])
  }

  lemma BuiltIsWhole(kind: int, qos: int, body: seq<byte>)
    requires |body| <= 127 && 0 <= kind < 16
    ensures var p := Build(kind, 0, qos, 0, body); WholePacket(p) && |p| == 2 + |body| && Kind(p) == kind
  {
    var p := Build(kind, 0, qos, 0, body);
    HeaderReadsBack(kind, 0, qos, 0, body, p, |p|);
    assert p[1] < 0x80;
  }

  lemma SubscriptionSize(t: seq<byte>)
    requires Ordinary(t)
    ensures var rs := [Request(t, 0)]; |EncodeRequests(rs)| == 3 + |t| && AllPlain(rs)
    ensures WholePacket(OwnSubscription(t)) && Kind(OwnSubscription(t)) == SUBSCRIBE && |OwnSubscription(t)| == 7 + |t|
  {
    var rs := [Request(t, 0)];
    assert rs[1..] == [];
    assert EncodeRequests(rs) == Str(t) + [0] + EncodeRequests([]);
    var body := Word16(1) + EncodeRequests(rs);
    assert |body| == 5 + |t|;
    BuiltIsWhole(SUBSCRIBE, 1, body);
  }

  /** A SUBSCRIBE to the own will's topic, with a slot left: from then on the will hits its connection. */
  lemma SubscribesToItself(b: Broker, h: nat, t: seq<byte>, inp: Input)
    requires Inv(b) && Has(b, h) && Get(b, h).state == MqttData && Get(b, h).will.topic == Some(t) && Ordinary(t)
    requires OwnSubscription(t) <= Get(b, h).inBuf && FirstFree(b.slots) < |b.slots|
    ensures var r := HandleSubscribe(b, h, |OwnSubscription(t)|, inp);
            r.Continue? && Has(r.b, h) && HitsItself(r.b, h) && r.b.fault == b.fault && r.b.stuck == b.stuck
  {
    var rs := [Request(t, 0)];
    var c := Get(b, h);
    SubscriptionSize(t);
    SubscribeIsAnswered(b, h, 1, rs, inp);
    PlainMatchesItself(t);
    assert rs[1..] == [];
    var k := FirstFree(b.slots);
    var slots' := b.slots[k := Sub(Con(h), t, 0)];
    assert SubscribeAll(b.slots, h, rs).0 == slots';
    HitCounts(slots', Con(h), t, 0, k);
    var c1 := Enqueue(c, Build(SUBACK, 0, 0, 0, Word16(1) + SubscribeAll(b.slots, h, rs).1));
    var (ms, end) := RetainedMessages(Matched(b.retained, t), c1.counter);
    QueueingKeepsWill(c1, ms);
    PutGet(b.(slots := slots'), h, EnqueueAll(c1, ms).(counter := end));
  }

  lemma {:induction false} QueueingKeepsWill(c: Client, ms: seq<seq<byte>>)
    ensures EnqueueAll(c, ms).will == c.will
    decreases |ms|
  {
    if ms != [] {
      QueueingKeepsWill(Enqueue(c, ms[0]), ms[1..]);
    }
  }

  /** The same for the chunk that brings that SUBSCRIBE. */
  lemma ChunkSubscribesToItself(b: Broker, h: nat, t: seq<byte>)
    requires Inv(b) && !Halted(b) && Has(b, h) && Get(b, h).state == MqttData && Get(b, h).read == 0
    requires Get(b, h).will.topic == Some(t) && Ordinary(t) && FirstFree(b.slots) < |b.slots|
    ensures var b1 := Step(b, Chunk(h, OwnSubscription(t), []));
            Inv(b1) && !Halted(b1) && Has(b1, h) && HitsItself(b1, h)
  {
    var p := OwnSubscription(t);
    SubscriptionSize(t);
    WholeChunk(b, h, p, []);
    var c := Get(b, h);
    var b0 := Put(b, h, c.(inBuf := p + c.inBuf[|p|..], read := |p|, dispatched := c.dispatched + [p]));
    PutGet(b, h, Get(b0, h));
    assert Get(b0, h).inBuf[0] == p[0];
    SubscribesToItself(b0, h, t, DEFAULT_INPUT);
    var r := HandleSubscribe(b0, h, |p|, DEFAULT_INPUT);
    PutGet(r.b, h, Finish(Get(r.b, h), |p|, |p|));
    StepKeeps(b, Chunk(h, p, []));
  }

  /** Then the end of the connection is a fault. */
  lemma OwnWillFaults(b: Broker, h: nat, t: seq<byte>, mem: Retained.Mem)
    requires Inv(b) && !Halted(b) && Has(b, h) && Get(b, h).state == MqttData && Get(b, h).read == 0
    requires Get(b, h).will.topic == Some(t) && Ordinary(t) && FirstFree(b.slots) < |b.slots|
    ensures Run(b, [Chunk(h, OwnSubscription(t), []), Gone(h, mem)]).fault
  {
    ChunkSubscribesToItself(b, h, t);
    DeleteFaults(Step(b, Chunk(h, OwnSubscription(t), [])), h, mem);
    RunTwo(b, Chunk(h, OwnSubscription(t), []), Gone(h, mem));
  }

  lemma RunTwo(b: Broker, e: Event, f: Event)
    ensures Run(b, [e, f]) == Step(Step(b, e), f)
  {
    assert [e, f][1..] == [f] && [f][1..] == [];
    assert Run(Step(b, e), [f]) == Run(Step(Step(b, e), f), []);
  }

  // ---------------------------------------------------------------- from the start

  /** Client `x` with the will `t`. */
  function WillInfo(t: seq<byte>): ConnectInfo {
    ConnectInfo(Some(['x' as int]), 0, true, 60, t, [1], false, 0, [], [])
  }

  lemma WillInfoFits(t: seq<byte>)
    requires Ordinary(t)
    ensures var info := WillInfo(t);
            && Plain(info) && WillOk(info) && CredentialsOk(info) && |ConnectBody(info)| == 18 + |t|
            && WholePacket(ConnectPacket(info)) && Kind(ConnectPacket(info)) == CONNECT
  {
    var info := WillInfo(t);
    assert |WillFields(info)| == 2 + |t| + 3 && Credentials(info) == [];
    assert |Str(IdBytes(info))| == 3;
    var body := ConnectBody(info);
    assert |body| == 18 + |t|;
    BuiltIsWhole(CONNECT, 0, body);
  }

  /** While nobody else is connected, an accepted CONNECT changes the client's record alone. */
  lemma ConnectAlone(b: Broker, h: nat, info: ConnectInfo, inp: Input)
    requires |b.clients| == 1 && Has(b, h) && Get(b, h).id == [] && inp.auth
    requires Plain(info) && |info.id.value| <= 80 && |ConnectBody(info)| <= 127 && ConnectPacket(info) <= Get(b, h).inBuf
    requires WillOk(info) && CredentialsOk(info)
    ensures var b' := HandleConnect(b, h, |ConnectPacket(info)|, inp).b; b' == b.(clients := b'.clients)
  {
    var buf, len := Get(b, h).inBuf, |ConnectPacket(info)|;
    var hd := ConnectHeader(4, 10, ConnectFlags(info), info.keepalive % 0x1_0000);
    assert |ConnectBody(info)| >= 13;
    HeadReads(buf, info);
    IdReads(buf, len, info, hd);
    var f := IdField(info.id.value, Some(CStr(buf[14..])), 12 + |info.id.value|);
    ConnectGoesOn(b, h, len, hd, f, inp);
    var b1 := Put(b, h, Get(b, h).(cleanSession := hd.flags / 2 % 2 == 1, keepalive := hd.keepalive));
    PutGet(b, h, Get(b1, h));
    assert b1.clients[0].id == [];
    assert AtId(b1.clients, CStr(buf[14..])) == 1;
    assert DeleteById(b1, CStr(buf[14..]), inp.takeover) == b1;
    RestAlone(b1, h, len, info, f, inp);
  }

  /** What is left of an accepted CONNECT, once the id is read. */
  lemma RestAlone(b: Broker, h: nat, len: nat, info: ConnectInfo, f: IdField, inp: Input)
    requires Has(b, h) && inp.auth && WillOk(info) && CredentialsOk(info) && 0 !in info.willTopic
    requires FieldsAt(Get(b, h).inBuf, len, f.used, WillFields(info) + Credentials(info))
    ensures var b' := AfterId(b, h, len, ConnectHeader(4, 10, ConnectFlags(info), info.keepalive % 0x1_0000), f, inp).b;
            b' == b.(clients := b'.clients)
  {
    var buf := Get(b, h).inBuf;
    WillReads(buf, len, f.used, info);
    CredentialsRead(buf, len, ReadWill(buf, len, ConnectFlags(info), f.used).used, info);
  }

  /** The only client's CONNECT. */
  lemma OpensAlone(b: Broker, t: seq<byte>)
    requires Inv(b) && !Halted(b) && |b.clients| == 1 && Has(b, 0) && Ordinary(t)
    requires Get(b, 0).state == TcpConnected && Get(b, 0).id == [] && Get(b, 0).read == 0
    ensures var b' := Step(b, Chunk(0, ConnectPacket(WillInfo(t)), []));
            && Inv(b') && !Halted(b') && b'.slots == b.slots && Has(b', 0)
            && Get(b', 0).state == MqttData && Get(b', 0).read == 0 && Get(b', 0).will.topic == Some(t)
  {
    var p := ConnectPacket(WillInfo(t));
    WillInfoFits(t);
    WholeChunk(b, 0, p, []);
    var c := Get(b, 0);
    var b0 := Put(b, 0, c.(inBuf := p + c.inBuf[|p|..], read := |p|, dispatched := c.dispatched + [p]));
    PutGet(b, 0, Get(b0, 0));
    assert Get(b0, 0).inBuf[0] == p[0];
    ConnectRoundTrip(b0, 0, WillInfo(t), DEFAULT_INPUT);
    ConnectAlone(b0, 0, WillInfo(t), DEFAULT_INPUT);
    var r := HandleConnect(b0, 0, |p|, DEFAULT_INPUT);
    PutGet(r.b, 0, Finish(Get(r.b, 0), |p|, |p|));
    StepKeeps(b, Chunk(0, p, []));
  }

  /** The first connection, and its CONNECT. */
  lemma FirstClient(b: Broker, t: seq<byte>)
    requires Inv(b) && !Halted(b) && b.clients == [] && b.next == 0 && Ordinary(t)
    ensures var b' := Step(Step(b, Connection), Chunk(0, ConnectPacket(WillInfo(t)), []));
            && Inv(b') && !Halted(b') && b'.slots == b.slots && Has(b', 0)
            && Get(b', 0).state == MqttData && Get(b', 0).read == 0 && Get(b', 0).will.topic == Some(t)
  {
    FirstAccepted(b);
    OpensAlone(Accept(b), t);
  }

  lemma FirstAccepted(b: Broker)
    requires Inv(b) && b.clients == [] && b.next == 0
    ensures var b' := Accept(b); Inv(b') && |b'.clients| == 1 && Has(b', 0) && Get(b', 0) == NewClient(0)
  {
    AcceptKeeps(b);
    AtIs(Accept(b).clients, 0, 0);
  }

  /** Connect with the will `t`, subscribe to it, drop the connection. */
  function OwnWillRun(t: seq<byte>, mem: Retained.Mem): seq<Event> {
    [Connection, Chunk(0, ConnectPacket(WillInfo(t)), [])] + [Chunk(0, OwnSubscription(t), []), Gone(0, mem)]
  }

  lemma OwnWillRunFaults(b: Broker, t: seq<byte>, mem: Retained.Mem)
    requires Inv(b) && !Halted(b) && b.clients == [] && b.next == 0 && Ordinary(t) && FirstFree(b.slots) < |b.slots|
    ensures Run(b, OwnWillRun(t, mem)).fault
  {
    FirstClient(b, t);
    var open := Chunk(0, ConnectPacket(WillInfo(t)), []);
    OwnWillFaults(Step(Step(b, Connection), open), 0, t, mem);
    RunTwo(b, Connection, open);
    RunJoin(b, [Connection, open], [Chunk(0, OwnSubscription(t), []), Gone(0, mem)]);
  }

  /**
   * From the start of the broker: one client connects with a will, subscribes to its topic, and
   * drops the connection. For every ordinary topic that is a fault, as long as there is a slot.
   */
  lemma FaultIsReachable(slots: nat, retained: nat, t: seq<byte>, mem: Retained.Mem)
    requires Ordinary(t) && 0 < slots
    ensures Run(Start(slots, retained), OwnWillRun(t, mem)).fault
  {
    var b := Start(slots, retained);
    assert b.slots[0] == Free;
    OwnWillRunFaults(b, t, mem);
  }
}
