/** What the removal of a connection does to the others, step by step, and the removal that faults. */
module Removals {
  import opened Bytes
  import opened Packet
  import opened Reader
  import opened Reassembly
  import opened Retained
  import opened Broker
  import opened BrokerInvariant
  import opened Publishing
  import opened Wills
  import opened Sessions

  // ---------------------------------------------------------------- by its own packet

  /** The will that is left when a packet past CONNECT ends the connection. */
  function WillLeft(c: Client): Will {
    if Kind(c.inBuf) == DISCONNECT then c.will.(topic := None) else c.will
  }

  lemma DropsOwn(b: Broker, h: nat, c: Client, mem: Mem)
    requires Inv(b) && Has(b, h) && c.h == h && c.state == Get(b, h).state
    ensures var b1 := Put(b, h, c);
            Inv(b1) && Has(b1, h) && Get(b1, h) == c && Evolves(b, b1, h)
  {
    PutKeeps(b, h, c, None);
    PutShape(b, h, c);
    PutEvolves(b, h, c);
  }

  lemma AfterIdCloses(b: Broker, h: nat, len: nat, hd: ConnectHeader, f: IdField, inp: Input) returns (b1: Broker)
    requires Inv(b) && Has(b, h) && Get(b, h).state == TcpConnected && AfterId(b, h, len, hd, f, inp).Closed?
    ensures Inv(b1) && Has(b1, h) && Evolves(b, b1, h) && AfterId(b, h, len, hd, f, inp).b == Delete(b1, h, inp.own)
  {
    var c := Get(b, h);
    var c1 := c.(id := f.id, will := ReadWill(c.inBuf, len, hd.flags, f.used).will);
    DropsOwn(b, h, c1, inp.own);
    b1 := Put(b, h, c1);
  }

  /** A takeover and what follows it, on the record with the header read. */
  lemma TakeoverCloses(b: Broker, h: nat, len: nat, hd: ConnectHeader, f: IdField, inp: Input) returns (b1: Broker)
    requires Inv(b) && Has(b, h) && Get(b, h).state == TcpConnected
    requires var b2 := if f.key.Some? then DeleteById(b, f.key.value, inp.takeover) else b;
             Has(b2, h) && AfterId(b2, h, len, hd, f, inp).Closed?
    ensures var b2 := if f.key.Some? then DeleteById(b, f.key.value, inp.takeover) else b;
            Inv(b1) && Has(b1, h) && Evolves(b, b1, h) && AfterId(b2, h, len, hd, f, inp).b == Delete(b1, h, inp.own)
  {
    var b2 := if f.key.Some? then DeleteById(b, f.key.value, inp.takeover) else b;
    if f.key.Some? {
      DeleteByIdKeeps(b, h, f.key.value, inp.takeover);
    } else {
      FedEvolves(b, b, h);
    }
    b1 := AfterIdCloses(b2, h, len, hd, f, inp);
    EvolvesTwice(b, b2, b1, h);
  }

  /** A CONNECT that closes the connection, without a fault, removes it from some state. */
  lemma ConnectCloses(b: Broker, h: nat, len: Count, inp: Input) returns (b1: Broker)
    requires Inv(b) && Has(b, h) && Get(b, h).state == TcpConnected
    requires HandleConnect(b, h, len, inp).Closed? && !HandleConnect(b, h, len, inp).b.fault
    ensures Inv(b1) && Has(b1, h) && Evolves(b, b1, h) && HandleConnect(b, h, len, inp).b == Delete(b1, h, inp.own)
  {
    var c := Get(b, h);
    if len < 13 {
      FedEvolves(b, b, h);
      b1 := b;
    } else {
      var hd := ReadConnectHeader(c.inBuf).value;
      var c1 := c.(inBuf := ShiftHeader(c.inBuf, hd.version),
                   cleanSession := hd.flags / 2 % 2 == 1, keepalive := hd.keepalive);
      DropsOwn(b, h, c1, inp.own);
      b1 := TakeoverCloses(Put(b, h, c1), h, len, hd, ReadId(c.inBuf, len, hd).value, inp);
      EvolvesTwice(b, Put(b, h, c1), b1, h);
    }
  }

  /** So does every packet; past CONNECT the will is the one it has left. */
  lemma PacketCloses(b: Broker, h: nat, len: Count, inp: Input) returns (b1: Broker)
    requires Inv(b) && Has(b, h) && Handle(b, h, len, inp).Closed? && !Handle(b, h, len, inp).b.fault
    ensures Inv(b1) && Has(b1, h) && Evolves(b, b1, h) && Handle(b, h, len, inp).b == Delete(b1, h, inp.own)
    ensures Get(b, h).state == MqttData ==> Get(b1, h).will == WillLeft(Get(b, h))
  {
    var c := Get(b, h);
    var kind := Kind(c.inBuf);
    FedEvolves(b, b, h);
    b1 := b;
    if c.state == TcpConnected {
      if kind == CONNECT {
        b1 := ConnectCloses(b, h, len, inp);
      }
    } else if kind == SUBSCRIBE && 8 <= len {
      var w := SubscribeWalk(b.slots, h, c.inBuf, len, 4, [], []);
      SubscribeWalkKeeps(b.clients, b.slots, h, c.inBuf, len, 4, [], []);
      SlotsChange(b, w.slots, h, len);
      b1 := b.(slots := w.slots);
    } else if kind == UNSUBSCRIBE && 7 <= len {
      var w := UnsubscribeWalk(b.slots, h, c.inBuf, len, 4);
      UnsubscribeWalkKeeps(b.clients, b.slots, h, c.inBuf, len, 4);
      SlotsChange(b, w.slots, h, len);
      b1 := b.(slots := w.slots);
    } else if kind == DISCONNECT {
      DropsOwn(b, h, c.(will := c.will.(topic := None)), inp.own);
      b1 := Put(b, h, c.(will := c.will.(topic := None)));
    }
  }

  /** READPACKET that ends with the connection gone removes it from the state its last packet has come to. */
  lemma {:induction false} ChunkCloses(b: Broker, h: nat, inputs: seq<Input>) returns (b1: Broker, mem: Mem)
    requires Inv(b) && Has(b, h) && !Has(ReadPackets(b, h, inputs), h) && !ReadPackets(b, h, inputs).fault
    ensures Inv(b1) && Has(b1, h) && Evolves(b, b1, h) && ReadPackets(b, h, inputs) == Delete(b1, h, mem)
    ensures Closer(b, h, inputs).Some?
    ensures var c := Closer(b, h, inputs).value; c.state == MqttData ==> Get(b1, h).will == WillLeft(c)
    decreases Get(b, h).read
  {
    var c := Get(b, h);
    var len := MessageLength(c);
    var seen := c.(dispatched := c.dispatched + [c.inBuf[..len]]);
    var b0 := Put(b, h, seen);
    DropsOwn(b, h, seen, NextInput(inputs).own);
    HandleSound(b0, h, len, NextInput(inputs));
    var r := Handle(b0, h, len, NextInput(inputs));
    if r.Closed? {
      b1 := PacketCloses(b0, h, len, NextInput(inputs));
      mem := NextInput(inputs).own;
      EvolvesTwice(b, b0, b1, h);
    } else {
      var c1 := Finish(Get(r.b, h), c.read, len);
      DropsOwn(r.b, h, c1, NextInput(inputs).own);
      b1, mem := ChunkCloses(Put(r.b, h, c1), h, LaterInputs(inputs));
      EvolvesTwice(r.b, Put(r.b, h, c1), b1, h);
      EvolvesTwice(b0, r.b, b1, h);
      EvolvesTwice(b, b0, b1, h);
    }
  }

  // ---------------------------------------------------------------- its own steps

  /** A change to the dying connection's own record makes no difference to the others. */
  lemma RemovedBefore(b: Broker, h: nat, c: Client, mem: Mem)
    requires Inv(b) && Has(b, h) && c.h == h && c.state == Get(b, h).state && c.will == Get(b, h).will
    requires Has(Put(b, h, c), h) && !Delete(Put(b, h, c), h, mem).fault
    ensures !HitsItself(b, h) && Removed(b, h, mem, Delete(Put(b, h, c), h, mem))
  {
    var b1 := Put(b, h, c);
    DropsOwn(b, h, c, mem);
    PutShape(b, h, c);
    DeletePublishesWill(b1, h, mem);
    var i := At(b.clients, h);
    assert b1.clients[..i] == b.clients[..i] && b1.clients[i + 1..] == b.clients[i + 1..];
  }

  /**
   * A connection that ends by TCP drop, timeout or after a refusal: the others are served its
   * will, straight from the state before the step.
   */
  lemma TimelyRemovalServes(b: Broker, e: Event, g: nat)
    requires Inv(b) && Has(b, g) && !Has(Step(b, e), g) && !Step(b, e).fault
    requires e.Gone? || e.Timer? || e.Task?
    ensures e.h == g && !HitsItself(b, g) && Removed(b, g, e.mem, Step(b, e))
  {
    if e.h != g {
      OthersOwn(b, e, g);
    }
    match e
    case Gone(_, mem) => DeletePublishesWill(b, g, mem);
    case Timer(_, mem) => TickServes(b, g, mem);
    case Task(_, room, mem) => TaskServes(b, g, room, mem);
  }

  lemma TickServes(b: Broker, g: nat, mem: Mem)
    requires Inv(b) && Has(b, g) && !Has(Tick(b, g, mem), g) && !Tick(b, g, mem).fault
    ensures !HitsItself(b, g) && Removed(b, g, mem, Tick(b, g, mem))
  {
    var c := Countdown(Get(b, g));
    if c.connTimeout > 0 {
      PutGet(b, g, c.(connTimeout := c.connTimeout - 1));
    } else {
      PutGet(b, g, c);
      RemovedBefore(b, g, c, mem);
    }
  }

  lemma TaskServes(b: Broker, g: nat, room: nat, mem: Mem)
    requires Inv(b) && Has(b, g) && !Has(RunTask(b, g, room, mem), g) && !RunTask(b, g, room, mem).fault
    ensures !HitsItself(b, g) && Removed(b, g, mem, RunTask(b, g, room, mem))
  {
    var c := Attempt(Get(b, g), room).0;
    PutGet(b, g, c);
    RemovedBefore(b, g, c, mem);
  }

  /** Such a step of another connection removes that one at most. */
  lemma OthersOwn(b: Broker, e: Event, g: nat)
    requires Inv(b) && Has(b, g) && (e.Gone? || e.Timer? || e.Task?) && e.h != g
    ensures Has(Step(b, e), g)
  {
    if !Halted(b) && Has(b, e.h) {
      match e
      case Gone(h, mem) => OtherStays(b, h, g, mem);
      case Timer(h, mem) => TickStays(b, h, mem, g);
      case Task(h, room, mem) => TaskStays(b, h, room, mem, g);
    }
  }

  lemma TickStays(b: Broker, h: nat, mem: Mem, g: nat)
    requires Inv(b) && Has(b, h) && Has(b, g) && g != h
    ensures Has(Tick(b, h, mem), g)
  {
    var c := Countdown(Get(b, h));
    if c.connTimeout > 0 {
      PutShape(b, h, c.(connTimeout := c.connTimeout - 1));
    } else {
      ChangedStays(b, h, c, mem, g);
    }
  }

  lemma TaskStays(b: Broker, h: nat, room: nat, mem: Mem, g: nat)
    requires Inv(b) && Has(b, h) && Has(b, g) && g != h
    ensures Has(RunTask(b, h, room, mem), g)
  {
    ChangedStays(b, h, Attempt(Get(b, h), room).0, mem, g);
  }

  /**
   * A connection that ends by its own chunk: the removal is from the state `b1` that its last
   * packet has come to, with the will that the packet has left.
   */
  lemma ChunkRemovalServes(b: Broker, e: Event, g: nat) returns (b1: Broker, mem: Mem)
    requires Inv(b) && Has(b, g) && !Has(Step(b, e), g) && !Step(b, e).fault && e.Chunk? && e.h == g
    ensures Inv(b1) && Has(b1, g) && Evolves(b, b1, g) && Step(b, e) == Delete(b1, g, mem)
    ensures !HitsItself(b1, g) && Removed(b1, g, mem, Step(b, e))
    ensures var c := LastRecord(b, e, g);
            if OwnChunk(b, e, g) then c.state == MqttData ==> Get(b1, g).will == WillLeft(c)
            else Get(b1, g).will == c.will
  {
    var c := Get(b, g);
    if BUF < |e.chunk| + c.read {
      b1, mem := b, NextInput(e.inputs).own;
      FedEvolves(b, b, g);
    } else {
      b1, mem := OwnChunkCloses(b, g, e.chunk, e.inputs);
    }
    DeletePublishesWill(b1, g, mem);
  }

  lemma OwnChunkCloses(b: Broker, g: nat, chunk: seq<byte>, inputs: seq<Input>) returns (b1: Broker, mem: Mem)
    requires Inv(b) && Has(b, g) && |chunk| + Get(b, g).read <= BUF
    requires var b' := ReceiveChunk(b, g, chunk, inputs); !Has(b', g) && !b'.fault
    ensures Inv(b1) && Has(b1, g) && Evolves(b, b1, g) && ReceiveChunk(b, g, chunk, inputs) == Delete(b1, g, mem)
    ensures Closer(Copied(b, g, chunk), g, inputs).Some?
    ensures var c := Closer(Copied(b, g, chunk), g, inputs).value; c.state == MqttData ==> Get(b1, g).will == WillLeft(c)
  {
    DropsOwn(b, g, CopyIn(Get(b, g), chunk), DEFAULT_INPUT.own);
    var b0 := Copied(b, g, chunk);
    b1, mem := ChunkCloses(b0, g, inputs);
    EvolvesTwice(b, b0, b1, g);
  }

  // ---------------------------------------------------------------- takeover

  /** Once the takeover is done, CONNECT leaves the others in the list. */
  lemma AfterIdStays(b: Broker, h: nat, len: nat, hd: ConnectHeader, f: IdField, inp: Input, g: nat)
    requires Inv(b) && Has(b, h) && Has(b, g) && g != h && Get(b, h).state == TcpConnected
    ensures Has(AfterId(b, h, len, hd, f, inp).b, g)
  {
    var c := Get(b, h);
    var w := ReadWill(c.inBuf, len, hd.flags, f.used);
    ConnackStays(b, h, c.(id := f.id, will := w.will), ACCEPTED, inp.own, g);
    ConnackStays(b, h, c.(id := f.id, will := w.will.(topic := None)), REFUSE_AUTH, inp.own, g);
  }

  lemma ConnackStays(b: Broker, h: nat, c: Client, code: byte, mem: Mem, g: nat)
    requires Inv(b) && Has(b, h) && Has(b, g) && g != h && c.h == h && c.state == Get(b, h).state == TcpConnected
    ensures var b1 := Put(b, h, c);
            Has(b1, h) && Has(Connack(b1, h, code).b, g) && Has(Delete(b1, h, mem), g)
  {
    ChangedStays(b, h, c, mem, g);
    AnsweredStays(Put(b, h, c), h, code, g);
  }

  lemma AnsweredStays(b: Broker, h: nat, code: byte, g: nat)
    requires Has(b, h) && Has(b, g) && g != h
    ensures Has(Connack(b, h, code).b, g)
  {
    PutShape(b, h, Enqueue(Get(b, h).(state := if code == ACCEPTED then MqttData else TcpDisconnecting),
                           Build(CONNACK, 0, 0, 0, [0, code])));
  }

  /** The only packet that removes another connection is a CONNECT, which takes it over. */
  lemma TakenOver(b: Broker, h: nat, len: Count, inp: Input, g: nat) returns (b1: Broker)
    requires Inv(b) && Has(b, h) && Has(b, g) && g != h && !Has(Handle(b, h, len, inp).b, g)
    ensures Inv(b1) && Has(b1, g) && Get(b1, g) == Get(b, g) && b1.slots == b.slots && (b1.fault <==> b.fault)
    ensures Evolves(Delete(b1, g, inp.takeover), Handle(b, h, len, inp).b, h)
  {
    var c := Get(b, h);
    if c.state != TcpConnected || Kind(c.inBuf) != CONNECT {
      OthersStayListed(b, h, len, inp, g);
    }
    b1 := ConnectTakesOver(b, h, len, inp, g);
  }

  lemma ConnectTakesOver(b: Broker, h: nat, len: Count, inp: Input, g: nat) returns (b1: Broker)
    requires Inv(b) && Has(b, h) && Has(b, g) && g != h && Get(b, h).state == TcpConnected
    requires !Has(HandleConnect(b, h, len, inp).b, g)
    ensures Inv(b1) && Has(b1, g) && Get(b1, g) == Get(b, g) && b1.slots == b.slots && (b1.fault <==> b.fault)
    ensures Evolves(Delete(b1, g, inp.takeover), HandleConnect(b, h, len, inp).b, h)
  {
    var c := Get(b, h);
    GetsToTheId(b, h, len, inp, g);
    var hd := ReadConnectHeader(c.inBuf).value;
    var c1 := c.(inBuf := ShiftHeader(c.inBuf, hd.version),
                 cleanSession := hd.flags / 2 % 2 == 1, keepalive := hd.keepalive);
    b1 := Put(b, h, c1);
    DropsOwn(b, h, c1, inp.own);
    PutShape(b, h, c1);
    TakeoverOf(b1, h, len, hd, ReadId(c.inBuf, len, hd).value, inp, g);
  }

  /** Before its id is read a CONNECT leaves the others in the list. */
  lemma GetsToTheId(b: Broker, h: nat, len: Count, inp: Input, g: nat)
    requires Inv(b) && Has(b, h) && Has(b, g) && g != h && Get(b, h).state == TcpConnected
    requires !Has(HandleConnect(b, h, len, inp).b, g)
    ensures 13 <= len && ReadConnectHeader(Get(b, h).inBuf).Some?
    ensures ReadId(Get(b, h).inBuf, len, ReadConnectHeader(Get(b, h).inBuf).value).Some?
  {
    var c := Get(b, h);
    OtherStays(b, h, g, inp.own);
    if ReadConnectHeader(c.inBuf).None? {
      AnsweredStays(b, h, REFUSE_PROTOCOL, g);
    } else {
      var hd := ReadConnectHeader(c.inBuf).value;
      ConnackStays(b, h, c.(inBuf := ShiftHeader(c.inBuf, hd.version),
                            cleanSession := hd.flags / 2 % 2 == 1, keepalive := hd.keepalive), REFUSE_ID, inp.own, g);
    }
  }

  lemma TakeoverOf(b: Broker, h: nat, len: Count, hd: ConnectHeader, f: IdField, inp: Input, g: nat)
    requires Inv(b) && Has(b, h) && Has(b, g) && g != h && Get(b, h).state == TcpConnected
    ensures var b2 := if f.key.Some? then DeleteById(b, f.key.value, inp.takeover) else b;
            var r := if !Has(b2, h) then Closed(b2.(fault := true)) else AfterId(b2, h, len, hd, f, inp);
            !Has(r.b, g) ==> Evolves(Delete(b, g, inp.takeover), r.b, h)
  {
    var b2 := if f.key.Some? then DeleteById(b, f.key.value, inp.takeover) else b;
    if f.key.Some? {
      DeleteByIdKeeps(b, h, f.key.value, inp.takeover);
      var i := AtId(b.clients, f.key.value);
      if i < |b.clients| {
        AtIs(b.clients, b.clients[i].h, i);
        if b.clients[i].h != g {
          OtherStays(b, b.clients[i].h, g, inp.takeover);
        }
      }
    }
    if Has(b2, h) {
      AfterIdSound(b2, h, len, hd, f, inp);
      if Has(b2, g) {
        AfterIdStays(b2, h, len, hd, f, inp, g);
      }
    }
  }

  /**
   * A connection that is taken over: it is removed from a state `b1` that has its record and
   * all slots as before the step; what the newcomer's chunk does after that feeds others only.
   */
  lemma TakeoverServes(b: Broker, e: Event, g: nat) returns (b1: Broker, mem: Mem)
    requires Inv(b) && Has(b, g) && !Has(Step(b, e), g) && !Step(b, e).fault && Subject(e) != Some(g)
    ensures e.Chunk? && Has(b, e.h)
    ensures Inv(b1) && Has(b1, g) && Get(b1, g) == Get(b, g) && b1.slots == b.slots
    ensures !HitsItself(b1, g) && Removed(b1, g, mem, Delete(b1, g, mem)) && Evolves(Delete(b1, g, mem), Step(b, e), e.h)
  {
    OnlyChunksTakeOver(b, e, g);
    var h := e.h;
    var c := Get(b, h);
    if BUF < |e.chunk| + c.read {
      OtherStays(b, h, g, NextInput(e.inputs).own);
    }
    DropsOwn(b, h, CopyIn(c, e.chunk), DEFAULT_INPUT.own);
    PutShape(b, h, CopyIn(c, e.chunk));
    var b0 := Copied(b, h, e.chunk);
    b1, mem := LoopTakesOver(b0, h, e.inputs, g);
    DeletePublishesWill(b1, g, mem);
    assert Step(b, e) == ReadPackets(b0, h, e.inputs);
  }

  lemma OnlyChunksTakeOver(b: Broker, e: Event, g: nat)
    requires Inv(b) && Has(b, g) && !Has(Step(b, e), g) && Subject(e) != Some(g)
    ensures e.Chunk? && Has(b, e.h)
  {
    StepKeeps(b, e);
    if e.Connection? {
      AcceptKeeps(b);
    } else if Subject(e).None? {
      FedEvolves(b, Step(b, e), g);
    } else if !e.Chunk? {
      OthersOwn(b, e, g);
    }
  }

  lemma LoopTakesOver(b: Broker, h: nat, inputs: seq<Input>, g: nat) returns (b1: Broker, mem: Mem)
    requires Inv(b) && Has(b, h) && Has(b, g) && g != h && !Has(ReadPackets(b, h, inputs), g)
    ensures Inv(b1) && Has(b1, g) && Get(b1, g) == Get(b, g) && b1.slots == b.slots && (b1.fault <==> b.fault)
    ensures Evolves(Delete(b1, g, mem), ReadPackets(b, h, inputs), h)
  {
    var c := Get(b, h);
    var len := MessageLength(c);
    var seen := c.(dispatched := c.dispatched + [c.inBuf[..len]]);
    mem := NextInput(inputs).takeover;
    if c.state != TcpConnected {
      PastConnect(b, h, inputs, g);
    }
    DropsOwn(b, h, seen, mem);
    PutShape(b, h, seen);
    var b0 := Put(b, h, seen);
    HandleSound(b0, h, len, NextInput(inputs));
    var r := Handle(b0, h, len, NextInput(inputs));
    if r.Continue? {
      PutGet(r.b, h, Finish(Get(r.b, h), c.read, len));
      LaterPackets(r.b, ReadPackets(b, h, inputs), h, c.read, len, LaterInputs(inputs));
    } else {
      FedEvolves(r.b, r.b, h);
    }
    b1 := TakenOver(b0, h, len, NextInput(inputs), g);
    EvolvesTwice(Delete(b1, g, mem), r.b, ReadPackets(b, h, inputs), h);
  }
}
