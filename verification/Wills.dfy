/** Whose will is published, over every run (sections 3.1.2.5 and 3.14.4 of MQTT 3.1.1). */
module Wills {
  import opened Bytes
  import opened Packet
  import opened Reader
  import opened Reassembly
  import opened TopicList
  import opened Retained
  import opened Broker
  import opened BrokerInvariant

  /**
   * Among connections other than `h`: the will of each that goes away is published, if it has
   * one, and no other will is.
   */
  ghost predicate WillStep(b: Broker, b': Broker, h: nat) {
    && Evolves(b, b', h)
    && (forall g: nat :: g != h && Has(b, g) && !Has(b', g) ==> (g in b'.wills <==> Get(b, g).will.topic.Some?))
    && (forall g: nat :: g != h && !Has(b, g) ==> (g in b'.wills <==> g in b.wills))
  }

  lemma WillTwice(a: Broker, b: Broker, c: Broker, h: nat)
    requires WillStep(a, b, h) && WillStep(b, c, h)
    ensures WillStep(a, c, h)
  {
    EvolvesTwice(a, b, c, h);
    forall g: nat | g != h && Has(a, g) && !Has(c, g)
      ensures g in c.wills <==> Get(a, g).will.topic.Some?
    {
      if Has(b, g) {
        assert Fed(Get(a, g), Get(b, g));
      }
    }
  }

  /** A removal is right for the connection it removes, and for every other as seen from a third. */
  lemma DeleteWill(b: Broker, h: nat, mem: Mem, l: nat)
    requires Inv(b) && Has(b, h) && Has(b, l)
    ensures var b' := Delete(b, h, mem);
            && Inv(b') && !Has(b', h) && (h in b'.wills <==> Get(b, h).will.topic.Some?)
            && WillStep(b, b', l)
  {
    DeleteKeeps(b, h, mem);
    OthersStay(b, h, mem);
    SeenFrom(b, Delete(b, h, mem), h, l);
    assert h !in b.wills;
  }

  /** A step that removes `h` is right for every other connection, too. */
  lemma SeenFrom(b: Broker, b': Broker, h: nat, l: nat)
    requires Evolves(b, b', h) && !Has(b', h) && Has(b, l)
    ensures Evolves(b, b', l)
  {
    if l != h && Has(b', l) {
      assert Fed(Get(b, l), Get(b', l));
    }
  }

  lemma OthersStay(b: Broker, h: nat, mem: Mem)
    requires Inv(b) && Has(b, h)
    ensures forall g: nat :: g != h ==> (Has(Delete(b, h, mem), g) <==> Has(b, g))
  {
    RemoveKeeps(b, h);
    RemoveShape(b, h);
    var b1 := Remove(b, h);
    assert h !in b.wills;
    PublishWillKeeps(b1, h, Get(b, h).will, mem);
    FedEvolves(b1, PublishWill(b1, h, Get(b, h).will, mem), h);
    assert Delete(b, h, mem).clients == PublishWill(b1, h, Get(b, h).will, mem).clients;
  }

  // ---------------------------------------------------------------- handling a packet

  lemma PutWill(b: Broker, h: nat, c: Client)
    requires Inv(b) && Has(b, h) && c.h == h && StateStep(Get(b, h).state, c.state)
    ensures Inv(Put(b, h, c)) && WillStep(b, Put(b, h, c), h)
    ensures Has(Put(b, h, c), h) && Get(Put(b, h, c), h) == c && Put(b, h, c).wills == b.wills
  {
    PutKeeps(b, h, c, None);
    PutShape(b, h, c);
    PutEvolves(b, h, c);
  }

  lemma SlotsWill(b: Broker, h: nat, slots: seq<Slot>, mem: Mem)
    requires Inv(b) && Has(b, h) && SlotsOk(b.clients, slots, None)
    ensures var b1 := b.(slots := slots);
            && Inv(b1) && Has(b1, h) && Get(b1, h) == Get(b, h) && WillStep(b, b1, h)
            && (var b2 := Delete(b1, h, mem);
                !Has(b2, h) && WillStep(b, b2, h) && (h in b2.wills <==> Get(b, h).will.topic.Some?))
  {
    var b1 := b.(slots := slots);
    SlotsChange(b, slots, h, 0);
    DeleteWill(b1, h, mem, h);
    WillTwice(b, b1, Delete(b1, h, mem), h);
  }

  /**
   * In MQTT_DATA a connection keeps its will as long as it stays; DISCONNECT takes it back,
   * and any other packet that ends the connection publishes it.
   */
  ghost predicate DataWill(b: Broker, h: nat, r: Handled)
    requires Has(b, h)
  {
    && WillStep(b, r.b, h)
    && (Has(r.b, h) ==> Get(r.b, h).will == Get(b, h).will)
    && (!Has(r.b, h) ==>
          (h in r.b.wills <==> Get(b, h).will.topic.Some? && Kind(Get(b, h).inBuf) != DISCONNECT))
  }

  lemma SubscribeWill(b: Broker, h: nat, len: Count, inp: Input)
    requires Inv(b) && Has(b, h) && Get(b, h).state == MqttData && Kind(Get(b, h).inBuf) == SUBSCRIBE
    ensures DataWill(b, h, HandleSubscribe(b, h, len, inp))
  {
    var c := Get(b, h);
    SlotsWill(b, h, b.slots, inp.own);
    if 8 <= len {
      var w := SubscribeWalk(b.slots, h, c.inBuf, len, 4, [], []);
      SubscribeWalkKeeps(b.clients, b.slots, h, c.inBuf, len, 4, [], []);
      SlotsWill(b, h, w.slots, inp.own);
      if w.ok {
        var b1 := b.(slots := w.slots);
        var c1 := Ack(c, SUBACK, GetId(c.inBuf, BUF), w.codes);
        var c2 := SendRetained(c1, b.retained, w.last, 0);
        SendRetainedFeeds(c1, b.retained, w.last, 0);
        PutWill(b1, h, c2);
        WillTwice(b, b1, Put(b1, h, c2), h);
      }
    }
  }

  lemma UnsubscribeWill(b: Broker, h: nat, len: Count, inp: Input)
    requires Inv(b) && Has(b, h) && Get(b, h).state == MqttData && Kind(Get(b, h).inBuf) == UNSUBSCRIBE
    ensures DataWill(b, h, HandleUnsubscribe(b, h, len, inp))
  {
    var c := Get(b, h);
    SlotsWill(b, h, b.slots, inp.own);
    if 7 <= len {
      var w := UnsubscribeWalk(b.slots, h, c.inBuf, len, 4);
      UnsubscribeWalkKeeps(b.clients, b.slots, h, c.inBuf, len, 4);
      SlotsWill(b, h, w.slots, inp.own);
      if w.ok {
        var b1 := b.(slots := w.slots);
        var c1 := Ack(c, UNSUBACK, GetId(c.inBuf, BUF), []);
        PutWill(b1, h, c1);
        WillTwice(b, b1, Put(b1, h, c1), h);
      }
    }
  }

  lemma FanoutWill(b: Broker, h: nat, topic: seq<byte>, data: seq<byte>)
    requires Inv(b) && Has(b, h)
    ensures var b1 := Fanout(b, topic, data, 0);
            && WillStep(b, b1, h) && Has(b1, h) && Get(b1, h).will == Get(b, h).will
  {
    FanoutFeeds(b, topic, data, 0);
    FedEvolves(b, Fanout(b, topic, data, 0), h);
  }

  lemma RetainWill(b: Broker, b1: Broker, h: nat, topic: seq<byte>, data: payload, qos: byte, mem: Mem)
    requires WillStep(b, b1, h) && Has(b1, h)
    ensures var b2 := UpdateRetained(b1, topic, data, qos, mem);
            WillStep(b, b2, h) && Has(b2, h) && Get(b2, h) == Get(b1, h)
  {
  }

  lemma PublishWillToo(b: Broker, h: nat, mem: Mem)
    requires Inv(b) && Has(b, h)
    ensures var b1 := HandlePublish(b, Get(b, h).inBuf, mem);
            && WillStep(b, b1, h) && Has(b1, h) && Get(b1, h).will == Get(b, h).will
  {
    var buf := Get(b, h).inBuf;
    match PublishTopic(buf, BUF)
    case None => FedEvolves(b, b.(fault := true), h);
    case Some(t) => PassOnWill(b, h, buf, CStr(t), PayloadOf(buf), mem);
  }

  lemma PassOnWill(b: Broker, h: nat, buf: InBuffer, topic: seq<byte>, data: payload, mem: Mem)
    requires Inv(b) && Has(b, h)
    ensures var b1 := PassOn(b, buf, topic, data, mem);
            WillStep(b, b1, h) && Has(b1, h) && Get(b1, h).will == Get(b, h).will
  {
    NothingSound(b, h, 0);
    FanoutWill(b, h, topic, data);
    RetainWill(b, Fanout(b, topic, data, 0), h, topic, data, Qos(buf), mem);
  }

  lemma DisconnectWill(b: Broker, h: nat, mem: Mem)
    requires Inv(b) && Has(b, h)
    ensures var c := Get(b, h);
            var b1 := Put(b, h, c.(will := c.will.(topic := None)));
            && Has(b1, h) && WillStep(b, Delete(b1, h, mem), h)
            && !Has(Delete(b1, h, mem), h) && h !in Delete(b1, h, mem).wills
  {
    var c := Get(b, h);
    var c1 := c.(will := c.will.(topic := None));
    PutWill(b, h, c1);
    DeleteWill(Put(b, h, c1), h, mem, h);
    WillTwice(b, Put(b, h, c1), Delete(Put(b, h, c1), h, mem), h);
  }

  lemma HandleDataWill(b: Broker, h: nat, len: Count, inp: Input)
    requires Inv(b) && Has(b, h) && Get(b, h).state == MqttData
    ensures DataWill(b, h, Handle(b, h, len, inp))
  {
    var c := Get(b, h);
    var kind := Kind(c.inBuf);
    if kind == SUBSCRIBE {
      SubscribeWill(b, h, len, inp);
    } else if kind == UNSUBSCRIBE {
      UnsubscribeWill(b, h, len, inp);
    } else if kind == PUBLISH {
      PublishWillToo(b, h, inp.own);
    } else if kind == PINGREQ {
      PutWill(b, h, Enqueue(c, Build(PINGRESP, 0, 0, 0, [])));
    } else if kind == DISCONNECT {
      DisconnectWill(b, h, inp.own);
    } else {
      NothingSound(b, h, 0);
    }
  }

  // ---------------------------------------------------------------- CONNECT

  lemma ConnackWill(b: Broker, h: nat, code: byte)
    requires Inv(b) && Has(b, h) && Get(b, h).state == TcpConnected
    ensures WillStep(b, Connack(b, h, code).b, h)
  {
    var c := Get(b, h);
    var c' := c.(state := if code == ACCEPTED then MqttData else TcpDisconnecting);
    PutWill(b, h, Enqueue(c', Build(CONNACK, 0, 0, 0, [0, code])));
  }

  lemma AfterIdWill(b: Broker, h: nat, len: nat, hd: ConnectHeader, f: IdField, inp: Input)
    requires Inv(b) && Has(b, h) && Get(b, h).state == TcpConnected
    ensures WillStep(b, AfterId(b, h, len, hd, f, inp).b, h)
  {
    var c := Get(b, h);
    var w := ReadWill(c.inBuf, len, hd.flags, f.used);
    var c1 := c.(id := f.id, will := w.will);
    var c2 := c.(id := f.id, will := w.will.(topic := None));
    var b1, b2 := Put(b, h, c1), Put(b, h, c2);
    PutWill(b, h, c1);
    PutWill(b, h, c2);
    if !w.ok || !ReadCredentials(c.inBuf, len, hd.flags, w.used) {
      DeleteWill(b1, h, inp.own, h);
      WillTwice(b, b1, Delete(b1, h, inp.own), h);
    } else if !inp.auth {
      ConnackWill(b2, h, REFUSE_AUTH);
      WillTwice(b, b2, Connack(b2, h, REFUSE_AUTH).b, h);
    } else {
      ConnackWill(b1, h, ACCEPTED);
      WillTwice(b, b1, Connack(b1, h, ACCEPTED).b, h);
    }
  }

  /**
   * A CONNECT that is malformed behind its client id is never accepted. Its will is published
   * all the same, exactly when its topic has been read by then.
   */
  lemma RejectedWill(b: Broker, h: nat, len: nat, hd: ConnectHeader, f: IdField, inp: Input)
    requires Inv(b) && Has(b, h) && Get(b, h).state == TcpConnected
    requires var w := ReadWill(Get(b, h).inBuf, len, hd.flags, f.used);
             !(w.ok && ReadCredentials(Get(b, h).inBuf, len, hd.flags, w.used))
    ensures var r := AfterId(b, h, len, hd, f, inp);
            && r.Closed? && !Has(r.b, h)
            && (h in r.b.wills <==>
                  hd.flags / 4 % 2 == 1 && StrAt(Get(b, h).inBuf, 2 + f.used, Rest(len, f.used)).Some?)
  {
    var c := Get(b, h);
    var c1 := c.(id := f.id, will := ReadWill(c.inBuf, len, hd.flags, f.used).will);
    PutWill(b, h, c1);
    DeleteWill(Put(b, h, c1), h, inp.own, h);
  }

  lemma TakeoverWill(b: Broker, h: nat, id: seq<byte>, mem: Mem)
    requires Inv(b) && Has(b, h)
    ensures Inv(DeleteById(b, id, mem)) && WillStep(b, DeleteById(b, id, mem), h)
  {
    var i := AtId(b.clients, id);
    NothingSound(b, h, 0);
    if i < |b.clients| {
      AtIs(b.clients, b.clients[i].h, i);
      DeleteWill(b, b.clients[i].h, mem, h);
    }
  }

  lemma HandleConnectWill(b: Broker, h: nat, len: Count, inp: Input)
    requires Inv(b) && Has(b, h) && Get(b, h).state == TcpConnected
    ensures WillStep(b, HandleConnect(b, h, len, inp).b, h)
  {
    var c := Get(b, h);
    if len < 13 {
      DeleteWill(b, h, inp.own, h);
    } else if ReadConnectHeader(c.inBuf).None? {
      ConnackWill(b, h, REFUSE_PROTOCOL);
    } else {
      var hd := ReadConnectHeader(c.inBuf).value;
      var c1 := c.(inBuf := ShiftHeader(c.inBuf, hd.version),
                   cleanSession := hd.flags / 2 % 2 == 1, keepalive := hd.keepalive);
      var b1 := Put(b, h, c1);
      PutWill(b, h, c1);
      match ReadId(c.inBuf, len, hd)
      case None =>
        ConnackWill(b1, h, REFUSE_ID);
        WillTwice(b, b1, Connack(b1, h, REFUSE_ID).b, h);
      case Some(f) =>
        IdWill(b1, h, len, hd, f, inp);
        WillTwice(b, b1, HandleConnect(b, h, len, inp).b, h);
    }
  }

  /** The takeover, and what follows it. */
  lemma IdWill(b: Broker, h: nat, len: nat, hd: ConnectHeader, f: IdField, inp: Input)
    requires Inv(b) && Has(b, h) && Get(b, h).state == TcpConnected
    ensures var b2 := if f.key.Some? then DeleteById(b, f.key.value, inp.takeover) else b;
            WillStep(b, if !Has(b2, h) then b2.(fault := true) else AfterId(b2, h, len, hd, f, inp).b, h)
  {
    var b2 := if f.key.Some? then DeleteById(b, f.key.value, inp.takeover) else b;
    if f.key.Some? {
      TakeoverWill(b, h, f.key.value, inp.takeover);
      StillConnected(b, h, f.key.value, inp.takeover);
    } else {
      NothingSound(b, h, 0);
    }
    if Has(b2, h) {
      AfterIdWill(b2, h, len, hd, f, inp);
      WillTwice(b, b2, AfterId(b2, h, len, hd, f, inp).b, h);
    }
  }

  lemma StillConnected(b: Broker, h: nat, id: seq<byte>, mem: Mem)
    requires Inv(b) && Has(b, h)
    ensures var b' := DeleteById(b, id, mem); Has(b', h) ==> Get(b', h).state == Get(b, h).state
  {
    DeleteByIdKeeps(b, h, id, mem);
  }

  lemma HandleWill(b: Broker, h: nat, len: Count, inp: Input)
    requires Inv(b) && Has(b, h)
    ensures WillStep(b, Handle(b, h, len, inp).b, h)
    ensures Get(b, h).state == MqttData ==> DataWill(b, h, Handle(b, h, len, inp))
  {
    var c := Get(b, h);
    match c.state
    case TcpConnected =>
      if Kind(c.inBuf) == CONNECT {
        HandleConnectWill(b, h, len, inp);
      } else {
        DeleteWill(b, h, inp.own, h);
      }
    case TcpDisconnecting => NothingSound(b, h, 0);
    case MqttData => HandleDataWill(b, h, len, inp);
  }

  // ---------------------------------------------------------------- steps

  /** The client's record when READPACKET comes to the packet that ends the connection. */
  function Closer(b: Broker, h: nat, inputs: seq<Input>): Option<Client>
    requires Has(b, h)
    decreases Get(b, h).read
  {
    var c := Get(b, h);
    var len := MessageLength(c);
    if c.read < len then None
    else
      var seen := c.(dispatched := c.dispatched + [c.inBuf[..len]]);
      PutGet(b, h, seen);
      match Handle(Put(b, h, seen), h, len, NextInput(inputs))
      case Closed(_) => Some(c)
      case Continue(b1) =>
        if !Has(b1, h) || len == 0 then None
        else
          var c1 := Finish(Get(b1, h), c.read, len);
          PutGet(b1, h, c1);
          if len < c.read then Closer(Put(b1, h, c1), h, LaterInputs(inputs)) else None
  }

  /** What a chunk means for the will of the connection it comes from. */
  ghost predicate ChunkWill(b': Broker, h: nat, closer: Option<Client>) {
    !Has(b', h) ==>
      && closer.Some?
      && (closer.value.state == MqttData ==>
            (h in b'.wills <==> closer.value.will.topic.Some? && Kind(closer.value.inBuf) != DISCONNECT))
  }

  /** One packet, up to what Handle makes of it. */
  lemma PacketWill(b: Broker, h: nat, len: Count, inp: Input)
    requires Inv(b) && Has(b, h) && len <= Get(b, h).read
    ensures var c := Get(b, h);
            var b0 := Put(b, h, c.(dispatched := c.dispatched + [c.inBuf[..len]]));
            && Has(b0, h) && Get(b0, h).read == c.read && WillStep(b, Handle(b0, h, len, inp).b, h)
            && Inv(Handle(b0, h, len, inp).b)
            && (Handle(b0, h, len, inp).Continue? <==> Has(Handle(b0, h, len, inp).b, h))
            && (c.state == MqttData && !Has(Handle(b0, h, len, inp).b, h) ==>
                  (h in Handle(b0, h, len, inp).b.wills <==> c.will.topic.Some? && Kind(c.inBuf) != DISCONNECT))
  {
    var c := Get(b, h);
    var seen := c.(dispatched := c.dispatched + [c.inBuf[..len]]);
    var b0 := Put(b, h, seen);
    PutWill(b, h, seen);
    HandleWill(b0, h, len, inp);
    HandleSound(b0, h, len, inp);
    WillTwice(b, b0, Handle(b0, h, len, inp).b, h);
  }

  lemma FinishWill(b: Broker, b0: Broker, h: nat, read: Count, len: Count)
    requires Inv(b0) && Has(b0, h) && WillStep(b, b0, h) && len <= read
    ensures var b1 := Put(b0, h, Finish(Get(b0, h), read, len));
            Inv(b1) && Has(b1, h) && Get(b1, h) == Finish(Get(b0, h), read, len) && WillStep(b, b1, h)
  {
    var c1 := Finish(Get(b0, h), read, len);
    PutWill(b0, h, c1);
    WillTwice(b, b0, Put(b0, h, c1), h);
  }

  lemma {:induction false} ReadPacketsWill(b: Broker, h: nat, inputs: seq<Input>)
    requires Inv(b) && Has(b, h)
    ensures WillStep(b, ReadPackets(b, h, inputs), h)
    ensures ChunkWill(ReadPackets(b, h, inputs), h, Closer(b, h, inputs))
    decreases Get(b, h).read
  {
    var c := Get(b, h);
    var len := MessageLength(c);
    if c.read < len {
      NothingSound(b, h, 0);
    } else {
      PacketWill(b, h, len, NextInput(inputs));
      var b0 := Put(b, h, c.(dispatched := c.dispatched + [c.inBuf[..len]]));
      var r := Handle(b0, h, len, NextInput(inputs));
      if r.Continue? && len != 0 {
        FinishWill(b, r.b, h, c.read, len);
        if len < c.read {
          var b1 := Put(r.b, h, Finish(Get(r.b, h), c.read, len));
          ReadPacketsWill(b1, h, LaterInputs(inputs));
          WillTwice(b, b1, ReadPackets(b1, h, LaterInputs(inputs)), h);
        }
      }
    }
  }

  lemma ReceiveChunkWill(b: Broker, h: nat, chunk: seq<byte>, inputs: seq<Input>)
    requires Inv(b) && Has(b, h)
    ensures WillStep(b, ReceiveChunk(b, h, chunk, inputs), h)
    ensures var b' := ReceiveChunk(b, h, chunk, inputs);
            if BUF < |chunk| + Get(b, h).read then !Has(b', h) && (h in b'.wills <==> Get(b, h).will.topic.Some?)
            else ChunkWill(b', h, Closer(Copied(b, h, chunk), h, inputs))
  {
    var c := Get(b, h);
    if BUF < |chunk| + c.read {
      DeleteWill(b, h, NextInput(inputs).own, h);
    } else {
      var b1 := Copied(b, h, chunk);
      PutWill(b, h, CopyIn(c, chunk));
      if 2 <= |chunk| {
        ReadPacketsWill(b1, h, inputs);
        WillTwice(b, b1, ReadPackets(b1, h, inputs), h);
      }
    }
  }

  /** A change to the client's own record but not its will, and perhaps its removal. */
  lemma PutOrDeleteWill(b: Broker, h: nat, c: Client, mem: Mem)
    requires Inv(b) && Has(b, h) && c.h == h && c.state == Get(b, h).state && c.will == Get(b, h).will
    ensures var b1 := Put(b, h, c);
            && Has(b1, h) && WillStep(b, b1, h) && WillStep(b, Delete(b1, h, mem), h)
            && !Has(Delete(b1, h, mem), h)
            && (h in Delete(b1, h, mem).wills <==> Get(b, h).will.topic.Some?)
  {
    PutWill(b, h, c);
    DeleteWill(Put(b, h, c), h, mem, h);
    WillTwice(b, Put(b, h, c), Delete(Put(b, h, c), h, mem), h);
  }

  lemma TickWill(b: Broker, h: nat, mem: Mem)
    requires Inv(b) && Has(b, h)
    ensures var b' := Tick(b, h, mem);
            WillStep(b, b', h) && (!Has(b', h) ==> (h in b'.wills <==> Get(b, h).will.topic.Some?))
  {
    var c1 := Countdown(Get(b, h));
    if c1.connTimeout > 0 {
      PutWill(b, h, c1.(connTimeout := c1.connTimeout - 1));
    } else {
      PutOrDeleteWill(b, h, c1, mem);
    }
  }

  lemma TaskWill(b: Broker, h: nat, room: nat, mem: Mem)
    requires Inv(b) && Has(b, h)
    ensures var b' := RunTask(b, h, room, mem);
            WillStep(b, b', h) && (!Has(b', h) ==> (h in b'.wills <==> Get(b, h).will.topic.Some?))
  {
    var c := Get(b, h);
    NothingSound(b, h, 0);
    PutOrDeleteWill(b, h, Attempt(c, room).0, mem);
  }

  /** A chunk of the connection's own that fits its buffer. */
  predicate OwnChunk(b: Broker, e: Event, g: nat)
    requires Has(b, g)
  {
    e.Chunk? && e.h == g && |e.chunk| + Get(b, g).read <= BUF
  }

  /** The connection's record when the event ends it. */
  function LastRecord(b: Broker, e: Event, g: nat): Client
    requires Has(b, g)
  {
    if !OwnChunk(b, e, g) then Get(b, g)
    else
      match Closer(Copied(b, g, e.chunk), g, e.inputs)
      case None => Get(b, g)
      case Some(c) => c
  }

  lemma FanoutStays(b: Broker, topic: seq<byte>, data: seq<byte>)
    ensures forall g: nat :: Has(b, g) ==> Has(Fanout(b, topic, data, 0), g)
  {
    FanoutFeeds(b, topic, data, 0);
    forall g: nat | Has(b, g)
      ensures Has(Fanout(b, topic, data, 0), g)
    {
      SameHandles(b.clients, Fanout(b, topic, data, 0).clients, g);
    }
  }

  /**
   * In any step without a fault, a connection past its CONNECT that goes away with a will has it published,
   * unless what ends it is its own DISCONNECT: takeover, timeout, protocol error, overflow and
   * TCP drop alike. One that ends by DISCONNECT, or has no will, has none published.
   */
  lemma RemovalPublishesWill(b: Broker, e: Event, g: nat)
    requires Inv(b) && Has(b, g) && !Has(Step(b, e), g) && !Step(b, e).fault
    requires OwnChunk(b, e, g) ==> LastRecord(b, e, g).state == MqttData
    ensures var c := LastRecord(b, e, g);
            g in Step(b, e).wills <==> c.will.topic.Some? && !(OwnChunk(b, e, g) && Kind(c.inBuf) == DISCONNECT)
  {
    match e
    case Connection => AcceptKeeps(b);
    case Chunk(h, chunk, inputs) =>
      if Has(b, h) {
        ReceiveChunkWill(b, h, chunk, inputs);
      }
    case Gone(h, mem) =>
      if Has(b, h) {
        DeleteWill(b, h, mem, h);
      }
    case Timer(h, mem) =>
      if Has(b, h) {
        TickWill(b, h, mem);
      }
    case Task(h, room, mem) =>
      if Has(b, h) {
        TaskWill(b, h, room, mem);
      }
    case LocalPublish(topic, data, qos, retain, mem) =>
      FanoutStays(b, topic, data);
    case _ =>
  }

  /** No will is published twice, or while its connection is there, in any run. */
  lemma NoWillTwice(maxSubscriptions: nat, maxRetained: nat, es: seq<Event>)
    ensures var b := Run(Start(maxSubscriptions, maxRetained), es);
            && (forall k :: 0 <= k < |b.wills| ==> !Has(b, b.wills[k]))
            && (forall k, l :: 0 <= k < l < |b.wills| ==> b.wills[k] != b.wills[l])
  {
    RunKeeps(Start(maxSubscriptions, maxRetained), es);
  }
}
