/** Client ids: when taking over an older connection keeps them apart (section 3.1.4 of MQTT 3.1.1). */
module Sessions {
  import opened Bytes
  import opened Packet
  import opened Reader
  import opened Reassembly
  import opened Retained
  import opened Broker
  import opened BrokerInvariant

  /** Before CONNECT there is no id. */
  ghost predicate Nameless(b: Broker) {
    forall g: nat :: Has(b, g) && Get(b, g).state == TcpConnected ==> Get(b, g).id == []
  }

  /** No two connections have the same non-empty id; before CONNECT there is none. */
  ghost predicate IdsOk(b: Broker) {
    && (forall g: nat, l: nat :: g != l && Has(b, g) && Has(b, l) && Get(b, g).id != [] ==> Get(b, g).id != Get(b, l).id)
    && Nameless(b)
  }

  /** Steps that leave the connection's own id alone keep the ids apart. */
  lemma SameIds(b: Broker, b': Broker, h: nat)
    requires IdsOk(b) && Evolves(b, b', h)
    requires Has(b', h) ==> Get(b', h).id == Get(b, h).id
    ensures IdsOk(b')
  {
    forall g: nat | Has(b', g)
      ensures Has(b, g) && Get(b', g).id == Get(b, g).id
      ensures Get(b', g).state == TcpConnected ==> Get(b, g).state == TcpConnected
    {
      if g != h {
        assert Fed(Get(b, g), Get(b', g));
      }
    }
  }

  /** Ids are a matter of the client list alone. */
  lemma SameClients(b: Broker, b': Broker)
    requires IdsOk(b) && b'.clients == b.clients
    ensures IdsOk(b')
  {
    forall g: nat | Has(b', g)
      ensures Has(b, g) && Get(b', g) == Get(b, g)
    {
    }
  }

  // ---------------------------------------------------------------- takeover

  /**
   * The id as delete_client_by_id sees it is the id itself exactly when it has a zero byte in
   * it or one right behind it.
   */
  lemma KeyIsId(buf: InBuffer, len: nat, hd: ConnectHeader)
    requires ReadId(buf, len, hd).Some? && ReadId(buf, len, hd).value.key.Some?
    ensures var f := ReadId(buf, len, hd).value;
            var at := 4 + hd.size;
            var end := 2 + f.used;
            && end <= BUF && f.id == CStr(buf[at..end])
            && (f.key.value == f.id <==> 0 in buf[at..end] || end == BUF || buf[end] == 0)
  {
    var f := ReadId(buf, len, hd).value;
    var at := 4 + hd.size;
    var end := 2 + f.used;
    var name, rest := buf[at..end], buf[at..];
    var i, k := IndexOf(name, 0), IndexOf(rest, 0);
    assert forall j :: 0 <= j < |name| ==> name[j] == rest[j];
    if 0 in name {
      IndexOfIs(rest, 0, i);
      assert rest[..i] == name[..i];
    } else {
      assert i == |name|;
      if end < BUF && buf[end] == 0 {
        assert rest[|name|] == 0;
        IndexOfIs(rest, 0, |name|);
      } else if end < BUF {
        assert rest[|name|] != 0;
        assert k > |name|;
      }
    }
  }

  ghost predicate NobodyHas(b: Broker, id: seq<byte>, h: nat) {
    forall g: nat :: g != h && Has(b, g) ==> Get(b, g).id != id
  }

  /** Removing the first match is enough, because of the invariant itself. */
  lemma FirstMatchIsEnough(b: Broker, h: nat, id: seq<byte>, mem: Mem)
    requires Inv(b) && IdsOk(b) && Has(b, h) && id != []
    ensures NobodyHas(DeleteById(b, id, mem), id, h) || Get(b, h).id == id
  {
    var b' := DeleteById(b, id, mem);
    DeleteByIdKeeps(b, h, id, mem);
    var i := AtId(b.clients, id);
    if Get(b, h).id != id {
      forall g: nat | g != h && Has(b', g)
        ensures Get(b', g).id != id
      {
        assert Has(b, g) && Fed(Get(b, g), Get(b', g));
        if i < |b.clients| {
          var l := b.clients[i].h;
          AtIs(b.clients, l, i);
          DeleteKeeps(b, l, mem);
          assert g != l && Get(b, l).id == id;
        } else {
          assert b.clients[At(b.clients, g)].id != id;
        }
      }
    }
  }

  /** After a takeover nobody has the id exactly when it was the one compared, or nobody had it before. */
  lemma TakeoverExact(b: Broker, h: nat, key: seq<byte>, id: seq<byte>, mem: Mem)
    requires Inv(b) && IdsOk(b) && Has(b, h) && Get(b, h).id == [] && key != [] && id != []
    ensures NobodyHas(DeleteById(b, key, mem), id, h) <==> key == id || NobodyHas(b, id, h)
  {
    var b' := DeleteById(b, key, mem);
    DeleteByIdKeeps(b, h, key, mem);
    if key == id {
      FirstMatchIsEnough(b, h, id, mem);
    } else if NobodyHas(b, id, h) {
      forall g: nat | g != h && Has(b', g)
        ensures Get(b', g).id != id
      {
        assert Has(b, g) && Fed(Get(b, g), Get(b', g));
      }
    } else {
      var g: nat :| g != h && Has(b, g) && Get(b, g).id == id;
      OthersOutlive(b, key, g, mem);
    }
  }

  /** Removing a connection leaves every other in the list, with its id. */
  lemma OtherStays(b: Broker, l: nat, g: nat, mem: Mem)
    requires Inv(b) && Has(b, l) && Has(b, g) && g != l
    ensures Has(Delete(b, l, mem), g) && Fed(Get(b, g), Get(Delete(b, l, mem), g))
  {
    RemoveKeeps(b, l);
    RemoveShape(b, l);
    var b1 := Remove(b, l);
    assert l !in b.wills;
    PublishWillKeeps(b1, l, Get(b, l).will, mem);
    FedEvolves(b1, PublishWill(b1, l, Get(b, l).will, mem), l);
    assert Delete(b, l, mem).clients == PublishWill(b1, l, Get(b, l).will, mem).clients;
  }

  lemma OthersOutlive(b: Broker, key: seq<byte>, g: nat, mem: Mem)
    requires Inv(b) && Has(b, g) && Get(b, g).id != key
    ensures Has(DeleteById(b, key, mem), g) && Get(DeleteById(b, key, mem), g).id == Get(b, g).id
  {
    var i := AtId(b.clients, key);
    if i < |b.clients| {
      AtIs(b.clients, b.clients[i].h, i);
      OtherStays(b, b.clients[i].h, g, mem);
    }
  }

  /** Giving a connection an id keeps the ids apart exactly when no other has it, or it is empty. */
  lemma NewIdExact(b: Broker, h: nat, c: Client)
    requires Inv(b) && IdsOk(b) && Has(b, h) && c.h == h && Get(b, h).id == [] && c.state != TcpConnected
    ensures IdsOk(Put(b, h, c)) <==> c.id == [] || NobodyHas(b, c.id, h)
  {
    var b' := Put(b, h, c);
    PutShape(b, h, c);
    assert forall g: nat :: Has(b', g) <==> Has(b, g);
    if c.id == [] || NobodyHas(b, c.id, h) {
      forall g: nat, l: nat | g != l && Has(b', g) && Has(b', l) && Get(b', g).id != []
        ensures Get(b', g).id != Get(b', l).id
      {
        if g == h {
          assert Get(b', l) == Get(b, l);
        } else if l == h {
          assert Get(b', g) == Get(b, g);
        }
      }
    } else {
      var g: nat :| g != h && Has(b, g) && Get(b, g).id == c.id;
      assert Get(b', g) == Get(b, g) && Get(b', h) == c;
    }
  }

  // ---------------------------------------------------------------- CONNECT

  /** This CONNECT leaves the connection with the id it gives: all its fields are in order. */
  predicate StoresId(buf: InBuffer, len: nat) {
    && 13 <= len && ReadConnectHeader(buf).Some?
    && (var hd := ReadConnectHeader(buf).value;
        var f := ReadId(buf, len, hd);
        && f.Some?
        && (var w := ReadWill(buf, len, hd.flags, f.value.used);
            w.ok && ReadCredentials(buf, len, hd.flags, w.used)))
  }

  function IdFieldOf(buf: InBuffer, len: nat): IdField
    requires StoresId(buf, len)
  {
    ReadId(buf, len, ReadConnectHeader(buf).value).value
  }

  /**
   * Before a CONNECT: its id is not stored, or empty, or the one compared on takeover, or no
   * other connection has it.
   */
  ghost predicate KeepsApart(b: Broker, h: nat, buf: InBuffer, len: nat) {
    StoresId(buf, len) ==>
      var f := IdFieldOf(buf, len);
      f.id == [] || f.key == Some(f.id) || NobodyHas(b, f.id, h)
  }

  /** The compared id of this CONNECT, if it has one, is the id itself. */
  predicate Terminated(buf: InBuffer, len: nat) {
    StoresId(buf, len) ==> var f := IdFieldOf(buf, len); f.key == None || f.key == Some(f.id)
  }

  lemma ConnackIds(b: Broker, h: nat, code: byte)
    requires Inv(b) && IdsOk(b) && Has(b, h) && Get(b, h).state == TcpConnected
    ensures IdsOk(Connack(b, h, code).b)
  {
    ConnackSound(b, h, code, 0);
    var c := Get(b, h);
    var c' := c.(state := if code == ACCEPTED then MqttData else TcpDisconnecting);
    PutShape(b, h, Enqueue(c', Build(CONNACK, 0, 0, 0, [0, code])));
    SameIds(b, Connack(b, h, code).b, h);
  }

  lemma DropIds(b: Broker, h: nat, mem: Mem)
    requires Inv(b) && Has(b, h)
    requires forall g: nat, l: nat :: g != l && g != h && l != h && Has(b, g) && Has(b, l) && Get(b, g).id != [] ==> Get(b, g).id != Get(b, l).id
    requires forall g: nat :: g != h && Has(b, g) && Get(b, g).state == TcpConnected ==> Get(b, g).id == []
    ensures IdsOk(Delete(b, h, mem))
  {
    DeleteKeeps(b, h, mem);
    var b' := Delete(b, h, mem);
    forall g: nat | Has(b', g)
      ensures g != h && Has(b, g) && Get(b', g).id == Get(b, g).id && Get(b', g).state == Get(b, g).state
    {
      assert Fed(Get(b, g), Get(b', g));
    }
  }

  /** A record with a new id, not yet answered, and then the answer. */
  lemma AnswerExact(b: Broker, h: nat, c: Client, code: byte)
    requires Inv(b) && IdsOk(b) && Has(b, h) && c.h == h && Get(b, h).state == c.state == TcpConnected
    ensures Has(Put(b, h, c), h) && (IdsOk(Connack(Put(b, h, c), h, code).b) <==> c.id == [] || NobodyHas(b, c.id, h))
  {
    var b1 := Put(b, h, c);
    PutGet(b, h, c);
    var c' := Enqueue(c.(state := if code == ACCEPTED then MqttData else TcpDisconnecting),
                      Build(CONNACK, 0, 0, 0, [0, code]));
    NewIdExact(b, h, c');
    assert b1.clients[At(b.clients, h) := c'] == b.clients[At(b.clients, h) := c'];
    assert Connack(b1, h, code).b == Put(b, h, c');
  }

  /** Once the takeover is done, the ids stay apart exactly when the id is not stored, or nobody else has it. */
  lemma AfterIdExact(b: Broker, h: nat, len: nat, hd: ConnectHeader, f: IdField, inp: Input)
    requires Inv(b) && IdsOk(b) && Has(b, h) && Get(b, h).state == TcpConnected
    ensures var w := ReadWill(Get(b, h).inBuf, len, hd.flags, f.used);
            IdsOk(AfterId(b, h, len, hd, f, inp).b) <==>
            !(w.ok && ReadCredentials(Get(b, h).inBuf, len, hd.flags, w.used)) || f.id == [] || NobodyHas(b, f.id, h)
  {
    var c := Get(b, h);
    var w := ReadWill(c.inBuf, len, hd.flags, f.used);
    var c1 := c.(id := f.id, will := w.will);
    var c2 := c.(id := f.id, will := w.will.(topic := None));
    AnswerExact(b, h, c1, ACCEPTED);
    AnswerExact(b, h, c2, REFUSE_AUTH);
    PutKeeps(b, h, c1, None);
    PutShape(b, h, c1);
    DropIds(Put(b, h, c1), h, inp.own);
  }

  /** A CONNECT keeps the ids apart exactly when one could tell so from it and the state before. */
  lemma ConnectExact(b: Broker, h: nat, len: Count, inp: Input)
    requires Inv(b) && IdsOk(b) && Has(b, h) && Get(b, h).state == TcpConnected
    ensures IdsOk(HandleConnect(b, h, len, inp).b) <==> KeepsApart(b, h, Get(b, h).inBuf, len)
  {
    var c := Get(b, h);
    if len < 13 {
      DropIds(b, h, inp.own);
    } else if ReadConnectHeader(c.inBuf).None? {
      ConnackIds(b, h, REFUSE_PROTOCOL);
    } else {
      var hd := ReadConnectHeader(c.inBuf).value;
      var c1 := c.(inBuf := ShiftHeader(c.inBuf, hd.version),
                   cleanSession := hd.flags / 2 % 2 == 1, keepalive := hd.keepalive);
      var b1 := Put(b, h, c1);
      PutIds(b, h, c1);
      match ReadId(c.inBuf, len, hd)
      case None => ConnackIds(b1, h, REFUSE_ID);
      case Some(f) =>
        SameNames(b, h, c1, f.id);
        ReadsPastHeader(c.inBuf, len, hd, f);
        EmptyTogether(c.inBuf, len, hd, f);
        TakeoverIds(b1, h, len, hd, f, inp);
    }
  }

  lemma SameNames(b: Broker, h: nat, c: Client, id: seq<byte>)
    requires Has(b, h) && c.h == h
    ensures NobodyHas(Put(b, h, c), id, h) <==> NobodyHas(b, id, h)
  {
    PutShape(b, h, c);
  }

  /** The compared id is empty, or there is none, exactly when the id is empty. */
  lemma EmptyTogether(buf: InBuffer, len: nat, hd: ConnectHeader, f: IdField)
    requires ReadId(buf, len, hd) == Some(f)
    ensures f.id == [] <==> f.key == None || f.key == Some([])
  {
    var n := StrAt(buf, 2 + hd.size, Rest(len, hd.size)).value;
    var at := 4 + hd.size;
    if n > 0 {
      assert buf[at..at + n][0] == buf[at] == buf[at..][0];
    }
  }

  /** The takeover and what follows, on a state with all ids apart. */
  lemma TakeoverIds(b: Broker, h: nat, len: nat, hd: ConnectHeader, f: IdField, inp: Input)
    requires Inv(b) && IdsOk(b) && Has(b, h) && Get(b, h).state == TcpConnected
    requires f.id == [] <==> f.key == None || f.key == Some([])
    ensures var b2 := if f.key.Some? then DeleteById(b, f.key.value, inp.takeover) else b;
            var w := ReadWill(Get(b, h).inBuf, len, hd.flags, f.used);
            && (!Has(b2, h) ==> f.id == [] && IdsOk(b2.(fault := true)))
            && (Has(b2, h) ==>
                  (IdsOk(AfterId(b2, h, len, hd, f, inp).b) <==>
                   !(w.ok && ReadCredentials(Get(b, h).inBuf, len, hd.flags, w.used))
                   || f.id == [] || f.key == Some(f.id) || NobodyHas(b, f.id, h)))
  {
    if f.key.Some? {
      var b2 := DeleteById(b, f.key.value, inp.takeover);
      DeleteByIdKeeps(b, h, f.key.value, inp.takeover);
      SameIds(b, b2, h);
      if f.id != [] {
        OthersOutlive(b, f.key.value, h, inp.takeover);
        TakeoverExact(b, h, f.key.value, f.id, inp.takeover);
      }
      if Has(b2, h) {
        AfterIdExact(b2, h, len, hd, f, inp);
      } else {
        SameClients(b2, b2.(fault := true));
      }
    } else {
      AfterIdExact(b, h, len, hd, f, inp);
    }
  }

  // ---------------------------------------------------------------- all packets

  /** Past CONNECT the id is fixed. */
  lemma IdFixed(b: Broker, h: nat, len: Count, inp: Input)
    requires Inv(b) && Has(b, h) && Get(b, h).state != TcpConnected
    ensures var r := Handle(b, h, len, inp); r.Continue? ==> Has(r.b, h) && Get(r.b, h).id == Get(b, h).id
  {
    var c := Get(b, h);
    var kind := Kind(c.inBuf);
    HandleSound(b, h, len, inp);
    if c.state == MqttData {
      if kind == SUBSCRIBE {
        var w := SubscribeWalk(b.slots, h, c.inBuf, len, 4, [], []);
        var c1 := Ack(c, SUBACK, GetId(c.inBuf, BUF), w.codes);
        SendRetainedFeeds(c1, b.retained, w.last, 0);
        PutGet(b.(slots := w.slots), h, SendRetained(c1, b.retained, w.last, 0));
      } else if kind == UNSUBSCRIBE {
        var w := UnsubscribeWalk(b.slots, h, c.inBuf, len, 4);
        PutGet(b.(slots := w.slots), h, Ack(c, UNSUBACK, GetId(c.inBuf, BUF), []));
      } else if kind == PUBLISH {
        PublishFeeds(b, c.inBuf, inp.own, h);
      } else if kind == PINGREQ {
        PutGet(b, h, Enqueue(c, Build(PINGRESP, 0, 0, 0, [])));
      }
    }
  }

  /** A PUBLISH only feeds queues. */
  lemma PublishFeeds(b: Broker, buf: InBuffer, mem: Mem, g: nat)
    ensures var b1 := HandlePublish(b, buf, mem);
            (Has(b1, g) <==> Has(b, g)) && (Has(b, g) ==> Get(b1, g).id == Get(b, g).id)
  {
    match PublishTopic(buf, BUF)
    case None =>
    case Some(t) => FanoutKeepsId(b, CStr(t), PayloadOf(buf), g);
  }

  lemma FanoutKeepsId(b: Broker, topic: seq<byte>, data: seq<byte>, g: nat)
    ensures var b1 := Fanout(b, topic, data, 0);
            (Has(b1, g) <==> Has(b, g)) && (Has(b, g) ==> Get(b1, g).id == Get(b, g).id)
  {
    FanoutFeeds(b, topic, data, 0);
    FedEvolves(b, Fanout(b, topic, data, 0), g);
  }

  lemma PutIds(b: Broker, h: nat, c: Client)
    requires Inv(b) && IdsOk(b) && Has(b, h) && c.h == h && c.id == Get(b, h).id && StateStep(Get(b, h).state, c.state)
    ensures Inv(Put(b, h, c)) && IdsOk(Put(b, h, c)) && Has(Put(b, h, c), h) && Get(Put(b, h, c), h) == c
  {
    PutKeeps(b, h, c, None);
    PutShape(b, h, c);
    PutEvolves(b, h, c);
    SameIds(b, Put(b, h, c), h);
  }

  /** Any packet but a CONNECT leaves the other connections in the list. */
  lemma OthersStayListed(b: Broker, h: nat, len: Count, inp: Input, g: nat)
    requires Inv(b) && Has(b, h) && Has(b, g) && g != h
    requires Get(b, h).state == TcpConnected ==> Kind(Get(b, h).inBuf) != CONNECT
    ensures Has(Handle(b, h, len, inp).b, g)
  {
    var c := Get(b, h);
    var kind := Kind(c.inBuf);
    if c.state == TcpConnected {
      OtherStays(b, h, g, inp.own);
    } else if c.state == MqttData {
      if kind == SUBSCRIBE {
        SubscribeStays(b, h, len, inp, g);
      } else if kind == UNSUBSCRIBE {
        UnsubscribeStays(b, h, len, inp, g);
      } else if kind == PUBLISH {
        PublishFeeds(b, c.inBuf, inp.own, g);
      } else if kind == PINGREQ {
        PutShape(b, h, Enqueue(c, Build(PINGRESP, 0, 0, 0, [])));
      } else if kind == DISCONNECT {
        ChangedStays(b, h, c.(will := c.will.(topic := None)), inp.own, g);
      }
    }
  }

  /** The connection's own record changes, and it is perhaps removed. */
  lemma ChangedStays(b: Broker, h: nat, c: Client, mem: Mem, g: nat)
    requires Inv(b) && Has(b, h) && Has(b, g) && g != h && c.h == h && c.state == Get(b, h).state
    ensures Has(Put(b, h, c), g) && Has(Put(b, h, c), h) && Has(Delete(Put(b, h, c), h, mem), g) && Has(Delete(b, h, mem), g)
  {
    PutKeeps(b, h, c, None);
    PutShape(b, h, c);
    OtherStays(Put(b, h, c), h, g, mem);
    OtherStays(b, h, g, mem);
  }

  lemma SubscribeStays(b: Broker, h: nat, len: Count, inp: Input, g: nat)
    requires Inv(b) && Has(b, h) && Has(b, g) && g != h && Get(b, h).state == MqttData
    ensures Has(HandleSubscribe(b, h, len, inp).b, g)
  {
    var c := Get(b, h);
    OtherStays(b, h, g, inp.own);
    if 8 <= len {
      var w := SubscribeWalk(b.slots, h, c.inBuf, len, 4, [], []);
      SubscribeWalkKeeps(b.clients, b.slots, h, c.inBuf, len, 4, [], []);
      SlotsChange(b, w.slots, h, len);
      var c1 := Ack(c, SUBACK, GetId(c.inBuf, BUF), w.codes);
      SendRetainedFeeds(c1, b.retained, w.last, 0);
      ChangedStays(b.(slots := w.slots), h, SendRetained(c1, b.retained, w.last, 0), inp.own, g);
    }
  }

  lemma UnsubscribeStays(b: Broker, h: nat, len: Count, inp: Input, g: nat)
    requires Inv(b) && Has(b, h) && Has(b, g) && g != h && Get(b, h).state == MqttData
    ensures Has(HandleUnsubscribe(b, h, len, inp).b, g)
  {
    var c := Get(b, h);
    OtherStays(b, h, g, inp.own);
    if 7 <= len {
      var w := UnsubscribeWalk(b.slots, h, c.inBuf, len, 4);
      UnsubscribeWalkKeeps(b.clients, b.slots, h, c.inBuf, len, 4);
      SlotsChange(b, w.slots, h, len);
      ChangedStays(b.(slots := w.slots), h, Ack(c, UNSUBACK, GetId(c.inBuf, BUF), []), inp.own, g);
    }
  }

  /** One packet past CONNECT: ids and connections stay, but for the client's own. */
  lemma PacketPast(b: Broker, h: nat, len: Count, inp: Input, g: nat)
    requires Inv(b) && Has(b, h) && Get(b, h).state != TcpConnected && Has(b, g) && len <= Get(b, h).read
    ensures var c := Get(b, h);
            var b0 := Put(b, h, c.(dispatched := c.dispatched + [c.inBuf[..len]]));
            && Has(b0, h) && Get(b0, h).read == c.read
            && (var r := Handle(b0, h, len, inp);
                && Inv(r.b) && (g != h ==> Has(r.b, g)) && (r.Continue? <==> Has(r.b, h))
                && (Has(r.b, h) ==> Get(r.b, h).id == c.id && Get(r.b, h).state != TcpConnected && Get(r.b, h).read == c.read))
  {
    var c := Get(b, h);
    var seen := c.(dispatched := c.dispatched + [c.inBuf[..len]]);
    var b0 := Put(b, h, seen);
    PutKeeps(b, h, seen, None);
    PutShape(b, h, seen);
    HandleSound(b0, h, len, inp);
    IdFixed(b0, h, len, inp);
    if g != h {
      OthersStayListed(b0, h, len, inp, g);
    }
  }

  /** The loop past CONNECT. */
  lemma {:induction false} PastConnect(b: Broker, h: nat, inputs: seq<Input>, g: nat)
    requires Inv(b) && Has(b, h) && Get(b, h).state != TcpConnected && Has(b, g)
    ensures var b' := ReadPackets(b, h, inputs);
            (g != h ==> Has(b', g)) && (Has(b', h) ==> Get(b', h).id == Get(b, h).id)
    decreases Get(b, h).read
  {
    var c := Get(b, h);
    var len := MessageLength(c);
    if len <= c.read {
      PacketPast(b, h, len, NextInput(inputs), g);
      var b0 := Put(b, h, c.(dispatched := c.dispatched + [c.inBuf[..len]]));
      var r := Handle(b0, h, len, NextInput(inputs));
      if r.Continue? && len != 0 {
        var c1 := Finish(Get(r.b, h), c.read, len);
        PutKeeps(r.b, h, c1, None);
        PutShape(r.b, h, c1);
        if len < c.read {
          PastConnect(Put(r.b, h, c1), h, LaterInputs(inputs), g);
        }
      }
    }
  }

  /** The ids of all but `h` are apart. */
  ghost predicate ApartBut(b: Broker, h: nat) {
    && (forall g: nat, l: nat :: g != l && g != h && l != h && Has(b, g) && Has(b, l) && Get(b, g).id != [] ==>
          Get(b, g).id != Get(b, l).id)
    && (forall g: nat :: g != h && Has(b, g) && Get(b, g).state == TcpConnected ==> Get(b, g).id == [])
  }

  lemma ApartEvolves(b: Broker, b': Broker, h: nat)
    requires ApartBut(b, h) && Evolves(b, b', h)
    ensures ApartBut(b', h)
  {
    forall g: nat | g != h && Has(b', g)
      ensures Has(b, g) && Get(b', g).id == Get(b, g).id && Get(b', g).state == Get(b, g).state
    {
      assert Fed(Get(b, g), Get(b', g));
    }
  }

  /** What is left of ids that are not apart when all other connections stay. */
  lemma RestExact(b: Broker, b': Broker, h: nat)
    requires ApartBut(b, h) && Evolves(b, b', h)
    requires Has(b, h) && Get(b, h).state != TcpConnected
    requires forall g: nat :: g != h && Has(b, g) ==> Has(b', g)
    requires Has(b', h) ==> Get(b', h).id == Get(b, h).id
    ensures IdsOk(b') <==> IdsOk(b) || !Has(b', h)
  {
    ApartEvolves(b, b', h);
    if IdsOk(b) {
      SameIds(b, b', h);
    } else if Has(b', h) {
      assert !(Get(b, h).id == [] || NobodyHas(b, Get(b, h).id, h));
      var g: nat :| g != h && Has(b, g) && Get(b, g).id == Get(b, h).id;
      assert Fed(Get(b, g), Get(b', g));
    }
  }

  /** The first packet of what has arrived, where a connection still has its CONNECT to come. */
  predicate AwaitsConnect(c: Client) {
    c.state == TcpConnected && MessageLength(c) <= c.read && Kind(c.inBuf) == CONNECT
  }

  ghost predicate FirstApart(b: Broker, h: nat)
    requires Has(b, h)
  {
    AwaitsConnect(Get(b, h)) ==> KeepsApart(b, h, Get(b, h).inBuf, MessageLength(Get(b, h)))
  }

  lemma FirstPacketExact(b: Broker, h: nat, len: Count, inp: Input)
    requires Inv(b) && IdsOk(b) && Has(b, h) && Get(b, h).state == TcpConnected
    ensures var r := Handle(b, h, len, inp);
            && ApartBut(r.b, h)
            && (IdsOk(r.b) <==> (Kind(Get(b, h).inBuf) == CONNECT ==> KeepsApart(b, h, Get(b, h).inBuf, len)))
            && (r.Closed? ==> IdsOk(r.b))
  {
    HandleSound(b, h, len, inp);
    ApartEvolves(b, Handle(b, h, len, inp).b, h);
    if Kind(Get(b, h).inBuf) == CONNECT {
      ConnectExact(b, h, len, inp);
    } else {
      DropIds(b, h, inp.own);
    }
  }

  /** The first packet, with its bytes counted as dispatched. */
  lemma SeenExact(b: Broker, h: nat, len: Count, inp: Input)
    requires Inv(b) && IdsOk(b) && Has(b, h) && Get(b, h).state == TcpConnected && len <= Get(b, h).read
    ensures var c := Get(b, h);
            var b0 := Put(b, h, c.(dispatched := c.dispatched + [c.inBuf[..len]]));
            && Has(b0, h) && Get(b0, h).read == c.read
            && (var r := Handle(b0, h, len, inp);
                && Inv(r.b) && ApartBut(r.b, h)
                && (IdsOk(r.b) <==> (Kind(c.inBuf) == CONNECT ==> KeepsApart(b, h, c.inBuf, len)))
                && (if r.Closed? then IdsOk(r.b) && !Has(r.b, h)
                    else Has(r.b, h) && Get(r.b, h).state != TcpConnected && Get(r.b, h).read == c.read))
  {
    var c := Get(b, h);
    var seen := c.(dispatched := c.dispatched + [c.inBuf[..len]]);
    PutIds(b, h, seen);
    if Kind(c.inBuf) == CONNECT && StoresId(c.inBuf, len) {
      SameNames(b, h, seen, IdFieldOf(c.inBuf, len).id);
    }
    FirstPacketExact(Put(b, h, seen), h, len, inp);
    HandleSound(Put(b, h, seen), h, len, inp);
  }

  /**
   * READPACKET keeps the ids apart exactly when its first packet does, or when the connection
   * is gone in the end.
   */
  lemma ReadPacketsExact(b: Broker, h: nat, inputs: seq<Input>)
    requires Inv(b) && IdsOk(b) && Has(b, h)
    ensures IdsOk(ReadPackets(b, h, inputs)) <==> FirstApart(b, h) || !Has(ReadPackets(b, h, inputs), h)
  {
    if Get(b, h).state != TcpConnected {
      PastConnect(b, h, inputs, h);
      ReadPacketsKeeps(b, h, inputs);
      SameIds(b, ReadPackets(b, h, inputs), h);
    } else if MessageLength(Get(b, h)) <= Get(b, h).read {
      ArrivedExact(b, h, MessageLength(Get(b, h)), inputs);
    }
  }

  lemma ArrivedExact(b: Broker, h: nat, len: Count, inputs: seq<Input>)
    requires Inv(b) && IdsOk(b) && Has(b, h) && Get(b, h).state == TcpConnected
    requires len == MessageLength(Get(b, h)) <= Get(b, h).read
    ensures var b' := ReadPackets(b, h, inputs);
            IdsOk(b') <==> (Kind(Get(b, h).inBuf) == CONNECT ==> KeepsApart(b, h, Get(b, h).inBuf, len)) || !Has(b', h)
  {
    var c := Get(b, h);
    SeenExact(b, h, len, NextInput(inputs));
    var r := Handle(Put(b, h, c.(dispatched := c.dispatched + [c.inBuf[..len]])), h, len, NextInput(inputs));
    if r.Continue? {
      PutGet(r.b, h, Finish(Get(r.b, h), c.read, len));
      var b' := ReadPackets(b, h, inputs);
      LaterPackets(r.b, b', h, c.read, len, LaterInputs(inputs));
      RestExact(r.b, b', h);
    }
  }

  /** What READPACKET does once the first packet has been handled. */
  lemma LaterPackets(b: Broker, b': Broker, h: nat, read: Count, len: Count, inputs: seq<Input>)
    requires Inv(b) && Has(b, h) && Get(b, h).state != TcpConnected && len <= read && Get(b, h).read == read
    requires var c1 := Finish(Get(b, h), read, len);
             && Has(Put(b, h, c1), h)
             && b' == if len == 0 then b.(stuck := true)
                      else if len < read then ReadPackets(Put(b, h, c1), h, inputs) else Put(b, h, c1)
    ensures Evolves(b, b', h)
    ensures forall g: nat :: g != h && Has(b, g) ==> Has(b', g)
    ensures Has(b', h) ==> Get(b', h).id == Get(b, h).id
  {
    var c1 := Finish(Get(b, h), read, len);
    var b1 := Put(b, h, c1);
    PutKeeps(b, h, c1, None);
    PutShape(b, h, c1);
    PutEvolves(b, h, c1);
    if len == 0 {
      FedEvolves(b, b', h);
    } else if len < read {
      PastConnect(b1, h, inputs, h);
      ReadPacketsKeeps(b1, h, inputs);
      EvolvesTwice(b, b1, b', h);
      forall g: nat | g != h && Has(b, g)
        ensures Has(b', g)
      {
        PastConnect(b1, h, inputs, g);
      }
    }
  }

  lemma PutOrDeleteIds(b: Broker, h: nat, c: Client, mem: Mem)
    requires Inv(b) && IdsOk(b) && Has(b, h) && c.h == h && c.id == Get(b, h).id && c.state == Get(b, h).state
    ensures IdsOk(Put(b, h, c)) && Has(Put(b, h, c), h) && IdsOk(Delete(Put(b, h, c), h, mem))
  {
    PutIds(b, h, c);
    DropIds(Put(b, h, c), h, mem);
  }

  lemma TaskIds(b: Broker, h: nat, room: nat, mem: Mem)
    requires Inv(b) && IdsOk(b) && Has(b, h)
    ensures IdsOk(RunTask(b, h, room, mem))
  {
    var c := Get(b, h);
    PutOrDeleteIds(b, h, Attempt(c, room).0, mem);
  }

  lemma TickIds(b: Broker, h: nat, mem: Mem)
    requires Inv(b) && IdsOk(b) && Has(b, h)
    ensures IdsOk(Tick(b, h, mem))
  {
    var c1 := Countdown(Get(b, h));
    if c1.connTimeout > 0 {
      PutIds(b, h, c1.(connTimeout := c1.connTimeout - 1));
    } else {
      PutOrDeleteIds(b, h, c1, mem);
    }
  }

  lemma AcceptIds(b: Broker)
    requires Inv(b) && IdsOk(b)
    ensures IdsOk(Accept(b))
  {
    AcceptKeeps(b);
    var b' := Accept(b);
    assert Has(b', b.next) && Get(b', b.next) == NewClient(b.next);
  }

  /**
   * The step keeps the ids apart: the first packet of a chunk does, as far as it is a CONNECT
   * to come, or the connection is gone at the end of the chunk.
   */
  ghost predicate StepApart(b: Broker, e: Event) {
    !Halted(b) && e.Chunk? && Has(b, e.h) && |e.chunk| + Get(b, e.h).read <= BUF && 2 <= |e.chunk| ==>
      FirstApart(Copied(b, e.h, e.chunk), e.h) || !Has(Step(b, e), e.h)
  }

  lemma StepIds(b: Broker, e: Event)
    requires Inv(b) && IdsOk(b)
    ensures IdsOk(Step(b, e)) <==> StepApart(b, e)
  {
    if !Halted(b) {
      match e
      case Connection => AcceptIds(b);
      case Chunk(h, chunk, inputs) =>
        if Has(b, h) {
          ChunkIds(b, h, chunk, inputs);
        }
      case Gone(h, mem) => if Has(b, h) { DropIds(b, h, mem); }
      case Timer(h, mem) => if Has(b, h) { TickIds(b, h, mem); }
      case Task(h, room, mem) => if Has(b, h) { TaskIds(b, h, room, mem); }
      case LocalPublish(topic, data, qos, retain, mem) =>
        FanoutIds(b, topic, data);
        SameClients(Fanout(b, topic, data, 0), Step(b, e));
      case LocalSubscribe(_) => SameClients(b, Step(b, e));
      case LocalUnsubscribe(_) => SameClients(b, Step(b, e));
    }
  }

  lemma ChunkIds(b: Broker, h: nat, chunk: seq<byte>, inputs: seq<Input>)
    requires Inv(b) && IdsOk(b) && Has(b, h)
    ensures var b' := ReceiveChunk(b, h, chunk, inputs);
            if |chunk| + Get(b, h).read <= BUF && 2 <= |chunk|
            then IdsOk(b') <==> FirstApart(Copied(b, h, chunk), h) || !Has(b', h)
            else IdsOk(b')
  {
    var c := Get(b, h);
    if BUF < |chunk| + c.read {
      DropIds(b, h, NextInput(inputs).own);
    } else {
      PutIds(b, h, CopyIn(c, chunk));
      if 2 <= |chunk| {
        ReadPacketsExact(Copied(b, h, chunk), h, inputs);
      }
    }
  }

  lemma FanoutIds(b: Broker, topic: seq<byte>, data: seq<byte>)
    requires IdsOk(b)
    ensures IdsOk(Fanout(b, topic, data, 0))
  {
    FanoutFeeds(b, topic, data, 0);
    var b1 := Fanout(b, topic, data, 0);
    forall g: nat | Has(b1, g)
      ensures Has(b, g) && Get(b1, g).id == Get(b, g).id && Get(b1, g).state == Get(b, g).state
    {
      SameHandles(b.clients, b1.clients, g);
    }
  }

  // ---------------------------------------------------------------- runs

  /** The ids are apart at every step boundary of the run. */
  ghost predicate AlwaysApart(b: Broker, es: seq<Event>)
    decreases |es|
  {
    IdsOk(b) && (es == [] || AlwaysApart(Step(b, es[0]), es[1..]))
  }

  ghost predicate EachStepApart(b: Broker, es: seq<Event>)
    decreases |es|
  {
    es == [] || (StepApart(b, es[0]) && EachStepApart(Step(b, es[0]), es[1..]))
  }

  /** Over any run, the ids stay apart exactly when every CONNECT in it keeps them apart. */
  lemma {:induction false} IdsExact(b: Broker, es: seq<Event>)
    requires Inv(b) && IdsOk(b)
    ensures AlwaysApart(b, es) <==> EachStepApart(b, es)
    decreases |es|
  {
    if es != [] {
      StepKeeps(b, es[0]);
      StepIds(b, es[0]);
      if IdsOk(Step(b, es[0])) {
        IdsExact(Step(b, es[0]), es[1..]);
      }
    }
  }

  /** The hypothesis on a step: a CONNECT in it compares the id that it stores. */
  predicate StepTerminated(b: Broker, e: Event) {
    e.Chunk? && Has(b, e.h) && |e.chunk| + Get(b, e.h).read <= BUF ==>
      var c := Get(Copied(b, e.h, e.chunk), e.h);
      AwaitsConnect(c) ==> Terminated(c.inBuf, MessageLength(c))
  }

  ghost predicate RunTerminated(b: Broker, es: seq<Event>)
    decreases |es|
  {
    es == [] || (StepTerminated(b, es[0]) && RunTerminated(Step(b, es[0]), es[1..]))
  }

  /** In particular they do in every run in which each compared id is the stored one. */
  lemma {:induction false} IdsStayDistinct(b: Broker, es: seq<Event>)
    requires Inv(b) && IdsOk(b) && RunTerminated(b, es)
    ensures Inv(Run(b, es)) && IdsOk(Run(b, es))
    decreases |es|
  {
    if es != [] {
      StepKeeps(b, es[0]);
      TerminatedApart(b, es[0]);
      StepIds(b, es[0]);
      IdsStayDistinct(Step(b, es[0]), es[1..]);
    }
  }

  lemma TerminatedApart(b: Broker, e: Event)
    requires StepTerminated(b, e)
    ensures StepApart(b, e)
  {
    if e.Chunk? && Has(b, e.h) && |e.chunk| + Get(b, e.h).read <= BUF {
      var c := Get(Copied(b, e.h, e.chunk), e.h);
      if AwaitsConnect(c) && StoresId(c.inBuf, MessageLength(c)) {
        EmptyTogether(c.inBuf, MessageLength(c), ReadConnectHeader(c.inBuf).value, IdFieldOf(c.inBuf, MessageLength(c)));
      }
    }
  }

  /** Before CONNECT there is no id, in any run. */
  lemma {:induction false} NamelessStays(b: Broker, es: seq<Event>)
    requires Inv(b) && Nameless(b)
    ensures Nameless(Run(b, es))
    decreases |es|
  {
    if es != [] {
      StepKeeps(b, es[0]);
      NamelessStep(b, es[0]);
      NamelessStays(Step(b, es[0]), es[1..]);
    }
  }

  lemma NamelessStep(b: Broker, e: Event)
    requires Inv(b) && Nameless(b)
    ensures Nameless(Step(b, e))
  {
    StepKeeps(b, e);
    var b' := Step(b, e);
    forall g: nat | Has(b', g) && Get(b', g).state == TcpConnected
      ensures Get(b', g).id == []
    {
      if e.Connection? {
        AcceptKeeps(b);
      } else if Subject(e).None? {
        FedEvolves(b, b', g);
      } else if Subject(e) == Some(g) {
        OwnNameless(b, e, g);
      } else {
        assert Fed(Get(b, g), Get(b', g));
      }
    }
  }

  lemma OwnNameless(b: Broker, e: Event, g: nat)
    requires Inv(b) && Nameless(b) && Subject(e) == Some(g) && Has(Step(b, e), g)
    requires Get(Step(b, e), g).state == TcpConnected
    ensures Get(Step(b, e), g).id == []
  {
    StepKeeps(b, e);
    if !Halted(b) {
      var c := Get(b, g);
      match e
      case Gone(_, mem) => DeleteKeeps(b, g, mem);
      case Timer(_, mem) =>
        var c1 := Countdown(c);
        PutOrGone(b, g, c1.(connTimeout := if c1.connTimeout > 0 then c1.connTimeout - 1 else 0), mem);
        PutOrGone(b, g, c1, mem);
      case Task(_, room, mem) => PutOrGone(b, g, Attempt(c, room).0, mem);
      case Chunk(_, chunk, inputs) =>
        if BUF < |chunk| + c.read {
          DeleteKeeps(b, g, NextInput(inputs).own);
        } else {
          PutKeeps(b, g, CopyIn(c, chunk), None);
          PutShape(b, g, CopyIn(c, chunk));
          UnreadNameless(Copied(b, g, chunk), g, inputs);
        }
    }
  }

  /** Only a connection that no packet has come from is still before its CONNECT. */
  lemma UnreadNameless(b: Broker, h: nat, inputs: seq<Input>)
    requires Inv(b) && Has(b, h)
    ensures var b' := ReadPackets(b, h, inputs);
            Has(b', h) && Get(b', h).state == TcpConnected ==> b' == b
  {
    var c := Get(b, h);
    var len := MessageLength(c);
    if len <= c.read {
      var seen := c.(dispatched := c.dispatched + [c.inBuf[..len]]);
      var b0 := Put(b, h, seen);
      PutKeeps(b, h, seen, None);
      PutShape(b, h, seen);
      HandleSound(b0, h, len, NextInput(inputs));
      var r := Handle(b0, h, len, NextInput(inputs));
      if r.Continue? && len != 0 {
        LaterPacketsKeepState(r.b, h, Finish(Get(r.b, h), c.read, len), LaterInputs(inputs));
      }
    }
  }
}
