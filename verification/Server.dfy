/**
 * src/mqtt_server.cpp as it runs: globals changed in place by callbacks. Each method is proved
 * to do the step of Broker that it stands for.
 */
module Server {
  import opened Bytes
  import opened Packet
  import opened Reader
  import opened Reassembly
  import opened Topics
  import opened TopicList
  import opened Retained
  import opened RetainedStore
  import opened Broker

  class MqttServer {
    var clientList: seq<Client>
    const topicList: Subscriptions
    const retainedList: Store
    var next: nat
    var local: seq<Delivery>
    var wills: seq<nat>
    var stuck: bool
    var fault: bool

    /** The broker's state as a value. */
    ghost function State(): Broker
      reads this, topicList.slots, retainedList.list
    {
      Broker(clientList, topicList.slots[..], retainedList.list[..], next, local, wills, stuck, fault)
    }

    /** MQTT_server_start. */
    constructor (maxSubscriptions: nat, maxRetained: nat)
      ensures State() == Start(maxSubscriptions, maxRetained)
      ensures fresh(topicList.slots) && fresh(retainedList.list)
    {
      clientList, next, local, wills, stuck, fault := [], 0, [], [], false, false;
      topicList := new Subscriptions(maxSubscriptions);
      retainedList := new Store(maxRetained);
      new;
      assert topicList.slots[..] == seq(maxSubscriptions, _ => Free);
    }

    // -------------------------------------------------------------- the client list

    /** The walk along clientcon_list. */
    method Locate(h: nat) returns (i: nat)
      ensures i == At(clientList, h)
    {
      i := 0;
      while i < |clientList| && clientList[i].h != h
        invariant i <= |clientList|
        invariant forall j :: 0 <= j < i ==> clientList[j].h != h
      {
        i := i + 1;
      }
      if i < |clientList| {
        AtIs(clientList, h, i);
      }
    }

    /** An update of the fields of one client's record. */
    method Set(h: nat, c: Client)
      requires Has(State(), h) && c.h == h
      modifies this`clientList
      ensures State() == Put(old(State()), h, c)
      ensures Has(State(), h) && Get(State(), h) == c
    {
      PutGet(State(), h, c);
      var i := Locate(h);
      clientList := clientList[i := c];
    }

    method Fetch(h: nat) returns (c: Client)
      requires Has(State(), h)
      ensures c == Get(State(), h)
    {
      var i := Locate(h);
      c := clientList[i];
    }

    // -------------------------------------------------------------- publishing

    /** publish_topic. */
    method PublishTopic(slot: Slot, topic: seq<byte>, data: seq<byte>)
      requires slot.Sub?
      modifies this`clientList, this`local, this`fault
      ensures State() == PublishSlot(old(State()), slot, topic, data)
    {
      match slot.owner
      case Local =>
        local := local + [Delivery(topic, data)];
      case Con(h) =>
        var i := Locate(h);
        if i < |clientList| {
          Set(h, PublishTo(clientList[i], topic, data, slot.qos, 0));
        } else {
          fault := fault || Writes(topic);
        }
    }

    /** find_topic with publish_topic as its callback. */
    method FindTopic(topic: seq<byte>, data: seq<byte>)
      modifies this`clientList, this`local, this`fault
      ensures State() == Fanout(old(State()), topic, data, 0)
    {
      var i := 0;
      while i < topicList.slots.Length
        invariant 0 <= i <= topicList.slots.Length
        invariant Fanout(State(), topic, data, i) == Fanout(old(State()), topic, data, 0)
      {
        var slot := topicList.slots[i];
        if slot.Sub? {
          var hit := TopicsMatch(slot.filter, true, topic);
          if hit {
            PublishTopic(slot, topic, data);
          }
        }
        i := i + 1;
      }
    }

    method UpdateRetainedTopic(topic: seq<byte>, data: payload, qos: byte, mem: Mem)
      modifies retainedList.list
      ensures State() == UpdateRetained(old(State()), topic, data, qos, mem)
    {
      var _ := retainedList.UpdateTopic(topic, data, qos, mem);
    }

    /** MQTT_server_deleteClientCon. */
    method DeleteClientCon(h: nat, mem: Mem)
      requires Has(State(), h)
      modifies this, topicList.slots, retainedList.list
      ensures State() == Delete(old(State()), h, mem)
    {
      var i := Locate(h);
      var will := clientList[i].will;
      clientList := clientList[..i] + clientList[i + 1..];
      if will.topic.Some? {
        FindTopic(will.topic.value, will.data);
        if will.retain {
          UpdateRetainedTopic(will.topic.value, will.data, will.qos, mem);
        }
        wills := wills + [h];
      }
      topicList.DeleteTopic(Some(Con(h)), None);
    }

    /** delete_client_by_id. */
    method DeleteClientById(id: seq<byte>, mem: Mem)
      modifies this, topicList.slots, retainedList.list
      ensures State() == DeleteById(old(State()), id, mem)
    {
      var i := 0;
      while i < |clientList| && clientList[i].id != id
        invariant i <= |clientList|
        invariant forall j :: 0 <= j < i ==> clientList[j].id != id
      {
        i := i + 1;
      }
      AtIdIs(clientList, id, i);
      if i < |clientList| {
        ListedHas(State(), i);
        DeleteClientCon(clientList[i].h, mem);
      }
    }

    // -------------------------------------------------------------- packets before and after CONNECT

    /** mqtt_msg_connack and QUEUE_Puts at the end of the case TCP_CONNECTED. */
    method SendConnack(h: nat, code: byte)
      requires Has(State(), h)
      modifies this`clientList
      ensures Continue(State()) == Connack(old(State()), h, code)
    {
      var c := Fetch(h);
      c := c.(state := if code == ACCEPTED then MqttData else TcpDisconnecting);
      Set(h, Enqueue(c, Build(CONNACK, 0, 0, 0, [0, code])));
    }

    method OnConnect(h: nat, len: nat, inp: Input) returns (closed: bool)
      requires Has(State(), h)
      modifies this, topicList.slots, retainedList.list
      ensures (if closed then Closed(State()) else Continue(State())) == HandleConnect(old(State()), h, len, inp)
    {
      var c := Fetch(h);
      if len < 13 {
        DeleteClientCon(h, inp.own);
        return true;
      }
      var header := ReadConnectHeader(c.inBuf);
      if header.None? {
        SendConnack(h, REFUSE_PROTOCOL);
        return false;
      }
      var hd := header.value;
      Set(h, c.(inBuf := ShiftHeader(c.inBuf, hd.version),
                cleanSession := hd.flags / 2 % 2 == 1, keepalive := hd.keepalive));
      var field := ReadId(c.inBuf, len, hd);
      if field.None? {
        SendConnack(h, REFUSE_ID);
        return false;
      }
      if field.value.key.Some? {
        DeleteClientById(field.value.key.value, inp.takeover);
      }
      var i := Locate(h);
      if i == |clientList| {
        fault := true;
        return true;
      }
      closed := OnConnectAfterId(h, len, hd, field.value, inp);
    }

    method OnConnectAfterId(h: nat, len: nat, hd: ConnectHeader, f: IdField, inp: Input) returns (closed: bool)
      requires Has(State(), h)
      modifies this, topicList.slots, retainedList.list
      ensures (if closed then Closed(State()) else Continue(State())) == AfterId(old(State()), h, len, hd, f, inp)
    {
      var c := Fetch(h);
      var w := ReadWill(c.inBuf, len, hd.flags, f.used);
      c := c.(id := f.id, will := w.will);
      if !w.ok || !ReadCredentials(c.inBuf, len, hd.flags, w.used) {
        Set(h, c);
        DeleteClientCon(h, inp.own);
        return true;
      }
      if !inp.auth {
        Set(h, c.(will := c.will.(topic := None)));
        SendConnack(h, REFUSE_AUTH);
        return false;
      }
      Set(h, c);
      SendConnack(h, ACCEPTED);
      return false;
    }

    /** The walk over the filters of a SUBSCRIBE. */
    method WalkSubscribe(h: nat, buf: InBuffer, len: Count) returns (codes: seq<byte>, last: seq<byte>, ok: bool)
      modifies topicList.slots
      ensures var w := SubscribeWalk(old(topicList.slots[..]), h, buf, len, 4, [], []);
              topicList.slots[..] == w.slots && codes == w.codes && last == w.last && ok == w.ok
    {
      var at := 4;
      codes, last := [], [];
      while at < len && |codes| < MAX_SUBS
        invariant 0 <= at <= BUF + 1
        invariant SubscribeWalk(topicList.slots[..], h, buf, len, at, codes, last) ==
                  SubscribeWalk(old(topicList.slots[..]), h, buf, len, 4, [], [])
        decreases len - at
      {
        var n := StrAt(buf, at, len - at);
        if n.None? {
          return codes, last, false;
        }
        var end := at + 2 + n.value;
        if end >= len {
          return codes, last, false;
        }
        last := CStr(buf[at + 2..end]);
        var stored := topicList.AddTopic(Con(h), last, 0);
        codes := codes + [if stored then 0 else 0x80];
        at := end + 1;
      }
      return codes, last, true;
    }

    /** The walk over the filters of an UNSUBSCRIBE. */
    method WalkUnsubscribe(h: nat, buf: InBuffer, len: Count) returns (ok: bool)
      modifies topicList.slots
      ensures var w := UnsubscribeWalk(old(topicList.slots[..]), h, buf, len, 4);
              topicList.slots[..] == w.slots && ok == w.ok
    {
      var at := 4;
      ghost var goal := UnsubscribeWalk(topicList.slots[..], h, buf, len, 4);
      while at < len
        invariant 0 <= at <= BUF
        invariant UnsubscribeWalk(topicList.slots[..], h, buf, len, at) == goal
        decreases len - at
      {
        ghost var slots := topicList.slots[..];
        var n := StrAt(buf, at, len - at);
        if n.None? {
          return false;
        }
        var end := at + 2 + n.value;
        var filter := CStr(buf[at + 2..end]);
        UnsubscribeStep(slots, h, buf, len, at, end, filter);
        topicList.DeleteTopic(Some(Con(h)), Some(filter));
        at := end;
      }
      return true;
    }

    /** find_retainedtopic with publish_retainedtopic as its callback. */
    method FindRetained(c: Client, filter: seq<byte>) returns (c': Client)
      ensures c' == SendRetained(c, retainedList.list[..], filter, 0)
    {
      c' := c;
      var i := 0;
      while i < retainedList.list.Length
        invariant 0 <= i <= retainedList.list.Length
        invariant SendRetained(c', retainedList.list[..], filter, i) == SendRetained(c, retainedList.list[..], filter, 0)
      {
        var e := retainedList.list[i];
        if e.topic.Some? && e.data.Some? {
          var hit := TopicsMatch(filter, true, e.topic.value);
          if hit {
            c' := PublishTo(c', e.topic.value, e.data.value, e.qos, 1);
          }
        }
        i := i + 1;
      }
    }

    method OnSubscribe(h: nat, len: Count, inp: Input) returns (closed: bool)
      requires Has(State(), h)
      modifies this, topicList.slots, retainedList.list
      ensures (if closed then Closed(State()) else Continue(State())) == HandleSubscribe(old(State()), h, len, inp)
    {
      var c := Fetch(h);
      if len < 8 {
        DeleteClientCon(h, inp.own);
        return true;
      }
      var codes, last, ok := WalkSubscribe(h, c.inBuf, len);
      if !ok {
        DeleteClientCon(h, inp.own);
        return true;
      }
      var c' := FindRetained(Ack(c, SUBACK, GetId(c.inBuf, BUF), codes), last);
      Set(h, c');
      return false;
    }

    method OnUnsubscribe(h: nat, len: Count, inp: Input) returns (closed: bool)
      requires Has(State(), h)
      modifies this, topicList.slots, retainedList.list
      ensures (if closed then Closed(State()) else Continue(State())) == HandleUnsubscribe(old(State()), h, len, inp)
    {
      var c := Fetch(h);
      if len < 7 {
        DeleteClientCon(h, inp.own);
        return true;
      }
      var ok := WalkUnsubscribe(h, c.inBuf, len);
      if !ok {
        DeleteClientCon(h, inp.own);
        return true;
      }
      Set(h, Ack(c, UNSUBACK, GetId(c.inBuf, BUF), []));
      return false;
    }

    method OnPublish(buf: InBuffer, mem: Mem)
      modifies this, retainedList.list
      ensures State() == HandlePublish(old(State()), buf, mem)
    {
      var name := GetPublishTopic(buf, BUF);
      var data := GetPublishData(buf, BUF);
      if name.None? {
        fault := true;
        return;
      }
      var topic := CStr(name.value);
      if !Head(topic, DOLLAR) {
        var bytes := if data.Some? then data.value else [];
        FindTopic(topic, bytes);
        if Retain(buf) == 1 {
          UpdateRetainedTopic(topic, bytes, Qos(buf), mem);
        }
      }
    }

    /** The switch over connection state and packet kind. */
    method OnPacket(h: nat, len: Count, inp: Input) returns (closed: bool)
      requires Has(State(), h)
      modifies this, topicList.slots, retainedList.list
      ensures (if closed then Closed(State()) else Continue(State())) == Handle(old(State()), h, len, inp)
    {
      var c := Fetch(h);
      var kind := Kind(c.inBuf);
      closed := false;
      match c.state
      case TcpConnected =>
        if kind == CONNECT {
          closed := OnConnect(h, len, inp);
        } else {
          DeleteClientCon(h, inp.own);
          closed := true;
        }
      case TcpDisconnecting =>
      case MqttData =>
        if kind == SUBSCRIBE {
          closed := OnSubscribe(h, len, inp);
        } else if kind == UNSUBSCRIBE {
          closed := OnUnsubscribe(h, len, inp);
        } else if kind == PUBLISH {
          OnPublish(c.inBuf, inp.own);
        } else if kind == PINGREQ {
          Set(h, Enqueue(c, Build(PINGRESP, 0, 0, 0, [])));
        } else if kind == DISCONNECT {
          Set(h, c.(will := c.will.(topic := None)));
          DeleteClientCon(h, inp.own);
          closed := true;
        }
    }

    // -------------------------------------------------------------- callbacks

    /** READPACKET, once for each packet. */
    method ReadPacketLoop(h: nat, inputs: seq<Input>)
      requires Has(State(), h)
      modifies this, topicList.slots, retainedList.list
      ensures State() == ReadPackets(old(State()), h, inputs)
    {
      var left := inputs;
      var more := true;
      while more
        invariant more ==> Has(State(), h)
        invariant (if more then ReadPackets(State(), h, left) else State()) == ReadPackets(old(State()), h, inputs)
        decreases more, if more then Get(State(), h).read else 0
      {
        more := OneRound(h, left);
        left := LaterInputs(left);
      }
    }

    /** One round of READPACKET; whether there is another one. */
    method OneRound(h: nat, inputs: seq<Input>) returns (more: bool)
      requires Has(State(), h)
      modifies this, topicList.slots, retainedList.list
      ensures more ==> Has(State(), h) && Get(State(), h).read < old(Get(State(), h).read)
      ensures (if more then ReadPackets(State(), h, LaterInputs(inputs)) else State()) == ReadPackets(old(State()), h, inputs)
    {
      var c := Fetch(h);
      var totlen, _ := ScanHeader(c.inBuf, c.read);
      var len := U16(totlen);
      if len > c.read {
        return false;
      }
      Set(h, c.(dispatched := c.dispatched + [c.inBuf[..len]]));
      var closed := OnPacket(h, len, NextInput(inputs));
      if closed {
        return false;
      }
      var i := Locate(h);
      if i == |clientList| {
        return false;
      }
      if len == 0 {
        stuck := true;
        return false;
      }
      Set(h, Finish(clientList[i], c.read, len));
      return len < c.read;
    }

    /** MQTT_ClientCon_recv_cb. */
    method RecvCallback(h: nat, chunk: seq<byte>, inputs: seq<Input>)
      requires Has(State(), h)
      modifies this, topicList.slots, retainedList.list
      ensures State() == ReceiveChunk(old(State()), h, chunk, inputs)
    {
      var c := Fetch(h);
      if |chunk| + c.read > BUF {
        DeleteClientCon(h, NextInput(inputs).own);
        return;
      }
      Set(h, CopyIn(c, chunk));
      if |chunk| < 2 {
        return;
      }
      ReadPacketLoop(h, inputs);
    }

    /** MQTT_ClientCon_connected_cb, when the connection is not refused. */
    method ConnectedCallback() returns (h: nat)
      modifies this`clientList, this`next
      ensures State() == Accept(old(State())) && h == old(next)
    {
      h := next;
      clientList := [NewClient(h)] + clientList;
      next := next + 1;
    }

    /** mqtt_server_timer. */
    method TimerCallback(h: nat, mem: Mem)
      requires Has(State(), h)
      modifies this, topicList.slots, retainedList.list
      ensures State() == Tick(old(State()), h, mem)
    {
      var c := Fetch(h);
      if c.sendTimeout > 0 {
        c := c.(sendTimeout := c.sendTimeout - 1);
      }
      if c.connTimeout > 0 {
        Set(h, c.(connTimeout := c.connTimeout - 1));
      } else {
        Set(h, c);
        DeleteClientCon(h, mem);
      }
    }

    /** MQTT_ServerTask, with MQTT_ClientCon_sent_cb after a write; `room` is availableForWrite. */
    method ServerTask(h: nat, room: nat, mem: Mem)
      requires Has(State(), h)
      modifies this, topicList.slots, retainedList.list
      ensures State() == RunTask(old(State()), h, room, mem)
    {
      var c := Fetch(h);
      if c.state == TcpConnected {
        return;
      }
      var m: Option<seq<byte>> := None;
      if c.ring != [] && c.sendTimeout == 0 {
        var (c1, taken) := Take(c);
        c, m := c1, taken;
      }
      if m.None? {
        Set(h, c);
        if c.state == TcpDisconnecting {
          DeleteClientCon(h, mem);
        }
      } else if |m.value| < room {
        Set(h, c.(sent := c.sent + [m.value], sendTimeout := 0));
        if c.state == TcpDisconnecting {
          DeleteClientCon(h, mem);
        }
      } else {
        Set(h, c.(sendTimeout := SEND_TIMEOUT));
      }
    }

    /** MQTT_local_publish. */
    method PublishLocally(topic: seq<byte>, data: payload, qos: byte, retain: bool, mem: Mem)
      modifies this, topicList.slots, retainedList.list
      ensures State() == PublishLocal(old(State()), topic, data, qos, retain, mem)
    {
      FindTopic(topic, data);
      if retain {
        UpdateRetainedTopic(topic, data, qos, mem);
      }
    }

    /** MQTT_local_subscribe. */
    method SubscribeLocally(filter: seq<byte>) returns (ok: bool)
      modifies topicList.slots
      ensures State() == SubscribeLocal(old(State()), filter)
      ensures ok == Subscribe(old(topicList.slots[..]), Local, filter, 0).1
    {
      ok := topicList.AddTopic(Local, filter, 0);
    }

    /** MQTT_local_unsubscribe. */
    method UnsubscribeLocally(filter: seq<byte>)
      modifies topicList.slots
      ensures State() == UnsubscribeLocal(old(State()), filter)
    {
      topicList.DeleteTopic(Some(Local), Some(filter));
    }
  }

  lemma AtIdIs(cs: seq<Client>, id: seq<byte>, i: nat)
    requires i <= |cs| && (i < |cs| ==> cs[i].id == id)
    requires forall j :: 0 <= j < i ==> cs[j].id != id
    ensures AtId(cs, id) == i
  {
  }

  lemma ListedHas(b: Broker, i: nat)
    requires i < |b.clients|
    ensures Has(b, b.clients[i].h)
  {
  }

  lemma UnsubscribeStep(slots: seq<Slot>, h: nat, buf: InBuffer, len: Count, at: nat, end: nat, filter: seq<byte>)
    requires at < len && StrAt(buf, at, len - at).Some? && end == at + 2 + StrAt(buf, at, len - at).value
    requires filter == CStr(buf[at + 2..end])
    ensures UnsubscribeWalk(slots, h, buf, len, at) ==
            UnsubscribeWalk(Unsubscribe(slots, Some(Con(h)), Some(filter)), h, buf, len, end)
  {
  }
}
