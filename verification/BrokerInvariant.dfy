/** What holds at every step boundary of every run of the broker. */
module BrokerInvariant {
  import opened Bytes
  import opened Packet
  import opened Reader
  import opened Reassembly
  import opened Topics
  import opened TopicList
  import opened Retained
  import opened Broker

  // ---------------------------------------------------------------- the invariant

  /** The owner may hold a slot: it is the local client, or `dying`, or connected and past CONNECT. */
  ghost predicate MayOwn(cs: seq<Client>, owner: Owner, dying: Option<nat>) {
    match owner
    case Local => true
    case Con(h) => dying == Some(h) || (var i := At(cs, h); i < |cs| && cs[i].state == MqttData)
  }

  ghost predicate SlotsOk(cs: seq<Client>, slots: seq<Slot>, dying: Option<nat>) {
    forall k :: 0 <= k < |slots| && slots[k].Sub? ==> slots[k].qos == 0 && MayOwn(cs, slots[k].owner, dying)
  }

  ghost predicate Distinct(cs: seq<Client>, next: nat) {
    && (forall i :: 0 <= i < |cs| ==> cs[i].h < next)
    && (forall i, j :: 0 <= i < j < |cs| ==> cs[i].h != cs[j].h)
  }

  /** Each connection's will is published at most once, and then the connection is gone. */
  ghost predicate WillsOk(cs: seq<Client>, wills: seq<nat>, next: nat) {
    && (forall k :: 0 <= k < |wills| ==> wills[k] < next && At(cs, wills[k]) == |cs|)
    && (forall k, l :: 0 <= k < l < |wills| ==> wills[k] != wills[l])
  }

  ghost predicate InvBut(b: Broker, dying: Option<nat>) {
    && Distinct(b.clients, b.next)
    && SlotsOk(b.clients, b.slots, dying)
    && WillsOk(b.clients, b.wills, b.next)
    && ListOk(b.retained)
  }

  /** The invariant at step boundaries. */
  ghost predicate Inv(b: Broker) {
    InvBut(b, None)
  }

  // ---------------------------------------------------------------- what a step for one client does to the others

  /** `c'` is `c` with more messages put to its queue. */
  ghost predicate Fed(c: Client, c': Client) {
    c' == c.(ring := c'.ring, counter := c'.counter, queued := c'.queued)
  }

  /** Two client lists that differ in queues alone. */
  ghost predicate AllFed(cs: seq<Client>, cs': seq<Client>) {
    |cs'| == |cs| && forall i :: 0 <= i < |cs| ==> Fed(cs[i], cs'[i])
  }

  /** MQTT_DATA and TCP_DISCONNECTING are never left. */
  predicate StateStep(s: ConnState, s': ConnState) {
    s == TcpConnected || s' == s
  }

  /**
   * From `b` to `b'` by what is done for connection `h`: no connection appears, those that
   * stay but `h` are fed at most, the state of `h` moves forward, and a fault stays.
   */
  ghost predicate Evolves(b: Broker, b': Broker, h: nat) {
    && b'.next == b.next
    && b.wills <= b'.wills
    && (b.fault ==> b'.fault)
    && (forall g: nat :: g != h && Has(b', g) ==> Has(b, g) && Fed(Get(b, g), Get(b', g)))
    && (Has(b', h) ==> Has(b, h) && StateStep(Get(b, h).state, Get(b', h).state))
  }

  lemma EvolvesTwice(a: Broker, b: Broker, c: Broker, h: nat)
    requires Evolves(a, b, h) && Evolves(b, c, h)
    ensures Evolves(a, c, h)
  {
    forall g: nat | g != h && Has(c, g)
      ensures Has(a, g) && Fed(Get(a, g), Get(c, g))
    {
      assert Fed(Get(a, g), Get(b, g)) && Fed(Get(b, g), Get(c, g));
    }
  }

  lemma {:induction false} SameHandles(cs: seq<Client>, cs': seq<Client>, h: nat)
    requires |cs| == |cs'| && forall i :: 0 <= i < |cs| ==> cs[i].h == cs'[i].h
    ensures At(cs', h) == At(cs, h)
  {
    var i := At(cs, h);
    if i < |cs| {
      AtIs(cs', h, i);
    }
  }

  lemma OwnersKept(cs: seq<Client>, cs': seq<Client>, slots: seq<Slot>, dying: Option<nat>)
    requires SlotsOk(cs, slots, dying)
    requires forall h: nat :: At(cs, h) < |cs| && cs[At(cs, h)].state == MqttData && Some(h) != dying ==>
               At(cs', h) < |cs'| && cs'[At(cs', h)].state == MqttData
    ensures SlotsOk(cs', slots, dying)
  {
  }

  lemma FedKeepsInv(b: Broker, cs': seq<Client>, dying: Option<nat>)
    requires InvBut(b, dying) && AllFed(b.clients, cs')
    ensures InvBut(b.(clients := cs'), dying)
  {
    var cs := b.clients;
    forall h
      ensures At(cs', h) == At(cs, h)
    {
      SameHandles(cs, cs', h);
    }
    OwnersKept(cs, cs', b.slots, dying);
  }

  /** Replacing a client's record leaves the others where they are. */
  lemma PutShape(b: Broker, h: nat, c: Client)
    requires Has(b, h) && c.h == h
    ensures Has(Put(b, h, c), h) && Get(Put(b, h, c), h) == c
    ensures forall g: nat :: At(Put(b, h, c).clients, g) == At(b.clients, g)
    ensures forall g: nat :: g != h && Has(b, g) ==> Get(Put(b, h, c), g) == Get(b, g)
  {
    PutGet(b, h, c);
    forall g: nat
      ensures At(Put(b, h, c).clients, g) == At(b.clients, g)
    {
      SameHandles(b.clients, Put(b, h, c).clients, g);
    }
  }

  /** Replacing a client's record keeps the invariant, unless it leaves MQTT_DATA. */
  lemma PutKeeps(b: Broker, h: nat, c: Client, dying: Option<nat>)
    requires InvBut(b, dying) && Has(b, h) && c.h == h
    requires Get(b, h).state == MqttData ==> c.state == MqttData
    ensures InvBut(Put(b, h, c), dying)
  {
    var i := At(b.clients, h);
    var cs, cs' := b.clients, b.clients[i := c];
    ReplaceOk(cs, b.next, i, c);
    assert forall g: nat :: At(cs', g) == At(cs, g) && (At(cs, g) < |cs| && cs[At(cs, g)].state == MqttData ==> cs'[At(cs, g)].state == MqttData) by {
      PutShape(b, h, c);
    }
    OwnersKept(cs, cs', b.slots, dying);
  }

  lemma ReplaceOk(cs: seq<Client>, next: nat, i: nat, c: Client)
    requires Distinct(cs, next) && i < |cs| && c.h == cs[i].h
    ensures Distinct(cs[i := c], next)
  {
  }

  // ---------------------------------------------------------------- publishing

  lemma FedTwice(a: seq<Client>, b: seq<Client>, c: seq<Client>)
    requires AllFed(a, b) && AllFed(b, c)
    ensures AllFed(a, c)
  {
    forall i | 0 <= i < |a|
      ensures Fed(a[i], c[i])
    {
      assert Fed(a[i], b[i]) && Fed(b[i], c[i]);
    }
  }

  /** Publishing feeds queues and the local callback; all else it can do is fault. */
  lemma {:induction false} FanoutFeeds(b: Broker, topic: seq<byte>, data: seq<byte>, k: nat)
    ensures var b' := Fanout(b, topic, data, k);
            && b' == b.(clients := b'.clients, local := b'.local, fault := b'.fault)
            && (b.fault ==> b'.fault) && AllFed(b.clients, b'.clients)
    decreases |b.slots| - k
  {
    if k < |b.slots| {
      var b1 := if Hit(b.slots[k], topic) then PublishSlot(b, b.slots[k], topic, data) else b;
      assert b1 == b.(clients := b1.clients, local := b1.local, fault := b1.fault) && (b.fault ==> b1.fault)
             && AllFed(b.clients, b1.clients) by {
        PublishSlotFeeds(b, b.slots[k], topic, data);
      }
      FanoutFeeds(b1, topic, data, k + 1);
      FedTwice(b.clients, b1.clients, Fanout(b, topic, data, k).clients);
    }
  }

  lemma PublishSlotFeeds(b: Broker, slot: Slot, topic: seq<byte>, data: seq<byte>)
    ensures slot.Sub? ==>
              var b' := PublishSlot(b, slot, topic, data);
              && b' == b.(clients := b'.clients, local := b'.local, fault := b'.fault)
              && (b.fault ==> b'.fault) && AllFed(b.clients, b'.clients)
    ensures AllFed(b.clients, b.clients)
  {
  }

  lemma FanoutKeeps(b: Broker, topic: seq<byte>, data: seq<byte>, dying: Option<nat>)
    requires InvBut(b, dying)
    ensures InvBut(Fanout(b, topic, data, 0), dying)
  {
    FanoutFeeds(b, topic, data, 0);
    FedKeepsInv(b, Fanout(b, topic, data, 0).clients, dying);
  }

  lemma UpdateKeeps(b: Broker, topic: seq<byte>, data: payload, qos: byte, mem: Mem, dying: Option<nat>)
    requires InvBut(b, dying)
    ensures InvBut(UpdateRetained(b, topic, data, qos, mem), dying)
  {
    UpdateRefinesMap(b.retained, topic, data, qos, mem);
  }

  // ---------------------------------------------------------------- removing a client

  lemma AtRemoved(cs: seq<Client>, i: nat, g: nat)
    requires i < |cs| && cs[i].h != g
    ensures var cs' := cs[..i] + cs[i + 1..];
            if At(cs, g) < |cs| then At(cs', g) < |cs'| && cs'[At(cs', g)] == cs[At(cs, g)]
            else At(cs', g) == |cs'|
  {
    var cs' := cs[..i] + cs[i + 1..];
    var j := At(cs, g);
    assert forall l :: 0 <= l < |cs'| ==> cs'[l] == if l < i then cs[l] else cs[l + 1];
    if j < |cs| {
      AtIs(cs', g, if j < i then j else j - 1);
    }
  }

  lemma RemovedOk(cs: seq<Client>, next: nat, i: nat)
    requires Distinct(cs, next) && i < |cs|
    ensures Distinct(cs[..i] + cs[i + 1..], next)
    ensures At(cs[..i] + cs[i + 1..], cs[i].h) == |cs| - 1
  {
    var cs' := cs[..i] + cs[i + 1..];
    assert forall l :: 0 <= l < |cs'| ==> cs'[l] == cs[if l < i then l else l + 1];
  }

  lemma RemoveShape(b: Broker, h: nat)
    requires Distinct(b.clients, b.next) && Has(b, h)
    ensures Distinct(Remove(b, h).clients, b.next) && !Has(Remove(b, h), h)
    ensures forall g: nat :: g != h ==>
              && (Has(Remove(b, h), g) <==> Has(b, g))
              && (Has(b, g) ==> Get(Remove(b, h), g) == Get(b, g))
  {
    var i := At(b.clients, h);
    RemovedOk(b.clients, b.next, i);
    forall g: nat | g != h
      ensures Has(Remove(b, h), g) <==> Has(b, g)
      ensures Has(b, g) ==> Get(Remove(b, h), g) == Get(b, g)
    {
      AtRemoved(b.clients, i, g);
    }
  }

  lemma RemoveKeeps(b: Broker, h: nat)
    requires Inv(b) && Has(b, h)
    ensures InvBut(Remove(b, h), Some(h)) && !Has(Remove(b, h), h)
  {
    RemoveShape(b, h);
    var b' := Remove(b, h);
    assert forall g :: g != h && Has(b, g) ==> Get(b', g) == Get(b, g);
    forall k | 0 <= k < |b.wills|
      ensures At(b'.clients, b.wills[k]) == |b'.clients|
    {
      assert !Has(b, b.wills[k]);
      assert b.wills[k] != h;
      assert !Has(b', b.wills[k]);
    }
    forall k | 0 <= k < |b.slots| && b.slots[k].Sub?
      ensures b.slots[k].qos == 0 && MayOwn(b'.clients, b.slots[k].owner, Some(h))
    {
      if b.slots[k].owner.Con? && b.slots[k].owner.h != h {
        assert Has(b', b.slots[k].owner.h);
      }
    }
  }

  lemma PublishWillKeeps(b: Broker, h: nat, will: Will, mem: Mem)
    requires InvBut(b, Some(h)) && !Has(b, h) && h < b.next && h !in b.wills
    ensures var b' := PublishWill(b, h, will, mem);
            && InvBut(b', Some(h)) && AllFed(b.clients, b'.clients) && b'.slots == b.slots && b'.next == b.next
            && b'.stuck == b.stuck && (b.fault ==> b'.fault)
            && b'.wills == (if will.topic.Some? then b.wills + [h] else b.wills)
  {
    if will.topic.Some? {
      var b1 := Fanout(b, will.topic.value, will.data, 0);
      FanoutKeeps(b, will.topic.value, will.data, Some(h));
      FanoutFeeds(b, will.topic.value, will.data, 0);
      SameHandles(b.clients, b1.clients, h);
      UpdateKeeps(b1, will.topic.value, will.data, will.qos, mem, Some(h));
      OneWillMore(b1.clients, b.wills, h, b.next);
    }
  }

  lemma OneWillMore(cs: seq<Client>, wills: seq<nat>, h: nat, next: nat)
    requires WillsOk(cs, wills, next) && h < next && h !in wills && At(cs, h) == |cs|
    ensures WillsOk(cs, wills + [h], next)
  {
  }

  lemma FedEvolves(b: Broker, b': Broker, h: nat)
    requires AllFed(b.clients, b'.clients) && b'.next == b.next && b.wills <= b'.wills && (b.fault ==> b'.fault)
    ensures Evolves(b, b', h)
    ensures forall g: nat :: Has(b', g) <==> Has(b, g)
    ensures forall g: nat :: Has(b, g) ==> Fed(Get(b, g), Get(b', g))
  {
    forall g: nat
      ensures At(b'.clients, g) == At(b.clients, g)
    {
      SameHandles(b.clients, b'.clients, g);
    }
  }

  lemma PutEvolves(b: Broker, h: nat, c: Client)
    requires Has(b, h) && c.h == h && StateStep(Get(b, h).state, c.state)
    ensures Evolves(b, Put(b, h, c), h)
  {
    PutShape(b, h, c);
  }

  /** The slots that are left when all of a dying connection's are gone. */
  lemma UnsubscribedOk(cs: seq<Client>, slots: seq<Slot>, h: nat)
    requires SlotsOk(cs, slots, Some(h))
    ensures SlotsOk(cs, Unsubscribe(slots, Some(Con(h)), None), None)
  {
  }

  /** MQTT_server_deleteClientCon keeps the invariant, although it publishes while slots dangle. */
  lemma DeleteKeeps(b: Broker, h: nat, mem: Mem)
    requires Inv(b) && Has(b, h)
    ensures var b' := Delete(b, h, mem);
            && Inv(b') && !Has(b', h) && Evolves(b, b', h) && b'.stuck == b.stuck
            && b'.wills == (if Get(b, h).will.topic.Some? then b.wills + [h] else b.wills)
  {
    var will := Get(b, h).will;
    var b1 := Remove(b, h);
    var b2 := PublishWill(b1, h, will, mem);
    var b3 := Delete(b, h, mem);
    RemoveKeeps(b, h);
    assert h !in b.wills;
    PublishWillKeeps(b1, h, will, mem);
    FedEvolves(b1, b2, h);
    UnsubscribedOk(b2.clients, b2.slots, h);
    assert Inv(b3);
    RemoveShape(b, h);
    assert b3.clients == b2.clients;
    forall g: nat | g != h && Has(b3, g)
      ensures Has(b, g) && Fed(Get(b, g), Get(b3, g))
    {
      assert Has(b2, g) && Has(b1, g);
    }
  }

  // ---------------------------------------------------------------- handling a packet

  /** The bytes after the packet, and what is counted, are left to READPACKET. */
  predicate SameInput(c: Client, c': Client, len: Count) {
    c'.read == c.read && c'.dispatched == c.dispatched && c'.inBuf[len..] == c.inBuf[len..]
  }

  /** What every way of handling a packet keeps. */
  ghost predicate Sound(b: Broker, h: nat, len: Count, r: Handled)
    requires Has(b, h)
  {
    && Inv(r.b) && Evolves(b, r.b, h) && r.b.stuck == b.stuck
    && (r.Continue? <==> Has(r.b, h))
    && (r.Continue? ==> SameInput(Get(b, h), Get(r.b, h), len))
  }

  lemma PutSound(b: Broker, h: nat, c: Client, len: Count)
    requires Inv(b) && Has(b, h) && c.h == h && SameInput(Get(b, h), c, len)
    requires StateStep(Get(b, h).state, c.state)
    ensures Sound(b, h, len, Continue(Put(b, h, c)))
  {
    PutKeeps(b, h, c, None);
    PutShape(b, h, c);
  }

  lemma DropSound(b: Broker, h: nat, mem: Mem, len: Count)
    requires Inv(b) && Has(b, h)
    ensures Sound(b, h, len, Drop(b, h, mem))
  {
    DeleteKeeps(b, h, mem);
  }

  /** Handling that starts with a change to the client's own record, or to the slots. */
  lemma SoundAfter(a: Broker, b: Broker, h: nat, len: Count, r: Handled)
    requires Has(a, h) && Has(b, h) && Evolves(a, b, h) && b.stuck == a.stuck
    requires SameInput(Get(a, h), Get(b, h), len) && Sound(b, h, len, r)
    ensures Sound(a, h, len, r)
  {
    EvolvesTwice(a, b, r.b, h);
  }

  lemma ConnackSound(b: Broker, h: nat, code: byte, len: Count)
    requires Inv(b) && Has(b, h) && Get(b, h).state == TcpConnected
    ensures Sound(b, h, len, Connack(b, h, code))
    ensures var s := Get(Connack(b, h, code).b, h).state;
            s == if code == ACCEPTED then MqttData else TcpDisconnecting
  {
    var c := Get(b, h);
    var c' := c.(state := if code == ACCEPTED then MqttData else TcpDisconnecting);
    PutSound(b, h, Enqueue(c', Build(CONNACK, 0, 0, 0, [0, code])), len);
    PutShape(b, h, Enqueue(c', Build(CONNACK, 0, 0, 0, [0, code])));
  }

  /** A CONNECT is accepted exactly when all its fields are in order and the callback agrees. */
  predicate Accepts(b: Broker, h: nat, len: nat, inp: Input)
    requires Has(b, h)
  {
    var buf := Get(b, h).inBuf;
    13 <= len && ReadConnectHeader(buf).Some? &&
    (var hd := ReadConnectHeader(buf).value;
     var f := ReadId(buf, len, hd);
     f.Some? && inp.auth &&
     (var w := ReadWill(buf, len, hd.flags, f.value.used);
      w.ok && ReadCredentials(buf, len, hd.flags, w.used)))
  }

  lemma AfterIdSound(b: Broker, h: nat, len: Count, hd: ConnectHeader, f: IdField, inp: Input)
    requires Inv(b) && Has(b, h) && Get(b, h).state == TcpConnected
    ensures Sound(b, h, len, AfterId(b, h, len, hd, f, inp))
    ensures var r := AfterId(b, h, len, hd, f, inp);
            var w := ReadWill(Get(b, h).inBuf, len, hd.flags, f.used);
            && (r.Continue? <==> w.ok && ReadCredentials(Get(b, h).inBuf, len, hd.flags, w.used))
            && (r.Continue? ==> Get(r.b, h).state == if inp.auth then MqttData else TcpDisconnecting)
  {
    var c := Get(b, h);
    var w := ReadWill(c.inBuf, len, hd.flags, f.used);
    var c1 := c.(id := f.id, will := w.will);
    var c2 := c.(id := f.id, will := w.will.(topic := None));
    OwnChange(b, h, c1, len);
    OwnChange(b, h, c2, len);
    var b1, b2 := Put(b, h, c1), Put(b, h, c2);
    if !w.ok || !ReadCredentials(c.inBuf, len, hd.flags, w.used) {
      DropSound(b1, h, inp.own, len);
      SoundAfter(b, b1, h, len, Drop(b1, h, inp.own));
    } else if !inp.auth {
      ConnackSound(b2, h, REFUSE_AUTH, len);
      SoundAfter(b, b2, h, len, Connack(b2, h, REFUSE_AUTH));
    } else {
      ConnackSound(b1, h, ACCEPTED, len);
      SoundAfter(b, b1, h, len, Connack(b1, h, ACCEPTED));
    }
  }

  /** A change to the client's own record that leaves its state and its input alone. */
  lemma OwnChange(b: Broker, h: nat, c: Client, len: Count)
    requires Inv(b) && Has(b, h) && c.h == h && c.state == Get(b, h).state && SameInput(Get(b, h), c, len)
    ensures var b' := Put(b, h, c);
            && Inv(b') && Has(b', h) && Get(b', h) == c && Evolves(b, b', h) && SameInput(Get(b, h), Get(b', h), len)
            && b'.stuck == b.stuck && b'.slots == b.slots
  {
    PutKeeps(b, h, c, None);
    PutShape(b, h, c);
  }

  lemma DeleteByIdKeeps(b: Broker, h: nat, id: seq<byte>, mem: Mem)
    requires Inv(b) && Has(b, h)
    ensures var b' := DeleteById(b, id, mem);
            && Inv(b') && Evolves(b, b', h) && b'.stuck == b.stuck
            && (Has(b', h) ==> Fed(Get(b, h), Get(b', h)))
  {
    var i := AtId(b.clients, id);
    if i < |b.clients| {
      var g := b.clients[i].h;
      AtIs(b.clients, g, i);
      DeleteKeeps(b, g, mem);
    }
  }

  lemma HandleConnectSound(b: Broker, h: nat, len: Count, inp: Input)
    requires Inv(b) && Has(b, h) && Get(b, h).state == TcpConnected
    ensures Sound(b, h, len, HandleConnect(b, h, len, inp))
    ensures var r := HandleConnect(b, h, len, inp);
            r.Continue? ==>
              Get(r.b, h).state == if Accepts(b, h, len, inp) then MqttData else TcpDisconnecting
  {
    var c := Get(b, h);
    if len < 13 {
      DropSound(b, h, inp.own, len);
    } else if ReadConnectHeader(c.inBuf).None? {
      ConnackSound(b, h, REFUSE_PROTOCOL, len);
    } else {
      var hd := ReadConnectHeader(c.inBuf).value;
      var c1 := c.(inBuf := ShiftHeader(c.inBuf, hd.version),
                   cleanSession := hd.flags / 2 % 2 == 1, keepalive := hd.keepalive);
      assert c1.inBuf[len..] == c.inBuf[len..];
      OwnChange(b, h, c1, len);
      HandleConnectAfterHeader(b, Put(b, h, c1), h, len, hd, inp);
    }
  }

  lemma HandleConnectAfterHeader(b: Broker, b1: Broker, h: nat, len: Count, hd: ConnectHeader, inp: Input)
    requires Inv(b1) && Has(b, h) && Has(b1, h) && Get(b, h).state == Get(b1, h).state == TcpConnected
    requires Evolves(b, b1, h) && b1.stuck == b.stuck && SameInput(Get(b, h), Get(b1, h), len)
    requires 13 <= len && ReadConnectHeader(Get(b, h).inBuf) == Some(hd)
    requires Get(b1, h).inBuf == ShiftHeader(Get(b, h).inBuf, hd.version)
    ensures var buf := Get(b, h).inBuf;
            var r := match ReadId(buf, len, hd)
                     case None => Connack(b1, h, REFUSE_ID)
                     case Some(f) =>
                       var b2 := if f.key.Some? then DeleteById(b1, f.key.value, inp.takeover) else b1;
                       if !Has(b2, h) then Closed(b2.(fault := true)) else AfterId(b2, h, len, hd, f, inp);
            && Sound(b, h, len, r)
            && (r.Continue? ==> Get(r.b, h).state == if Accepts(b, h, len, inp) then MqttData else TcpDisconnecting)
  {
    var buf := Get(b, h).inBuf;
    match ReadId(buf, len, hd)
    case None =>
      ConnackSound(b1, h, REFUSE_ID, len);
      SoundAfter(b, b1, h, len, Connack(b1, h, REFUSE_ID));
    case Some(f) =>
      var b2 := if f.key.Some? then DeleteById(b1, f.key.value, inp.takeover) else b1;
      if f.key.Some? {
        DeleteByIdKeeps(b1, h, f.key.value, inp.takeover);
        EvolvesTwice(b, b1, b2, h);
      }
      if Has(b2, h) {
        AfterIdSound(b2, h, len, hd, f, inp);
        SoundAfter(b, b2, h, len, AfterId(b2, h, len, hd, f, inp));
        ReadsPastHeader(buf, len, hd, f);
      } else {
        FaultSound(b, b2, h);
      }
  }

  ghost predicate SameFrom14(buf: InBuffer, buf': InBuffer) {
    forall i :: 14 <= i < BUF ==> buf'[i] == buf[i]
  }

  /** The same string, or none, is read at `at` in both buffers. */
  ghost predicate SameAt(buf: InBuffer, buf': InBuffer, at: nat, n: word) {
    && StrAt(buf', at, n) == StrAt(buf, at, n)
    && (StrAt(buf, at, n).Some? ==>
          var e := at + 2 + StrAt(buf, at, n).value; buf'[at + 2..e] == buf[at + 2..e])
  }

  lemma SameStr(buf: InBuffer, buf': InBuffer, at: nat, n: word)
    requires SameFrom14(buf, buf') && 14 <= at
    ensures SameAt(buf, buf', at, n)
  {
  }

  lemma SameWillFields(buf: InBuffer, buf': InBuffer, len: nat, flags: byte, used: nat)
    requires SameAt(buf, buf', 2 + used, Rest(len, used))
    requires var n := StrAt(buf, 2 + used, Rest(len, used));
             n.Some? ==> SameAt(buf, buf', 4 + used + n.value, Rest(len, used + 2 + n.value))
    ensures ReadWill(buf', len, flags, used) == ReadWill(buf, len, flags, used)
  {
  }

  lemma SameWill(buf: InBuffer, buf': InBuffer, len: nat, flags: byte, used: nat)
    requires SameFrom14(buf, buf') && 12 <= used
    ensures ReadWill(buf', len, flags, used) == ReadWill(buf, len, flags, used)
  {
    SameStr(buf, buf', 2 + used, Rest(len, used));
    var n := StrAt(buf, 2 + used, Rest(len, used));
    if n.Some? {
      SameStr(buf, buf', 4 + used + n.value, Rest(len, used + 2 + n.value));
    }
    SameWillFields(buf, buf', len, flags, used);
  }

  lemma WillUses(buf: InBuffer, len: nat, flags: byte, used: nat)
    ensures used <= ReadWill(buf, len, flags, used).used
  {
  }

  lemma SameCredentials(buf: InBuffer, buf': InBuffer, len: nat, flags: byte, used: nat)
    requires SameFrom14(buf, buf') && 12 <= used
    ensures ReadCredentials(buf', len, flags, used) == ReadCredentials(buf, len, flags, used)
  {
    SameStr(buf, buf', 2 + used, Rest(len, used));
    var n := StrAt(buf, 2 + used, Rest(len, used));
    if n.Some? {
      var used' := used + 2 + n.value;
      SameStr(buf, buf', 2 + used', Rest(len, used'));
    }
  }

  /** Moving the header fields of MQTT 3.1 leaves the fields that follow. */
  lemma ReadsPastHeader(buf: InBuffer, len: Count, hd: ConnectHeader, f: IdField)
    requires ReadConnectHeader(buf) == Some(hd) && ReadId(buf, len, hd) == Some(f)
    ensures var buf' := ShiftHeader(buf, hd.version);
            var w := ReadWill(buf, len, hd.flags, f.used);
            && ReadWill(buf', len, hd.flags, f.used) == w
            && ReadCredentials(buf', len, hd.flags, w.used) == ReadCredentials(buf, len, hd.flags, w.used)
  {
    var buf' := ShiftHeader(buf, hd.version);
    assert SameFrom14(buf, buf');
    SameWill(buf, buf', len, hd.flags, f.used);
    WillUses(buf, len, hd.flags, f.used);
    SameCredentials(buf, buf', len, hd.flags, ReadWill(buf, len, hd.flags, f.used).used);
  }

  // ---------------------------------------------------------------- subscriptions

  lemma SubscribeKeeps(cs: seq<Client>, slots: seq<Slot>, owner: Owner, filter: seq<byte>)
    requires SlotsOk(cs, slots, None) && MayOwn(cs, owner, None)
    ensures SlotsOk(cs, Subscribe(slots, owner, filter, 0).0, None)
  {
  }

  lemma UnsubscribeKeeps(cs: seq<Client>, slots: seq<Slot>, owner: Owner, filter: seq<byte>)
    requires SlotsOk(cs, slots, None)
    ensures SlotsOk(cs, Unsubscribe(slots, Some(owner), Some(filter)), None)
  {
  }

  lemma {:induction false} SubscribeWalkKeeps(cs: seq<Client>, slots: seq<Slot>, h: nat, buf: InBuffer, len: Count,
                                             at: nat, codes: seq<byte>, last: seq<byte>)
    requires SlotsOk(cs, slots, None) && MayOwn(cs, Con(h), None)
    ensures SlotsOk(cs, SubscribeWalk(slots, h, buf, len, at, codes, last).slots, None)
    decreases len - at
  {
    if at < len && |codes| < MAX_SUBS && StrAt(buf, at, len - at).Some? {
      var at' := at + 2 + StrAt(buf, at, len - at).value;
      if at' < len {
        var filter := CStr(buf[at + 2..at']);
        var (slots', ok) := Subscribe(slots, Con(h), filter, 0);
        SubscribeKeeps(cs, slots, Con(h), filter);
        SubscribeWalkKeeps(cs, slots', h, buf, len, at' + 1, codes + [if ok then 0 else 0x80], filter);
      }
    }
  }

  lemma {:induction false} UnsubscribeWalkKeeps(cs: seq<Client>, slots: seq<Slot>, h: nat, buf: InBuffer, len: Count, at: nat)
    requires SlotsOk(cs, slots, None)
    ensures SlotsOk(cs, UnsubscribeWalk(slots, h, buf, len, at).slots, None)
    decreases len - at
  {
    if at < len && StrAt(buf, at, len - at).Some? {
      var at' := at + 2 + StrAt(buf, at, len - at).value;
      var filter := CStr(buf[at + 2..at']);
      UnsubscribeKeeps(cs, slots, Con(h), filter);
      UnsubscribeWalkKeeps(cs, Unsubscribe(slots, Some(Con(h)), Some(filter)), h, buf, len, at');
    }
  }

  lemma {:induction false} SendRetainedFeeds(c: Client, list: seq<Entry>, filter: seq<byte>, k: nat)
    ensures Fed(c, SendRetained(c, list, filter, k))
    decreases |list| - k
  {
    if k < |list| {
      var e := list[k];
      var c' := if e.topic.Some? && e.data.Some? && Matches(filter, true, e.topic.value)
                then PublishTo(c, e.topic.value, e.data.value, e.qos, 1) else c;
      SendRetainedFeeds(c', list, filter, k + 1);
    }
  }

  /** Setting the fault flag changes nothing that the invariant is about. */
  lemma FaultSound(b: Broker, b': Broker, h: nat)
    requires Inv(b') && Evolves(b, b', h)
    ensures Inv(b'.(fault := true)) && Evolves(b, b'.(fault := true), h)
  {
  }

  /** Other slots, all of them owned as they should be. */
  lemma SlotsChange(b: Broker, slots: seq<Slot>, h: nat, len: Count)
    requires Inv(b) && Has(b, h) && SlotsOk(b.clients, slots, None)
    ensures var b' := b.(slots := slots);
            && Inv(b') && Has(b', h) && Get(b', h) == Get(b, h) && Evolves(b, b', h)
            && SameInput(Get(b, h), Get(b', h), len) && b'.stuck == b.stuck
  {
  }

  lemma HandleSubscribeSound(b: Broker, h: nat, len: Count, inp: Input)
    requires Inv(b) && Has(b, h) && Get(b, h).state == MqttData
    ensures Sound(b, h, len, HandleSubscribe(b, h, len, inp))
  {
    var c := Get(b, h);
    if len < 8 {
      DropSound(b, h, inp.own, len);
    } else {
      var w := SubscribeWalk(b.slots, h, c.inBuf, len, 4, [], []);
      var b1 := b.(slots := w.slots);
      SubscribeWalkKeeps(b.clients, b.slots, h, c.inBuf, len, 4, [], []);
      SlotsChange(b, w.slots, h, len);
      if !w.ok {
        DropSound(b1, h, inp.own, len);
        SoundAfter(b, b1, h, len, Drop(b1, h, inp.own));
      } else {
        var c1 := Ack(c, SUBACK, GetId(c.inBuf, BUF), w.codes);
        SendRetainedFeeds(c1, b.retained, w.last, 0);
        var c2 := SendRetained(c1, b.retained, w.last, 0);
        PutSound(b1, h, c2, len);
        SoundAfter(b, b1, h, len, Continue(Put(b1, h, c2)));
      }
    }
  }

  lemma HandleUnsubscribeSound(b: Broker, h: nat, len: Count, inp: Input)
    requires Inv(b) && Has(b, h) && Get(b, h).state == MqttData
    ensures Sound(b, h, len, HandleUnsubscribe(b, h, len, inp))
  {
    var c := Get(b, h);
    if len < 7 {
      DropSound(b, h, inp.own, len);
    } else {
      var w := UnsubscribeWalk(b.slots, h, c.inBuf, len, 4);
      var b1 := b.(slots := w.slots);
      UnsubscribeWalkKeeps(b.clients, b.slots, h, c.inBuf, len, 4);
      SlotsChange(b, w.slots, h, len);
      if !w.ok {
        DropSound(b1, h, inp.own, len);
        SoundAfter(b, b1, h, len, Drop(b1, h, inp.own));
      } else {
        var c1 := Ack(c, UNSUBACK, GetId(c.inBuf, BUF), []);
        PutSound(b1, h, c1, len);
        SoundAfter(b, b1, h, len, Continue(Put(b1, h, c1)));
      }
    }
  }

  lemma FanoutSound(b: Broker, h: nat, topic: seq<byte>, data: seq<byte>, len: Count)
    requires Inv(b) && Has(b, h)
    ensures Sound(b, h, len, Continue(Fanout(b, topic, data, 0)))
  {
    FanoutKeeps(b, topic, data, None);
    FanoutFeeds(b, topic, data, 0);
    FedEvolves(b, Fanout(b, topic, data, 0), h);
  }

  lemma HandlePublishSound(b: Broker, h: nat, len: Count, mem: Mem)
    requires Inv(b) && Has(b, h)
    ensures Sound(b, h, len, Continue(HandlePublish(b, Get(b, h).inBuf, mem)))
  {
    var buf := Get(b, h).inBuf;
    NothingSound(b, h, len);
    match PublishTopic(buf, BUF)
    case None => FaultSound(b, b, h);
    case Some(t) => PassOnSound(b, h, buf, CStr(t), PayloadOf(buf), mem, len);
  }

  lemma PassOnSound(b: Broker, h: nat, buf: InBuffer, topic: seq<byte>, data: payload, mem: Mem, len: Count)
    requires Inv(b) && Has(b, h)
    ensures Sound(b, h, len, Continue(PassOn(b, buf, topic, data, mem)))
  {
    NothingSound(b, h, len);
    FanoutSound(b, h, topic, data, len);
    UpdateSound(b, Fanout(b, topic, data, 0), h, len, topic, data, Qos(buf), mem);
  }

  lemma UpdateSound(a: Broker, b: Broker, h: nat, len: Count, topic: seq<byte>, data: payload, qos: byte, mem: Mem)
    requires Has(a, h) && Sound(a, h, len, Continue(b))
    ensures Sound(a, h, len, Continue(UpdateRetained(b, topic, data, qos, mem)))
  {
    UpdateKeeps(b, topic, data, qos, mem, None);
  }

  lemma NothingSound(b: Broker, h: nat, len: Count)
    requires Inv(b) && Has(b, h)
    ensures Sound(b, h, len, Continue(b))
  {
    FedEvolves(b, b, h);
  }

  lemma DisconnectSound(b: Broker, h: nat, len: Count, mem: Mem)
    requires Inv(b) && Has(b, h)
    ensures var c := Get(b, h);
            var b1 := Put(b, h, c.(will := c.will.(topic := None)));
            Has(b1, h) && Sound(b, h, len, Drop(b1, h, mem))
  {
    var c := Get(b, h);
    var c1 := c.(will := c.will.(topic := None));
    OwnChange(b, h, c1, len);
    DropSound(Put(b, h, c1), h, mem, len);
    SoundAfter(b, Put(b, h, c1), h, len, Drop(Put(b, h, c1), h, mem));
  }

  /** A connection in MQTT_DATA or TCP_DISCONNECTING never enters MQTT_DATA; before CONNECT only an accepted one does. */
  predicate EntersData(b: Broker, h: nat, len: nat, inp: Input)
    requires Has(b, h)
  {
    var c := Get(b, h);
    c.state == TcpConnected && Kind(c.inBuf) == CONNECT && Accepts(b, h, len, inp)
  }

  /** A packet past CONNECT. */
  lemma HandleDataSound(b: Broker, h: nat, len: Count, inp: Input)
    requires Inv(b) && Has(b, h) && Get(b, h).state == MqttData
    ensures Sound(b, h, len, Handle(b, h, len, inp))
  {
    var c := Get(b, h);
    var kind := Kind(c.inBuf);
    if kind == SUBSCRIBE {
      HandleSubscribeSound(b, h, len, inp);
    } else if kind == UNSUBSCRIBE {
      HandleUnsubscribeSound(b, h, len, inp);
    } else if kind == PUBLISH {
      HandlePublishSound(b, h, len, inp.own);
    } else if kind == PINGREQ {
      PutSound(b, h, Enqueue(c, Build(PINGRESP, 0, 0, 0, [])), len);
    } else if kind == DISCONNECT {
      DisconnectSound(b, h, len, inp.own);
    } else {
      NothingSound(b, h, len);
    }
  }

  lemma HandleSound(b: Broker, h: nat, len: Count, inp: Input)
    requires Inv(b) && Has(b, h)
    ensures Sound(b, h, len, Handle(b, h, len, inp))
    ensures var r := Handle(b, h, len, inp);
            && (r.Continue? && Get(b, h).state != MqttData ==>
                  (Get(r.b, h).state == MqttData <==> EntersData(b, h, len, inp)))
            && (r.Continue? ==> Get(r.b, h).state != TcpConnected)
  {
    var c := Get(b, h);
    match c.state
    case TcpConnected =>
      if Kind(c.inBuf) == CONNECT {
        HandleConnectSound(b, h, len, inp);
      } else {
        DropSound(b, h, inp.own, len);
      }
    case TcpDisconnecting => NothingSound(b, h, len);
    case MqttData => HandleDataSound(b, h, len, inp);
  }

  // ---------------------------------------------------------------- steps and runs

  /** One packet, counted and handled. */
  lemma PacketKeeps(b: Broker, h: nat, len: Count, inp: Input)
    requires Inv(b) && Has(b, h) && len <= Get(b, h).read
    ensures var c := Get(b, h);
            var b0 := Put(b, h, c.(dispatched := c.dispatched + [c.inBuf[..len]]));
            && Has(b0, h) && Get(b0, h).read == c.read
            && (var r := Handle(b0, h, len, inp);
                && Inv(r.b) && Evolves(b, r.b, h) && (r.Continue? <==> Has(r.b, h)) && (Has(r.b, h) ==> Get(r.b, h).read == c.read))
  {
    var c := Get(b, h);
    var seen := c.(dispatched := c.dispatched + [c.inBuf[..len]]);
    var b0 := Put(b, h, seen);
    PutKeeps(b, h, seen, None);
    PutShape(b, h, seen);
    PutEvolves(b, h, seen);
    HandleSound(b0, h, len, inp);
    EvolvesTwice(b, b0, Handle(b0, h, len, inp).b, h);
  }

  /** What READPACKET does to the record once a packet has been handled. */
  lemma FinishKeeps(a: Broker, b: Broker, h: nat, read: Count, len: Count)
    requires Inv(b) && Has(b, h) && Evolves(a, b, h) && len <= read
    ensures var c1 := Finish(Get(b, h), read, len);
            Inv(Put(b, h, c1)) && Has(Put(b, h, c1), h) && Get(Put(b, h, c1), h) == c1 && Evolves(a, Put(b, h, c1), h)
  {
    var c1 := Finish(Get(b, h), read, len);
    PutKeeps(b, h, c1, None);
    PutShape(b, h, c1);
    PutEvolves(b, h, c1);
    EvolvesTwice(a, b, Put(b, h, c1), h);
  }

  lemma {:induction false} ReadPacketsKeeps(b: Broker, h: nat, inputs: seq<Input>)
    requires Inv(b) && Has(b, h)
    ensures Inv(ReadPackets(b, h, inputs)) && Evolves(b, ReadPackets(b, h, inputs), h)
    decreases Get(b, h).read
  {
    var c := Get(b, h);
    var len := MessageLength(c);
    if c.read < len {
      NothingSound(b, h, 0);
    } else {
      PacketKeeps(b, h, len, NextInput(inputs));
      var r := Handle(Put(b, h, c.(dispatched := c.dispatched + [c.inBuf[..len]])), h, len, NextInput(inputs));
      if r.Continue? && len != 0 {
        FinishKeeps(b, r.b, h, c.read, len);
        if len < c.read {
          var b1 := Put(r.b, h, Finish(Get(r.b, h), c.read, len));
          ReadPacketsKeeps(b1, h, LaterInputs(inputs));
          EvolvesTwice(b, b1, ReadPackets(b1, h, LaterInputs(inputs)), h);
        }
      }
    }
  }

  lemma ReceiveKeeps(b: Broker, h: nat, chunk: seq<byte>, inputs: seq<Input>)
    requires Inv(b) && Has(b, h)
    ensures Inv(ReceiveChunk(b, h, chunk, inputs)) && Evolves(b, ReceiveChunk(b, h, chunk, inputs), h)
  {
    var c := Get(b, h);
    if BUF < |chunk| + c.read {
      DeleteKeeps(b, h, NextInput(inputs).own);
    } else {
      var c1 := CopyIn(c, chunk);
      PutKeeps(b, h, c1, None);
      PutShape(b, h, c1);
      PutEvolves(b, h, c1);
      var b1 := Put(b, h, c1);
      if 2 <= |chunk| {
        ReadPacketsKeeps(b1, h, inputs);
        EvolvesTwice(b, b1, ReadPackets(b1, h, inputs), h);
      }
    }
  }

  /** A change to the client's own record, and then perhaps its removal. */
  lemma PutOrDelete(b: Broker, h: nat, c: Client, mem: Mem)
    requires Inv(b) && Has(b, h) && c.h == h && c.state == Get(b, h).state
    ensures Has(Put(b, h, c), h)
    ensures Inv(Put(b, h, c)) && Evolves(b, Put(b, h, c), h)
    ensures Inv(Delete(Put(b, h, c), h, mem)) && Evolves(b, Delete(Put(b, h, c), h, mem), h)
  {
    PutKeeps(b, h, c, None);
    PutShape(b, h, c);
    PutEvolves(b, h, c);
    DeleteKeeps(Put(b, h, c), h, mem);
    EvolvesTwice(b, Put(b, h, c), Delete(Put(b, h, c), h, mem), h);
  }

  lemma TickKeeps(b: Broker, h: nat, mem: Mem)
    requires Inv(b) && Has(b, h)
    ensures Inv(Tick(b, h, mem)) && Evolves(b, Tick(b, h, mem), h)
  {
    var c1 := Countdown(Get(b, h));
    if c1.connTimeout > 0 {
      var c2 := c1.(connTimeout := c1.connTimeout - 1);
      PutKeeps(b, h, c2, None);
      PutEvolves(b, h, c2);
    } else {
      PutOrDelete(b, h, c1, mem);
    }
  }

  lemma TaskKeeps(b: Broker, h: nat, room: nat, mem: Mem)
    requires Inv(b) && Has(b, h)
    ensures Inv(RunTask(b, h, room, mem)) && Evolves(b, RunTask(b, h, room, mem), h)
  {
    var c := Get(b, h);
    NothingSound(b, h, 0);
    PutOrDelete(b, h, Attempt(c, room).0, mem);
  }

  lemma AcceptKeeps(b: Broker)
    requires Inv(b)
    ensures Inv(Accept(b)) && !Has(b, b.next)
    ensures forall g: nat :: g != b.next ==>
              (Has(Accept(b), g) <==> Has(b, g)) && (Has(b, g) ==> Get(Accept(b), g) == Get(b, g))
  {
    var cs, c := b.clients, NewClient(b.next);
    AddedFirst(cs, c);
    AddedOk(cs, c, b.next);
    OwnersKept(cs, [c] + cs, b.slots, None);
    WillsStay(cs, c, b.wills, b.next);
  }

  lemma AddedFirst(cs: seq<Client>, c: Client)
    ensures forall g: nat :: g != c.h ==> At([c] + cs, g) == 1 + At(cs, g)
  {
    assert ([c] + cs)[1..] == cs;
  }

  lemma AddedOk(cs: seq<Client>, c: Client, next: nat)
    requires Distinct(cs, next) && c.h == next
    ensures Distinct([c] + cs, next + 1) && At(cs, next) == |cs|
  {
  }

  lemma WillsStay(cs: seq<Client>, c: Client, wills: seq<nat>, next: nat)
    requires WillsOk(cs, wills, next) && c.h == next
    ensures WillsOk([c] + cs, wills, next + 1)
  {
    AddedFirst(cs, c);
  }

  /** Whose step an event is; the steps of no client are those for all of them. */
  function Subject(e: Event): Option<nat> {
    match e
    case Chunk(h, _, _) => Some(h)
    case Gone(h, _) => Some(h)
    case Timer(h, _) => Some(h)
    case Task(h, _, _) => Some(h)
    case _ => None
  }

  lemma StepKeeps(b: Broker, e: Event)
    requires Inv(b)
    ensures Inv(Step(b, e))
    ensures Subject(e).Some? ==> Evolves(b, Step(b, e), Subject(e).value)
    ensures Subject(e).None? && !e.Connection? ==> AllFed(b.clients, Step(b, e).clients) && Step(b, e).wills == b.wills
    ensures Step(b, e).next == if e.Connection? && !Halted(b) then b.next + 1 else b.next
    ensures b.fault ==> Step(b, e).fault
  {
    if Subject(e).Some? {
      OwnStepKeeps(b, e, Subject(e).value);
    } else if !Halted(b) {
      match e
      case Connection => AcceptKeeps(b);
      case LocalPublish(topic, data, qos, retain, mem) =>
        FanoutKeeps(b, topic, data, None);
        FanoutFeeds(b, topic, data, 0);
        UpdateKeeps(Fanout(b, topic, data, 0), topic, data, qos, mem, None);
      case LocalSubscribe(filter) => SubscribeKeeps(b.clients, b.slots, Local, filter);
      case LocalUnsubscribe(filter) => UnsubscribeKeeps(b.clients, b.slots, Local, filter);
    }
  }

  lemma OwnStepKeeps(b: Broker, e: Event, h: nat)
    requires Inv(b) && Subject(e) == Some(h)
    ensures Inv(Step(b, e)) && Evolves(b, Step(b, e), h)
  {
    if Halted(b) || !Has(b, h) {
      FedEvolves(b, b, h);
    } else {
      match e
      case Chunk(_, chunk, inputs) => ReceiveKeeps(b, h, chunk, inputs);
      case Gone(_, mem) => DeleteKeeps(b, h, mem);
      case Timer(_, mem) => TickKeeps(b, h, mem);
      case Task(_, room, mem) => TaskKeeps(b, h, room, mem);
    }
  }

  /** Where the first packet of a chunk is looked for. */
  function Copied(b: Broker, h: nat, chunk: seq<byte>): (r: Broker)
    requires Has(b, h) && |chunk| + Get(b, h).read <= BUF
    ensures Has(r, h) && Get(r, h) == CopyIn(Get(b, h), chunk)
  {
    PutGet(b, h, CopyIn(Get(b, h), chunk));
    Put(b, h, CopyIn(Get(b, h), chunk))
  }

  lemma ReadPacketsConnects(b: Broker, h: nat, inputs: seq<Input>)
    requires Inv(b) && Has(b, h) && Get(b, h).state == TcpConnected
    ensures var b' := ReadPackets(b, h, inputs);
            Has(b', h) && Get(b', h).state == MqttData ==> EntersData(b, h, MessageLength(Get(b, h)), NextInput(inputs))
  {
    var c := Get(b, h);
    var len := MessageLength(c);
    if len <= c.read {
      var seen := c.(dispatched := c.dispatched + [c.inBuf[..len]]);
      var b0 := Put(b, h, seen);
      PutKeeps(b, h, seen, None);
      PutShape(b, h, seen);
      HandleSound(b0, h, len, NextInput(inputs));
      var r := Handle(b0, h, len, NextInput(inputs));
      if r.Continue? && len != 0 {
        LaterPacketsKeepState(r.b, h, Finish(Get(r.b, h), c.read, len), LaterInputs(inputs));
      }
    }
  }

  /** Once it is past TCP_CONNECTED, the state of a connection is the same after the packets that follow. */
  lemma LaterPacketsKeepState(b: Broker, h: nat, c: Client, inputs: seq<Input>)
    requires Inv(b) && Has(b, h) && c.h == h && c.state == Get(b, h).state != TcpConnected
    ensures Has(Put(b, h, c), h) && Get(Put(b, h, c), h).state == c.state
    ensures var b' := ReadPackets(Put(b, h, c), h, inputs); Has(b', h) ==> Get(b', h).state == c.state
  {
    PutKeeps(b, h, c, None);
    PutShape(b, h, c);
    ReadPacketsKeeps(Put(b, h, c), h, inputs);
  }

  /**
   * MQTT_DATA is entered in one way: by the connection's own chunk, from TCP_CONNECTED, when
   * the first packet is a CONNECT that is accepted.
   */
  lemma OnlyConnectEntersData(b: Broker, e: Event, g: nat)
    requires Inv(b) && Has(b, g) && Has(Step(b, e), g)
    requires Get(b, g).state != MqttData && Get(Step(b, e), g).state == MqttData
    ensures Get(b, g).state == TcpConnected && e.Chunk? && e.h == g && |e.chunk| + Get(b, g).read <= BUF
    ensures var b1 := Copied(b, g, e.chunk);
            Has(b1, g) && EntersData(b1, g, MessageLength(Get(b1, g)), NextInput(e.inputs))
  {
    StepKeeps(b, e);
    if e.Connection? {
      AcceptKeeps(b);
    } else if Subject(e).None? {
      FedEvolves(b, Step(b, e), g);
    }
    match e
    case Chunk(h, chunk, inputs) => ChunkConnects(b, h, chunk, inputs);
    case Gone(h, mem) => DeleteKeeps(b, h, mem);
    case Timer(h, mem) => TickState(b, h, mem);
    case Task(h, room, mem) => TaskState(b, h, room, mem);
  }

  lemma ChunkConnects(b: Broker, h: nat, chunk: seq<byte>, inputs: seq<Input>)
    requires Inv(b) && Has(b, h) && Has(ReceiveChunk(b, h, chunk, inputs), h)
    requires Get(b, h).state == TcpConnected && Get(ReceiveChunk(b, h, chunk, inputs), h).state == MqttData
    ensures |chunk| + Get(b, h).read <= BUF
    ensures var b1 := Copied(b, h, chunk);
            Has(b1, h) && EntersData(b1, h, MessageLength(Get(b1, h)), NextInput(inputs))
  {
    var c := Get(b, h);
    if BUF < |chunk| + c.read {
      DeleteKeeps(b, h, NextInput(inputs).own);
    } else {
      var c1 := CopyIn(c, chunk);
      PutShape(b, h, c1);
      PutKeeps(b, h, c1, None);
      if 2 <= |chunk| {
        ReadPacketsConnects(Copied(b, h, chunk), h, inputs);
      }
    }
  }

  /** Timers and MQTT_ServerTask leave the state of a connection alone. */
  lemma TickState(b: Broker, h: nat, mem: Mem)
    requires Inv(b) && Has(b, h) && Has(Tick(b, h, mem), h)
    ensures Get(Tick(b, h, mem), h).state == Get(b, h).state
  {
    var c1 := Countdown(Get(b, h));
    if c1.connTimeout > 0 {
      PutShape(b, h, c1.(connTimeout := c1.connTimeout - 1));
    } else {
      PutOrGone(b, h, c1, mem);
    }
  }

  lemma TaskState(b: Broker, h: nat, room: nat, mem: Mem)
    requires Inv(b) && Has(b, h) && Has(RunTask(b, h, room, mem), h)
    ensures Get(RunTask(b, h, room, mem), h).state == Get(b, h).state
  {
    var c := Get(b, h);
    PutOrGone(b, h, Attempt(c, room).0, mem);
  }

  lemma PutOrGone(b: Broker, h: nat, c: Client, mem: Mem)
    requires Inv(b) && Has(b, h) && c.h == h && c.state == Get(b, h).state
    ensures Has(Put(b, h, c), h) && Get(Put(b, h, c), h) == c && !Has(Delete(Put(b, h, c), h, mem), h)
  {
    PutShape(b, h, c);
    PutKeeps(b, h, c, None);
    DeleteKeeps(Put(b, h, c), h, mem);
  }

  lemma {:induction false} RunKeeps(b: Broker, es: seq<Event>)
    requires Inv(b)
    ensures Inv(Run(b, es))
    decreases |es|
  {
    if es != [] {
      StepKeeps(b, es[0]);
      RunKeeps(Step(b, es[0]), es[1..]);
    }
  }

  /**
   * At every step boundary of every run, each occupied slot belongs to the local client or to
   * a connection in the list that is past its CONNECT.
   */
  lemma EverySlotIsOwned(maxSubscriptions: nat, maxRetained: nat, es: seq<Event>)
    ensures var b := Run(Start(maxSubscriptions, maxRetained), es);
            forall k :: 0 <= k < |b.slots| && b.slots[k].Sub? && b.slots[k].owner.Con? ==>
              Has(b, b.slots[k].owner.h) && Get(b, b.slots[k].owner.h).state == MqttData
  {
    var b := Run(Start(maxSubscriptions, maxRetained), es);
    RunKeeps(Start(maxSubscriptions, maxRetained), es);
    forall k | 0 <= k < |b.slots| && b.slots[k].Sub?
      ensures MayOwn(b.clients, b.slots[k].owner, None)
    {
    }
  }
}
