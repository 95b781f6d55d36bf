/** What is written to each client, over every run: whole messages, in the order they were queued. */
module BrokerQueues {
  import opened Bytes
  import opened MessageQueue
  import opened Packet
  import opened Reader
  import opened Reassembly
  import opened Topics
  import opened TopicList
  import opened Retained
  import opened Broker

  /** `a` is what is left of `b` when some entries are taken out. */
  ghost predicate Subsequence(a: seq<seq<byte>>, b: seq<seq<byte>>) {
    if b == [] then a == []
    else
      || Subsequence(a, b[..|b| - 1])
      || (a != [] && a[|a| - 1] == b[|b| - 1] && Subsequence(a[..|a| - 1], b[..|b| - 1]))
  }

  /**
   * The messages queued are those taken and then those in the ring; of those taken, the ones
   * written are in order. No message is longer than the data buffer of MQTT_ServerTask.
   */
  ghost predicate QueueOk(ring: seq<byte>, queued: seq<seq<byte>>, taken: seq<seq<byte>>, sent: seq<seq<byte>>) {
    && Aligned(ring)
    && queued == taken + Messages(ring)
    && Subsequence(sent, taken)
    && (forall i :: 0 <= i < |queued| ==> |queued[i]| <= BUF)
  }

  ghost predicate ClientOk(c: Client) {
    QueueOk(c.ring, c.queued, c.taken, c.sent)
  }

  lemma Appended(ring: seq<byte>, queued: seq<seq<byte>>, taken: seq<seq<byte>>, sent: seq<seq<byte>>,
                 ring': seq<byte>, m: seq<byte>)
    requires QueueOk(ring, queued, taken, sent) && |m| <= BUF
    requires Aligned(ring') && Messages(ring') == Messages(ring) + [m]
    ensures QueueOk(ring', queued + [m], taken, sent)
  {
    assert taken + (Messages(ring) + [m]) == taken + Messages(ring) + [m];
  }

  lemma EnqueueKeeps(c: Client, m: seq<byte>)
    requires ClientOk(c) && |m| <= BUF
    ensures ClientOk(Enqueue(c, m))
  {
    PutAppendsOrTears(c.ring, QSIZE, m);
    if Fits(c.ring, QSIZE, m) {
      Appended(c.ring, c.queued, c.taken, c.sent, PutContents(c.ring, QSIZE, m), m);
    }
  }

  lemma Took(ring: seq<byte>, queued: seq<seq<byte>>, taken: seq<seq<byte>>, sent: seq<seq<byte>>, ring': seq<byte>)
    requires QueueOk(ring, queued, taken, sent)
    requires Aligned(ring') && Messages(ring) != [] && Messages(ring') == Messages(ring)[1..]
    ensures var m := Messages(ring)[0];
            && |m| <= BUF && QueueOk(ring', queued, taken + [m], sent) && QueueOk(ring', queued, taken + [m], sent + [m])
  {
    var m := Messages(ring)[0];
    assert m == queued[|taken|];
    assert Messages(ring) == [m] + Messages(ring');
    assert taken + [m] + Messages(ring') == taken + Messages(ring);
    assert (taken + [m])[..|taken|] == taken && (sent + [m])[..|sent|] == sent;
  }

  /** The data buffer of MQTT_ServerTask is big enough for what the queue holds, so nothing is cut. */
  lemma GetsWhole(ring: RingBytes)
    requires Aligned(ring) && (Messages(ring) != [] ==> |Messages(ring)[0]| <= BUF)
    ensures var (ring', reply) := Exec(ring, QSIZE, Gets(BUF, false));
            && Aligned(ring') && |ring'| <= QSIZE
            && (if Messages(ring) == [] then reply == Nothing && ring' == []
                else reply == Got(Messages(ring)[0]) && Messages(ring') == Messages(ring)[1..])
  {
    ExecIsFifoStep(ring, QSIZE, Gets(BUF, false));
    if Messages(ring) != [] {
      var m := Messages(ring)[0];
      assert m[..Min(BUF, |m|)] == m;
    }
  }

  lemma TakeKeeps(c: Client)
    requires ClientOk(c)
    ensures var (c', m) := Take(c);
            && ClientOk(c')
            && (m == None <==> Messages(c.ring) == [])
            && (m.Some? ==> m.value == Messages(c.ring)[0] && ClientOk(c'.(sent := c'.sent + [m.value])))
  {
    if Messages(c.ring) != [] {
      assert |Messages(c.ring)[0]| <= BUF by {
        assert Messages(c.ring)[0] == c.queued[|c.taken|];
      }
      GetsWhole(c.ring);
      Took(c.ring, c.queued, c.taken, c.sent, Exec(c.ring, QSIZE, Gets(BUF, false)).0);
    } else {
      GetsWhole(c.ring);
      assert Messages([]) == [];
    }
  }

  // ---------------------------------------------------------------- each operation

  ghost predicate QueuesOk(b: Broker) {
    forall i :: 0 <= i < |b.clients| ==> ClientOk(b.clients[i])
  }

  lemma PutQ(b: Broker, h: nat, c: Client)
    requires QueuesOk(b) && Has(b, h) && (ClientOk(Get(b, h)) ==> ClientOk(c))
    ensures QueuesOk(Put(b, h, c))
  {
  }

  lemma RemoveQ(b: Broker, h: nat)
    requires QueuesOk(b) && Has(b, h)
    ensures QueuesOk(Remove(b, h))
  {
    var i := At(b.clients, h);
    var cs' := Remove(b, h).clients;
    assert forall l :: 0 <= l < |cs'| ==> cs'[l] == if l < i then b.clients[l] else b.clients[l + 1];
  }

  /** Every message the broker builds fits its buffer. */
  lemma PublishToKeeps(c: Client, topic: seq<byte>, data: seq<byte>, qos: int, retain: int)
    requires ClientOk(c)
    ensures ClientOk(PublishTo(c, topic, data, qos, retain))
  {
    var built := PublishMessage(BUF, topic, data, qos, retain, c.counter);
    EnqueueKeeps(c.(counter := built.counter), built.message);
  }

  lemma AckKeeps(c: Client, kind: int, id: word, codes: seq<byte>)
    requires ClientOk(c) && |codes| <= MAX_SUBS
    ensures ClientOk(Ack(c, kind, id, codes))
  {
    var built := AckMessage(kind, id, codes, c.counter);
    EnqueueKeeps(c.(counter := built.counter), built.message);
  }

  lemma {:induction false} FanoutQ(b: Broker, topic: seq<byte>, data: seq<byte>, k: nat)
    requires QueuesOk(b)
    ensures QueuesOk(Fanout(b, topic, data, k))
    decreases |b.slots| - k
  {
    if k < |b.slots| {
      var slot := b.slots[k];
      var b1 := if Hit(slot, topic) then PublishSlot(b, slot, topic, data) else b;
      if Hit(slot, topic) && slot.owner.Con? && Has(b, slot.owner.h) {
        PublishToKeeps(Get(b, slot.owner.h), topic, data, slot.qos, 0);
        PutQ(b, slot.owner.h, PublishTo(Get(b, slot.owner.h), topic, data, slot.qos, 0));
      }
      FanoutQ(b1, topic, data, k + 1);
    }
  }

  lemma DeleteQ(b: Broker, h: nat, mem: Mem)
    requires QueuesOk(b) && Has(b, h)
    ensures QueuesOk(Delete(b, h, mem))
  {
    RemoveQ(b, h);
    var will := Get(b, h).will;
    if will.topic.Some? {
      FanoutQ(Remove(b, h), will.topic.value, will.data, 0);
    }
  }

  lemma {:induction false} SendRetainedKeeps(c: Client, list: seq<Entry>, filter: seq<byte>, k: nat)
    requires ClientOk(c)
    ensures ClientOk(SendRetained(c, list, filter, k))
    decreases |list| - k
  {
    if k < |list| {
      var e := list[k];
      if e.topic.Some? && e.data.Some? && Matches(filter, true, e.topic.value) {
        PublishToKeeps(c, e.topic.value, e.data.value, e.qos, 1);
        SendRetainedKeeps(PublishTo(c, e.topic.value, e.data.value, e.qos, 1), list, filter, k + 1);
      } else {
        SendRetainedKeeps(c, list, filter, k + 1);
      }
    }
  }

  lemma {:induction false} WalkCodes(slots: seq<Slot>, h: nat, buf: InBuffer, len: Count, at: nat, codes: seq<byte>, last: seq<byte>)
    requires |codes| <= MAX_SUBS
    ensures |SubscribeWalk(slots, h, buf, len, at, codes, last).codes| <= MAX_SUBS
    decreases len - at
  {
    if at < len && |codes| < MAX_SUBS && StrAt(buf, at, len - at).Some? {
      var at' := at + 2 + StrAt(buf, at, len - at).value;
      if at' < len {
        var filter := CStr(buf[at + 2..at']);
        var (slots', ok) := Subscribe(slots, Con(h), filter, 0);
        WalkCodes(slots', h, buf, len, at' + 1, codes + [if ok then 0 else 0x80], filter);
      }
    }
  }

  lemma ConnackQ(b: Broker, h: nat, code: byte)
    requires QueuesOk(b) && Has(b, h)
    ensures QueuesOk(Connack(b, h, code).b)
  {
    var c := Get(b, h);
    var c' := c.(state := if code == ACCEPTED then MqttData else TcpDisconnecting);
    EnqueueKeeps(c', Build(CONNACK, 0, 0, 0, [0, code]));
    PutQ(b, h, Enqueue(c', Build(CONNACK, 0, 0, 0, [0, code])));
  }

  lemma AfterIdQ(b: Broker, h: nat, len: nat, hd: ConnectHeader, f: IdField, inp: Input)
    requires QueuesOk(b) && Has(b, h)
    ensures QueuesOk(AfterId(b, h, len, hd, f, inp).b)
  {
    var c := Get(b, h);
    var w := ReadWill(c.inBuf, len, hd.flags, f.used);
    var c1 := c.(id := f.id, will := w.will);
    var c2 := c.(id := f.id, will := w.will.(topic := None));
    PutGet(b, h, c1);
    PutGet(b, h, c2);
    PutQ(b, h, c1);
    PutQ(b, h, c2);
    DeleteQ(Put(b, h, c1), h, inp.own);
    ConnackQ(Put(b, h, c1), h, ACCEPTED);
    ConnackQ(Put(b, h, c2), h, REFUSE_AUTH);
  }

  lemma HandleConnectQ(b: Broker, h: nat, len: nat, inp: Input)
    requires QueuesOk(b) && Has(b, h)
    ensures QueuesOk(HandleConnect(b, h, len, inp).b)
  {
    var c := Get(b, h);
    if len < 13 {
      DeleteQ(b, h, inp.own);
    } else if ReadConnectHeader(c.inBuf).None? {
      ConnackQ(b, h, REFUSE_PROTOCOL);
    } else {
      var hd := ReadConnectHeader(c.inBuf).value;
      var c1 := c.(inBuf := ShiftHeader(c.inBuf, hd.version),
                   cleanSession := hd.flags / 2 % 2 == 1, keepalive := hd.keepalive);
      var b1 := Put(b, h, c1);
      PutGet(b, h, c1);
      PutQ(b, h, c1);
      match ReadId(c.inBuf, len, hd)
      case None => ConnackQ(b1, h, REFUSE_ID);
      case Some(f) =>
        var b2 := if f.key.Some? then DeleteById(b1, f.key.value, inp.takeover) else b1;
        if f.key.Some? {
          DeleteByIdQ(b1, f.key.value, inp.takeover);
        }
        if Has(b2, h) {
          AfterIdQ(b2, h, len, hd, f, inp);
        }
    }
  }

  lemma DeleteByIdQ(b: Broker, id: seq<byte>, mem: Mem)
    requires QueuesOk(b)
    ensures QueuesOk(DeleteById(b, id, mem))
  {
    var i := AtId(b.clients, id);
    if i < |b.clients| && Has(b, b.clients[i].h) {
      DeleteQ(b, b.clients[i].h, mem);
    }
  }

  lemma HandleSubscribeQ(b: Broker, h: nat, len: Count, inp: Input)
    requires QueuesOk(b) && Has(b, h)
    ensures QueuesOk(HandleSubscribe(b, h, len, inp).b)
  {
    var c := Get(b, h);
    if len < 8 {
      DeleteQ(b, h, inp.own);
    } else {
      var w := SubscribeWalk(b.slots, h, c.inBuf, len, 4, [], []);
      var b1 := b.(slots := w.slots);
      if !w.ok {
        DeleteQ(b1, h, inp.own);
      } else {
        WalkCodes(b.slots, h, c.inBuf, len, 4, [], []);
        var c1 := Ack(c, SUBACK, GetId(c.inBuf, BUF), w.codes);
        AckKeeps(c, SUBACK, GetId(c.inBuf, BUF), w.codes);
        SendRetainedKeeps(c1, b.retained, w.last, 0);
        PutQ(b1, h, SendRetained(c1, b.retained, w.last, 0));
      }
    }
  }

  lemma HandleUnsubscribeQ(b: Broker, h: nat, len: Count, inp: Input)
    requires QueuesOk(b) && Has(b, h)
    ensures QueuesOk(HandleUnsubscribe(b, h, len, inp).b)
  {
    var c := Get(b, h);
    if len < 7 {
      DeleteQ(b, h, inp.own);
    } else {
      var w := UnsubscribeWalk(b.slots, h, c.inBuf, len, 4);
      var b1 := b.(slots := w.slots);
      if !w.ok {
        DeleteQ(b1, h, inp.own);
      } else {
        AckKeeps(c, UNSUBACK, GetId(c.inBuf, BUF), []);
        PutQ(b1, h, Ack(c, UNSUBACK, GetId(c.inBuf, BUF), []));
      }
    }
  }

  lemma HandlePublishQ(b: Broker, buf: InBuffer, mem: Mem)
    requires QueuesOk(b)
    ensures QueuesOk(HandlePublish(b, buf, mem))
  {
    match PublishTopic(buf, BUF)
    case None =>
    case Some(t) => FanoutQ(b, CStr(t), PayloadOf(buf), 0);
  }

  lemma HandleQ(b: Broker, h: nat, len: Count, inp: Input)
    requires QueuesOk(b) && Has(b, h)
    ensures QueuesOk(Handle(b, h, len, inp).b)
  {
    var c := Get(b, h);
    var kind := Kind(c.inBuf);
    if c.state == TcpConnected {
      if kind == CONNECT {
        HandleConnectQ(b, h, len, inp);
      } else {
        DeleteQ(b, h, inp.own);
      }
    } else if c.state == MqttData {
      if kind == SUBSCRIBE {
        HandleSubscribeQ(b, h, len, inp);
      } else if kind == UNSUBSCRIBE {
        HandleUnsubscribeQ(b, h, len, inp);
      } else if kind == PUBLISH {
        HandlePublishQ(b, c.inBuf, inp.own);
      } else if kind == PINGREQ {
        EnqueueKeeps(c, Build(PINGRESP, 0, 0, 0, []));
        PutQ(b, h, Enqueue(c, Build(PINGRESP, 0, 0, 0, [])));
      } else if kind == DISCONNECT {
        var c1 := c.(will := c.will.(topic := None));
        PutGet(b, h, c1);
        PutQ(b, h, c1);
        DeleteQ(Put(b, h, c1), h, inp.own);
      }
    }
  }

  lemma {:induction false} ReadPacketsQ(b: Broker, h: nat, inputs: seq<Input>)
    requires QueuesOk(b) && Has(b, h)
    ensures QueuesOk(ReadPackets(b, h, inputs))
    decreases Get(b, h).read
  {
    var c := Get(b, h);
    var len := MessageLength(c);
    if len <= c.read {
      var seen := c.(dispatched := c.dispatched + [c.inBuf[..len]]);
      PutGet(b, h, seen);
      PutQ(b, h, seen);
      HandleQ(Put(b, h, seen), h, len, NextInput(inputs));
      var r := Handle(Put(b, h, seen), h, len, NextInput(inputs));
      if r.Continue? && Has(r.b, h) && len != 0 {
        var c1 := Finish(Get(r.b, h), c.read, len);
        PutGet(r.b, h, c1);
        PutQ(r.b, h, c1);
        if len < c.read {
          ReadPacketsQ(Put(r.b, h, c1), h, LaterInputs(inputs));
        }
      }
    }
  }

  lemma ReceiveChunkQ(b: Broker, h: nat, chunk: seq<byte>, inputs: seq<Input>)
    requires QueuesOk(b) && Has(b, h)
    ensures QueuesOk(ReceiveChunk(b, h, chunk, inputs))
  {
    var c := Get(b, h);
    if BUF < |chunk| + c.read {
      DeleteQ(b, h, NextInput(inputs).own);
    } else {
      PutGet(b, h, CopyIn(c, chunk));
      PutQ(b, h, CopyIn(c, chunk));
      if 2 <= |chunk| {
        ReadPacketsQ(Put(b, h, CopyIn(c, chunk)), h, inputs);
      }
    }
  }

  lemma PutOrDeleteQ(b: Broker, h: nat, c: Client, mem: Mem)
    requires QueuesOk(b) && Has(b, h) && c.h == h && (ClientOk(Get(b, h)) ==> ClientOk(c))
    ensures Has(Put(b, h, c), h) && QueuesOk(Put(b, h, c)) && QueuesOk(Delete(Put(b, h, c), h, mem))
  {
    PutGet(b, h, c);
    PutQ(b, h, c);
    DeleteQ(Put(b, h, c), h, mem);
  }

  lemma TickQ(b: Broker, h: nat, mem: Mem)
    requires QueuesOk(b) && Has(b, h)
    ensures QueuesOk(Tick(b, h, mem))
  {
    var c1 := Countdown(Get(b, h));
    if c1.connTimeout > 0 {
      PutQ(b, h, c1.(connTimeout := c1.connTimeout - 1));
    } else {
      PutOrDeleteQ(b, h, c1, mem);
    }
  }

  lemma RunTaskQ(b: Broker, h: nat, room: nat, mem: Mem)
    requires QueuesOk(b) && Has(b, h)
    ensures QueuesOk(RunTask(b, h, room, mem))
  {
    var c := Get(b, h);
    if c.state != TcpConnected {
      TakeKeeps(c);
      PutOrDeleteQ(b, h, Attempt(c, room).0, mem);
    }
  }

  lemma StepQ(b: Broker, e: Event)
    requires QueuesOk(b)
    ensures QueuesOk(Step(b, e))
  {
    match e
    case Connection => EmptyOk(b);
    case Chunk(h, chunk, inputs) => if Has(b, h) { ReceiveChunkQ(b, h, chunk, inputs); }
    case Gone(h, mem) => if Has(b, h) { DeleteQ(b, h, mem); }
    case Timer(h, mem) => if Has(b, h) { TickQ(b, h, mem); }
    case Task(h, room, mem) => if Has(b, h) { RunTaskQ(b, h, room, mem); }
    case LocalPublish(topic, data, qos, retain, mem) => FanoutQ(b, topic, data, 0);
    case _ =>
  }

  lemma EmptyOk(b: Broker)
    requires QueuesOk(b)
    ensures QueuesOk(Accept(b))
  {
    assert Messages([]) == [];
    assert ClientOk(NewClient(b.next));
  }

  lemma {:induction false} RunQ(b: Broker, es: seq<Event>)
    requires QueuesOk(b)
    ensures QueuesOk(Run(b, es))
    decreases |es|
  {
    if es != [] {
      StepQ(b, es[0]);
      RunQ(Step(b, es[0]), es[1..]);
    }
  }

  // ---------------------------------------------------------------- what the client gets

  /** `n` entries of `a` are in `b` in the same order, at the increasing positions `at`. */
  ghost predicate Picked(a: seq<seq<byte>>, b: seq<seq<byte>>, at: seq<nat>) {
    && |at| == |a|
    && (forall i :: 0 <= i < |at| ==> at[i] < |b| && a[i] == b[at[i]])
    && (forall i, j :: 0 <= i < j < |at| ==> at[i] < at[j])
  }

  lemma {:induction false} SubsequencePicks(a: seq<seq<byte>>, b: seq<seq<byte>>) returns (at: seq<nat>)
    requires Subsequence(a, b)
    ensures Picked(a, b, at)
    decreases |b|
  {
    if b == [] {
      at := [];
    } else if Subsequence(a, b[..|b| - 1]) {
      at := SubsequencePicks(a, b[..|b| - 1]);
    } else {
      at := SubsequencePicks(a[..|a| - 1], b[..|b| - 1]);
      at := at + [|b| - 1];
    }
  }

  /**
   * Over any run, the bytes written to a client are whole messages, and these are messages
   * queued for it, picked in the order of the queue. None is cut, and a torn frame is none.
   */
  lemma WrittenAreWholeMessages(maxSubscriptions: nat, maxRetained: nat, es: seq<Event>, h: nat) returns (at: seq<nat>)
    requires Has(Run(Start(maxSubscriptions, maxRetained), es), h)
    ensures var c := Get(Run(Start(maxSubscriptions, maxRetained), es), h);
            && Picked(c.sent, c.queued, at)
            && c.queued == c.taken + Messages(c.ring)
            && (forall i :: 0 <= i < |at| ==> at[i] < |c.taken|)
  {
    var b := Run(Start(maxSubscriptions, maxRetained), es);
    RunQ(Start(maxSubscriptions, maxRetained), es);
    var c := Get(b, h);
    assert ClientOk(c);
    at := SubsequencePicks(c.sent, c.taken);
  }
}
