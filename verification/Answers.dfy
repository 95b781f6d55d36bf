/** What the broker answers to a CONNECT: which return code, in which bytes, and that nothing comes before it. */
module Answers {
  import opened Bytes
  import opened Packet
  import opened Reader
  import opened Reassembly
  import opened MessageQueue
  import opened Proto
  import opened Topics
  import opened TopicList
  import opened Retained
  import opened Broker
  import opened BrokerInvariant
  import opened Publishing

  /** The CONNACK with return code `code` (section 3.2 of MQTT 3.1.1). */
  function Answer(code: byte): seq<byte> {
    [0x20, 2, 0, code]
  }

  /**
   * `c'` is `c` after a CONNECT that was answered with `code`: the CONNACK is queued if there is
   * room for it, the state goes by the code, and nobody refused by the callback leaves a will.
   */
  ghost predicate Answered(c: Client, c': Client, code: byte) {
    && c'.ring == PutContents(c.ring, QSIZE, Answer(code))
    && c'.queued == c.queued + (if Fits(c.ring, QSIZE, Answer(code)) then [Answer(code)] else [])
    && c'.state == (if code == 0 then MqttData else TcpDisconnecting)
    && (code == 5 ==> c'.will.topic == None)
    && c' == c.(ring := c'.ring, queued := c'.queued, state := c'.state, inBuf := c'.inBuf, id := c'.id,
                will := c'.will, cleanSession := c'.cleanSession, keepalive := c'.keepalive)
  }

  /** 1 without a known protocol, 2 without a usable id, 5 if the callback refuses, and else 0. */
  function AnswerCode(buf: InBuffer, len: nat, inp: Input): byte {
    match ReadConnectHeader(buf)
    case None => 1
    case Some(hd) => if ReadId(buf, len, hd) == None then 2 else if inp.auth then 0 else 5
  }

  lemma {:induction false} SpecialsAreSome(p: seq<byte>)
    ensures SpecialCount(p) <= |p|
  {
    if p != [] {
      SpecialsAreSome(p[1..]);
    }
  }

  lemma AnswerSize(code: byte)
    ensures |Frame(Answer(code))| <= 10
  {
    StuffIsClean(Answer(code));
    SpecialsAreSome(Answer(code));
  }

  /** With room for it the answer comes last in the queue; an empty queue has the room. */
  lemma AnswerIsQueued(c: Client, c': Client, code: byte)
    requires Answered(c, c', code) && Aligned(c.ring) && |c.ring| <= QSIZE - 10
    ensures c'.queued == c.queued + [Answer(code)] && Messages(c'.ring) == Messages(c.ring) + [Answer(code)]
  {
    AnswerSize(code);
    PutAppendsOrTears(c.ring, QSIZE, Answer(code));
  }

  // ---------------------------------------------------------------- nothing before the answer

  lemma {:induction false} NoSlotNoHit(slots: seq<Slot>, owner: Owner, topic: seq<byte>, k: nat)
    requires forall j :: 0 <= j < |slots| && slots[j].Sub? ==> slots[j].owner != owner
    ensures Hits(slots, owner, topic, k) == 0
    decreases |slots| - k
  {
    if k < |slots| {
      NoSlotNoHit(slots, owner, topic, k + 1);
    }
  }

  /** A connection that is not past its CONNECT gets nothing from the removal of another one. */
  lemma RemovalPassesBy(b: Broker, g: nat, h: nat, mem: Mem)
    requires Inv(b) && Has(b, g) && Has(b, h) && g != h && Get(b, h).state == TcpConnected
    ensures var b' := Delete(b, g, mem); Has(b', h) && Get(b', h) == Get(b, h)
  {
    RemoveShape(b, g);
    RemoveKeeps(b, g);
    var will, b1 := Get(b, g).will, Remove(b, g);
    if will.topic.Some? {
      var t := will.topic.value;
      var b2 := Fanout(b1, t, will.data, 0);
      FanoutCopies(b1, t, will.data, 0);
      ServedEach(b1, b2.clients, t, Copy(t, will.data));
      NoSlotNoHit(b.slots, Con(h), t, 0);
    }
  }

  /** Nor from the takeover in its own CONNECT. */
  lemma TakeoverPassesBy(b: Broker, h: nat, key: seq<byte>, mem: Mem)
    requires Inv(b) && Has(b, h) && Get(b, h).state == TcpConnected && Has(DeleteById(b, key, mem), h)
    ensures Get(DeleteById(b, key, mem), h) == Get(b, h)
  {
    var i := AtId(b.clients, key);
    if i < |b.clients| {
      var g := b.clients[i].h;
      AtIs(b.clients, g, i);
      DeleteKeeps(b, g, mem);
      if g != h {
        RemovalPassesBy(b, g, h, mem);
      }
    }
  }

  // ---------------------------------------------------------------- the answer

  lemma ConnackIs(code: byte)
    ensures Build(CONNACK, 0, 0, 0, [0, code]) == Answer(code)
  {
  }

  /** Both records have the clean-session flag and the keep-alive of the packet's header. */
  predicate SameHeader(c: Client, c': Client) {
    c'.cleanSession == c.cleanSession && c'.keepalive == c.keepalive
  }

  lemma ConnackAnswers(b: Broker, h: nat, code: byte)
    requires Has(b, h) && (code == 5 ==> Get(b, h).will.topic == None)
    ensures var r := Connack(b, h, code); r.Continue? && Has(r.b, h) && Answered(Get(b, h), Get(r.b, h), code)
    ensures SameHeader(Get(b, h), Get(Connack(b, h, code).b, h))
  {
    var c := Get(b, h);
    ConnackIs(code);
    var c' := c.(state := if code == 0 then MqttData else TcpDisconnecting);
    assert Answered(c, Enqueue(c', Answer(code)), code);
    PutGet(b, h, Enqueue(c', Answer(code)));
  }

  /** An answer after more about the client was read from the packet. */
  lemma AnsweredAfter(c: Client, c1: Client, c': Client, code: byte)
    requires Answered(c1, c', code)
    requires c1 == c.(inBuf := c1.inBuf, id := c1.id, will := c1.will, cleanSession := c1.cleanSession, keepalive := c1.keepalive)
    ensures Answered(c, c', code)
  {
  }

  lemma AfterIdAnswers(b: Broker, h: nat, len: nat, hd: ConnectHeader, f: IdField, inp: Input)
    requires Has(b, h) && AfterId(b, h, len, hd, f, inp).Continue?
    ensures var r := AfterId(b, h, len, hd, f, inp);
            Has(r.b, h) && Answered(Get(b, h), Get(r.b, h), if inp.auth then 0 else 5) && SameHeader(Get(b, h), Get(r.b, h))
  {
    var c := Get(b, h);
    var w := ReadWill(c.inBuf, len, hd.flags, f.used);
    var c1 := c.(id := f.id, will := if inp.auth then w.will else w.will.(topic := None));
    PutGet(b, h, c1);
    ConnackAnswers(Put(b, h, c1), h, if inp.auth then 0 else 5);
    AnsweredAfter(c, c1, Get(AfterId(b, h, len, hd, f, inp).b, h), if inp.auth then 0 else 5);
  }

  /**
   * A CONNECT that does not end the connection is answered with exactly one CONNACK, whose
   * return code goes by the packet and the callback; the connection is accepted if and only if
   * that is 0. What the header says is known from then on.
   */
  lemma ConnectIsAnswered(b: Broker, h: nat, len: Count, inp: Input)
    requires Inv(b) && Has(b, h) && Get(b, h).state == TcpConnected
    requires HandleConnect(b, h, len, inp).Continue?
    ensures var c, r := Get(b, h), HandleConnect(b, h, len, inp);
            && Has(r.b, h) && Answered(c, Get(r.b, h), AnswerCode(c.inBuf, len, inp))
            && (ReadConnectHeader(c.inBuf).Some? ==>
                  var hd := ReadConnectHeader(c.inBuf).value;
                  && Get(r.b, h).keepalive == hd.keepalive
                  && (Get(r.b, h).cleanSession <==> hd.flags / 2 % 2 == 1))
  {
    var c := Get(b, h);
    if ReadConnectHeader(c.inBuf).None? {
      ConnackAnswers(b, h, 1);
    } else {
      var hd := ReadConnectHeader(c.inBuf).value;
      var c1 := c.(inBuf := ShiftHeader(c.inBuf, hd.version),
                   cleanSession := hd.flags / 2 % 2 == 1, keepalive := hd.keepalive);
      PutShape(b, h, c1);
      PutKeeps(b, h, c1, None);
      var b1 := Put(b, h, c1);
      match ReadId(c.inBuf, len, hd)
      case None =>
        ConnackAnswers(b1, h, 2);
        AnsweredAfter(c, c1, Get(Connack(b1, h, 2).b, h), 2);
      case Some(f) =>
        var b2 := if f.key.Some? then DeleteById(b1, f.key.value, inp.takeover) else b1;
        if f.key.Some? {
          TakeoverPassesBy(b1, h, f.key.value, inp.takeover);
        }
        AfterIdAnswers(b2, h, len, hd, f, inp);
        AnsweredAfter(c, c1, Get(AfterId(b2, h, len, hd, f, inp).b, h), if inp.auth then 0 else 5);
    }
  }

  /** The header of a CONNECT of MQTT 3.1 (section 3.1 of the MQTT V3.1 Protocol Specification). */
  lemma OldHeaderReads(buf: InBuffer, flags: byte, keepalive: word)
    requires buf[2..14] == [0, 6, 'M' as int, 'Q' as int, 'I' as int, 's' as int, 'd' as int, 'p' as int, 3, flags,
                            keepalive / 0x100, keepalive % 0x100]
    ensures ReadConnectHeader(buf) == Some(ConnectHeader(3, 12, flags, keepalive))
  {
    var head := buf[2..14];
    assert buf[2..11] == head[..9] && buf[2..9][1] == head[1] == 6;
    assert buf[11] == head[9] && buf[12] == head[10] && buf[13] == head[11];
  }

  // ---------------------------------------------------------------- whole runs

  /** Nothing is queued before the CONNACK, and that with code 0 if and only if the connection is accepted. */
  ghost predicate AnswerFirst(c: Client) {
    if c.state == TcpConnected then c.ring == [] && c.queued == []
    else c.queued != [] && exists code :: c.queued[0] == Answer(code) && (code == 0 <==> c.state == MqttData)
  }

  ghost predicate AnswersFirst(b: Broker) {
    forall i :: 0 <= i < |b.clients| ==> AnswerFirst(b.clients[i])
  }

  /** `c'` is a later record of a connection that has not had its CONNECT handled since. */
  predicate Later(c: Client, c': Client) {
    c'.state == c.state && c.queued <= c'.queued && (c.state == TcpConnected ==> c'.ring == c.ring && c'.queued == c.queued)
  }

  lemma LaterA(c: Client, c': Client)
    requires Later(c, c') && AnswerFirst(c)
    ensures AnswerFirst(c')
  {
  }

  lemma PutA(b: Broker, h: nat, c: Client)
    requires AnswersFirst(b) && Has(b, h) && c.h == h && (AnswerFirst(Get(b, h)) ==> AnswerFirst(c))
    ensures Has(Put(b, h, c), h) && Get(Put(b, h, c), h) == c && AnswersFirst(Put(b, h, c))
  {
    PutGet(b, h, c);
  }

  lemma {:induction false} TimesLater(c: Client, m: seq<byte>, n: nat)
    ensures var c' := EnqueueTimes(c, m, n);
            c'.state == c.state && c.queued <= c'.queued && (n == 0 ==> c' == c)
    decreases n
  {
    if n > 0 {
      TimesLater(Enqueue(c, m), m, n - 1);
    }
  }

  lemma FanoutA(b: Broker, topic: seq<byte>, data: seq<byte>, dying: Option<nat>)
    requires InvBut(b, dying) && AnswersFirst(b) && (dying.Some? ==> !Has(b, dying.value))
    ensures AnswersFirst(Fanout(b, topic, data, 0))
  {
    FanoutCopies(b, topic, data, 0);
    var cs, cs' := b.clients, Fanout(b, topic, data, 0).clients;
    forall i | 0 <= i < |cs'|
      ensures AnswerFirst(cs'[i])
    {
      var n := Hits(b.slots, Con(cs[i].h), topic, 0);
      AtIs(cs, cs[i].h, i);
      if cs[i].state == TcpConnected {
        NoSlotNoHit(b.slots, Con(cs[i].h), topic, 0);
      }
      TimesLater(cs[i], Copy(topic, data), n);
      LaterA(cs[i], cs'[i]);
    }
  }

  lemma DeleteA(b: Broker, h: nat, mem: Mem)
    requires Inv(b) && AnswersFirst(b) && Has(b, h)
    ensures AnswersFirst(Delete(b, h, mem))
  {
    var i, b1 := At(b.clients, h), Remove(b, h);
    assert forall l :: 0 <= l < |b1.clients| ==> b1.clients[l] == b.clients[if l < i then l else l + 1];
    RemoveKeeps(b, h);
    var will := Get(b, h).will;
    if will.topic.Some? {
      FanoutA(b1, will.topic.value, will.data, Some(h));
    }
  }

  lemma DeleteByIdA(b: Broker, id: seq<byte>, mem: Mem)
    requires Inv(b) && AnswersFirst(b)
    ensures AnswersFirst(DeleteById(b, id, mem))
  {
    var i := AtId(b.clients, id);
    if i < |b.clients| {
      AtIs(b.clients, b.clients[i].h, i);
      DeleteA(b, b.clients[i].h, mem);
    }
  }

  /** The answer to a CONNECT is the first message of all. */
  lemma ConnackA(b: Broker, h: nat, code: byte)
    requires AnswersFirst(b) && Has(b, h) && Get(b, h).state == TcpConnected
    ensures AnswersFirst(Connack(b, h, code).b)
  {
    var c := Get(b, h);
    var c' := c.(state := if code == 0 then MqttData else TcpDisconnecting);
    ConnackIs(code);
    AnswerSize(code);
    assert Enqueue(c', Answer(code)).queued == [Answer(code)];
    PutA(b, h, Enqueue(c', Answer(code)));
  }

  lemma AfterIdA(b: Broker, h: nat, len: Count, hd: ConnectHeader, f: IdField, inp: Input)
    requires Inv(b) && AnswersFirst(b) && Has(b, h) && Get(b, h).state == TcpConnected
    ensures AnswersFirst(AfterId(b, h, len, hd, f, inp).b)
  {
    var c := Get(b, h);
    var w := ReadWill(c.inBuf, len, hd.flags, f.used);
    var c1 := c.(id := f.id, will := w.will);
    var c2 := c.(id := f.id, will := w.will.(topic := None));
    PutA(b, h, c1);
    PutA(b, h, c2);
    PutKeeps(b, h, c1, None);
    DeleteA(Put(b, h, c1), h, inp.own);
    ConnackA(Put(b, h, c1), h, ACCEPTED);
    ConnackA(Put(b, h, c2), h, REFUSE_AUTH);
  }

  lemma HandleConnectA(b: Broker, h: nat, len: Count, inp: Input)
    requires Inv(b) && AnswersFirst(b) && Has(b, h) && Get(b, h).state == TcpConnected
    ensures AnswersFirst(HandleConnect(b, h, len, inp).b)
  {
    var c := Get(b, h);
    if len < 13 {
      DeleteA(b, h, inp.own);
    } else if ReadConnectHeader(c.inBuf).None? {
      ConnackA(b, h, REFUSE_PROTOCOL);
    } else {
      var hd := ReadConnectHeader(c.inBuf).value;
      var c1 := c.(inBuf := ShiftHeader(c.inBuf, hd.version),
                   cleanSession := hd.flags / 2 % 2 == 1, keepalive := hd.keepalive);
      var b1 := Put(b, h, c1);
      PutA(b, h, c1);
      PutKeeps(b, h, c1, None);
      match ReadId(c.inBuf, len, hd)
      case None => ConnackA(b1, h, REFUSE_ID);
      case Some(f) =>
        var b2 := if f.key.Some? then DeleteById(b1, f.key.value, inp.takeover) else b1;
        if f.key.Some? {
          DeleteByIdA(b1, f.key.value, inp.takeover);
          DeleteByIdKeeps(b1, h, f.key.value, inp.takeover);
        }
        if Has(b2, h) {
          AfterIdA(b2, h, len, hd, f, inp);
        }
    }
  }

  lemma {:induction false} SendRetainedLater(c: Client, list: seq<Entry>, filter: seq<byte>, k: nat)
    ensures var c' := SendRetained(c, list, filter, k); c'.state == c.state && c.queued <= c'.queued
    decreases |list| - k
  {
    if k < |list| {
      var e := list[k];
      var c' := if e.topic.Some? && e.data.Some? && Matches(filter, true, e.topic.value)
                then PublishTo(c, e.topic.value, e.data.value, e.qos, 1) else c;
      SendRetainedLater(c', list, filter, k + 1);
    }
  }

  lemma HandleSubscribeA(b: Broker, h: nat, len: Count, inp: Input)
    requires Inv(b) && AnswersFirst(b) && Has(b, h) && Get(b, h).state == MqttData
    ensures AnswersFirst(HandleSubscribe(b, h, len, inp).b)
  {
    var c := Get(b, h);
    if len < 8 {
      DeleteA(b, h, inp.own);
    } else {
      var w := SubscribeWalk(b.slots, h, c.inBuf, len, 4, [], []);
      var b1 := b.(slots := w.slots);
      SubscribeWalkKeeps(b.clients, b.slots, h, c.inBuf, len, 4, [], []);
      SlotsChange(b, w.slots, h, len);
      if !w.ok {
        DeleteA(b1, h, inp.own);
      } else {
        var c1 := Ack(c, SUBACK, GetId(c.inBuf, BUF), w.codes);
        SendRetainedLater(c1, b.retained, w.last, 0);
        LaterA(c, SendRetained(c1, b.retained, w.last, 0));
        PutA(b1, h, SendRetained(c1, b.retained, w.last, 0));
      }
    }
  }

  lemma HandleUnsubscribeA(b: Broker, h: nat, len: Count, inp: Input)
    requires Inv(b) && AnswersFirst(b) && Has(b, h) && Get(b, h).state == MqttData
    ensures AnswersFirst(HandleUnsubscribe(b, h, len, inp).b)
  {
    var c := Get(b, h);
    if len < 7 {
      DeleteA(b, h, inp.own);
    } else {
      var w := UnsubscribeWalk(b.slots, h, c.inBuf, len, 4);
      var b1 := b.(slots := w.slots);
      UnsubscribeWalkKeeps(b.clients, b.slots, h, c.inBuf, len, 4);
      SlotsChange(b, w.slots, h, len);
      if !w.ok {
        DeleteA(b1, h, inp.own);
      } else {
        LaterA(c, Ack(c, UNSUBACK, GetId(c.inBuf, BUF), []));
        PutA(b1, h, Ack(c, UNSUBACK, GetId(c.inBuf, BUF), []));
      }
    }
  }

  lemma HandleDataA(b: Broker, h: nat, len: Count, inp: Input)
    requires Inv(b) && AnswersFirst(b) && Has(b, h) && Get(b, h).state == MqttData
    ensures AnswersFirst(Handle(b, h, len, inp).b)
  {
    var c := Get(b, h);
    var kind := Kind(c.inBuf);
    if kind == SUBSCRIBE {
      HandleSubscribeA(b, h, len, inp);
    } else if kind == UNSUBSCRIBE {
      HandleUnsubscribeA(b, h, len, inp);
    } else if kind == PUBLISH {
      match PublishTopic(c.inBuf, BUF)
      case None =>
      case Some(t) => FanoutA(b, CStr(t), PayloadOf(c.inBuf), None);
    } else if kind == PINGREQ {
      LaterA(c, Enqueue(c, Build(PINGRESP, 0, 0, 0, [])));
      PutA(b, h, Enqueue(c, Build(PINGRESP, 0, 0, 0, [])));
    } else if kind == DISCONNECT {
      var c1 := c.(will := c.will.(topic := None));
      PutA(b, h, c1);
      PutKeeps(b, h, c1, None);
      DeleteA(Put(b, h, c1), h, inp.own);
    }
  }

  lemma HandleA(b: Broker, h: nat, len: Count, inp: Input)
    requires Inv(b) && AnswersFirst(b) && Has(b, h)
    ensures AnswersFirst(Handle(b, h, len, inp).b)
  {
    match Get(b, h).state
    case TcpConnected =>
      if Kind(Get(b, h).inBuf) == CONNECT {
        HandleConnectA(b, h, len, inp);
      } else {
        DeleteA(b, h, inp.own);
      }
    case TcpDisconnecting =>
    case MqttData => HandleDataA(b, h, len, inp);
  }

  lemma {:induction false} ReadPacketsA(b: Broker, h: nat, inputs: seq<Input>)
    requires Inv(b) && AnswersFirst(b) && Has(b, h)
    ensures AnswersFirst(ReadPackets(b, h, inputs))
    decreases Get(b, h).read
  {
    var c := Get(b, h);
    var len := MessageLength(c);
    if len <= c.read {
      PacketKeeps(b, h, len, NextInput(inputs));
      var seen := c.(dispatched := c.dispatched + [c.inBuf[..len]]);
      PutA(b, h, seen);
      PutKeeps(b, h, seen, None);
      HandleA(Put(b, h, seen), h, len, NextInput(inputs));
      var r := Handle(Put(b, h, seen), h, len, NextInput(inputs));
      if r.Continue? && len != 0 {
        var c1 := Finish(Get(r.b, h), c.read, len);
        FinishKeeps(b, r.b, h, c.read, len);
        PutA(r.b, h, c1);
        if len < c.read {
          ReadPacketsA(Put(r.b, h, c1), h, LaterInputs(inputs));
        }
      }
    }
  }

  lemma ReceiveA(b: Broker, h: nat, chunk: seq<byte>, inputs: seq<Input>)
    requires Inv(b) && AnswersFirst(b) && Has(b, h)
    ensures AnswersFirst(ReceiveChunk(b, h, chunk, inputs))
  {
    var c := Get(b, h);
    if BUF < |chunk| + c.read {
      DeleteA(b, h, NextInput(inputs).own);
    } else {
      PutA(b, h, CopyIn(c, chunk));
      PutKeeps(b, h, CopyIn(c, chunk), None);
      if 2 <= |chunk| {
        ReadPacketsA(Put(b, h, CopyIn(c, chunk)), h, inputs);
      }
    }
  }

  /** A change to the client's own record, and then perhaps its removal. */
  lemma PutOrDeleteA(b: Broker, h: nat, c: Client, mem: Mem)
    requires Inv(b) && AnswersFirst(b) && Has(b, h) && c.h == h && c.state == Get(b, h).state
    requires AnswerFirst(Get(b, h)) ==> AnswerFirst(c)
    ensures Has(Put(b, h, c), h) && AnswersFirst(Put(b, h, c)) && AnswersFirst(Delete(Put(b, h, c), h, mem))
  {
    PutA(b, h, c);
    PutKeeps(b, h, c, None);
    DeleteA(Put(b, h, c), h, mem);
  }

  lemma TickA(b: Broker, h: nat, mem: Mem)
    requires Inv(b) && AnswersFirst(b) && Has(b, h)
    ensures AnswersFirst(Tick(b, h, mem))
  {
    var c := Countdown(Get(b, h));
    if c.connTimeout > 0 {
      PutA(b, h, c.(connTimeout := c.connTimeout - 1));
    } else {
      PutOrDeleteA(b, h, c, mem);
    }
  }

  lemma RunTaskA(b: Broker, h: nat, room: nat, mem: Mem)
    requires Inv(b) && AnswersFirst(b) && Has(b, h)
    ensures AnswersFirst(RunTask(b, h, room, mem))
  {
    if Get(b, h).state != TcpConnected {
      PutOrDeleteA(b, h, Attempt(Get(b, h), room).0, mem);
    }
  }

  lemma StepA(b: Broker, e: Event)
    requires Inv(b) && AnswersFirst(b)
    ensures AnswersFirst(Step(b, e))
  {
    match e
    case Chunk(h, chunk, inputs) => if Has(b, h) { ReceiveA(b, h, chunk, inputs); }
    case Gone(h, mem) => if Has(b, h) { DeleteA(b, h, mem); }
    case Timer(h, mem) => if Has(b, h) { TickA(b, h, mem); }
    case Task(h, room, mem) => if Has(b, h) { RunTaskA(b, h, room, mem); }
    case LocalPublish(topic, data, qos, retain, mem) => FanoutA(b, topic, data, None);
    case _ =>
  }

  lemma {:induction false} RunA(b: Broker, es: seq<Event>)
    requires Inv(b) && AnswersFirst(b)
    ensures AnswersFirst(Run(b, es))
    decreases |es|
  {
    if es != [] {
      StepKeeps(b, es[0]);
      StepA(b, es[0]);
      RunA(Step(b, es[0]), es[1..]);
    }
  }

  /**
   * In every run: as long as a connection's CONNECT is not answered nothing is queued for it,
   * and afterwards the CONNACK is the first message that was, with return code 0 if and only
   * if the connection is accepted (sections 3.1.4 and 3.2 of MQTT 3.1.1).
   */
  lemma ConnackComesFirst(maxSubscriptions: nat, maxRetained: nat, es: seq<Event>, h: nat)
    requires Has(Run(Start(maxSubscriptions, maxRetained), es), h)
    ensures var c := Get(Run(Start(maxSubscriptions, maxRetained), es), h);
            if c.state == TcpConnected then c.queued == []
            else c.queued != [] && exists code :: c.queued[0] == [0x20, 2, 0, code] && (code == 0 <==> c.state == MqttData)
  {
    RunA(Start(maxSubscriptions, maxRetained), es);
    var b := Run(Start(maxSubscriptions, maxRetained), es);
    assert AnswerFirst(b.clients[At(b.clients, h)]);
  }
}
