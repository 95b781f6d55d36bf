/** What a PUBLISH, and a will, does to each client's queue. */
module Publishing {
  import opened Bytes
  import opened MessageQueue
  import opened Packet
  import opened Reader
  import opened Reassembly
  import opened Topics
  import opened TopicList
  import opened Retained
  import opened Broker
  import opened BrokerInvariant

  /** How many slots from `k` on belong to `owner` and match the topic. */
  function Hits(slots: seq<Slot>, owner: Owner, topic: seq<byte>, k: nat): nat
    decreases |slots| - k
  {
    if |slots| <= k then 0
    else (if Hit(slots[k], topic) && slots[k].owner == owner then 1 else 0) + Hits(slots, owner, topic, k + 1)
  }

  /** `n` attempts to queue the same message. */
  function EnqueueTimes(c: Client, m: seq<byte>, n: nat): (r: Client)
    ensures r.h == c.h
    decreases n
  {
    if n == 0 then c else EnqueueTimes(Enqueue(c, m), m, n - 1)
  }

  function Repeat(d: Delivery, n: nat): seq<Delivery> {
    if n == 0 then [] else [d] + Repeat(d, n - 1)
  }

  /** What subscribers get: PUBLISH with QoS 0 and no retain flag; nothing when it does not fit. */
  function Copy(topic: seq<byte>, data: seq<byte>): seq<byte> {
    PublishMessage(BUF, topic, data, 0, 0, 0).message
  }

  /** With QoS 0 the client's id counter neither matters nor moves. */
  lemma CopyForAll(c: Client, topic: seq<byte>, data: seq<byte>)
    ensures PublishTo(c, topic, data, 0, 0) == Enqueue(c, Copy(topic, data))
  {
  }

  /** `cs'` is `cs` after every client was sent the copies its slots from `k` on are due. */
  ghost predicate Served(cs: seq<Client>, cs': seq<Client>, slots: seq<Slot>, topic: seq<byte>, m: seq<byte>, k: nat) {
    && |cs'| == |cs|
    && forall i :: 0 <= i < |cs| ==> cs'[i] == EnqueueTimes(cs[i], m, Hits(slots, Con(cs[i].h), topic, k))
  }

  ghost predicate QosZero(slots: seq<Slot>) {
    forall k :: 0 <= k < |slots| && slots[k].Sub? ==> slots[k].qos == 0
  }

  /** A matching slot from `k` on whose owner is not in the list. */
  predicate Stray(cs: seq<Client>, slots: seq<Slot>, topic: seq<byte>, k: nat)
    decreases |slots| - k
  {
    k < |slots| &&
    ((Hit(slots[k], topic) && slots[k].owner.Con? && At(cs, slots[k].owner.h) == |cs|) || Stray(cs, slots, topic, k + 1))
  }

  lemma {:induction false} StrayIsAboutHandles(cs: seq<Client>, cs': seq<Client>, slots: seq<Slot>, topic: seq<byte>, k: nat)
    requires AllFed(cs, cs')
    ensures Stray(cs', slots, topic, k) == Stray(cs, slots, topic, k)
    decreases |slots| - k
  {
    if k < |slots| {
      if slots[k].Sub? && slots[k].owner.Con? {
        SameHandles(cs, cs', slots[k].owner.h);
      }
      StrayIsAboutHandles(cs, cs', slots, topic, k + 1);
    }
  }

  /** A publication faults exactly when it is written for an owner that is not in the list. */
  lemma {:induction false} FanoutFaults(b: Broker, topic: seq<byte>, data: seq<byte>, k: nat)
    ensures Fanout(b, topic, data, k).fault <==> b.fault || (Writes(topic) && Stray(b.clients, b.slots, topic, k))
    decreases |b.slots| - k
  {
    if k < |b.slots| {
      var b1 := if Hit(b.slots[k], topic) then PublishSlot(b, b.slots[k], topic, data) else b;
      PublishSlotFeeds(b, b.slots[k], topic, data);
      FanoutFaults(b1, topic, data, k + 1);
      StrayIsAboutHandles(b.clients, b1.clients, b.slots, topic, k + 1);
    }
  }

  /** Each client's queue gets as many copies as it has matching slots. */
  lemma {:induction false} FanoutCopies(b: Broker, topic: seq<byte>, data: seq<byte>, k: nat)
    requires Distinct(b.clients, b.next) && QosZero(b.slots)
    ensures Served(b.clients, Fanout(b, topic, data, k).clients, b.slots, topic, Copy(topic, data), k)
    decreases |b.slots| - k
  {
    if k < |b.slots| {
      if !Hit(b.slots[k], topic) {
        FanoutCopies(b, topic, data, k + 1);
      } else {
        var b1 := PublishSlot(b, b.slots[k], topic, data);
        match b.slots[k].owner
        case Local => FanoutCopies(b1, topic, data, k + 1);
        case Con(h) =>
          CopyForSlot(b, h, topic, data);
          FanoutCopies(b1, topic, data, k + 1);
          ServedStep(b, b1, Fanout(b1, topic, data, k + 1).clients, h, topic, data, k);
      }
    }
  }

  /** So does the local callback. */
  lemma {:induction false} FanoutDeliveries(b: Broker, topic: seq<byte>, data: seq<byte>, k: nat)
    ensures Fanout(b, topic, data, k).local ==
            b.local + Repeat(Delivery(topic, data), Hits(b.slots, Local, topic, k))
    decreases |b.slots| - k
  {
    if |b.slots| <= k {
      assert b.local + [] == b.local;
    } else {
      var b1 := if Hit(b.slots[k], topic) then PublishSlot(b, b.slots[k], topic, data) else b;
      FanoutDeliveries(b1, topic, data, k + 1);
      if Hit(b.slots[k], topic) && b.slots[k].owner == Local {
        LocalStep(b, topic, data, k);
      }
    }
  }

  /**
   * One publication attempts exactly one put per matching slot: each client's queue, and the
   * local callback, gets as many copies as it has matching slots, and nothing else changes.
   * When some owner is not in the list there is a fault.
   */
  lemma FanoutServes(b: Broker, topic: seq<byte>, data: seq<byte>)
    requires Distinct(b.clients, b.next) && QosZero(b.slots)
    ensures var b' := Fanout(b, topic, data, 0);
            && Served(b.clients, b'.clients, b.slots, topic, Copy(topic, data), 0)
            && b' == b.(clients := b'.clients,
                        local := b.local + Repeat(Delivery(topic, data), Hits(b.slots, Local, topic, 0)),
                        fault := b.fault || (Writes(topic) && Stray(b.clients, b.slots, topic, 0)))
  {
    FanoutFeeds(b, topic, data, 0);
    FanoutCopies(b, topic, data, 0);
    FanoutDeliveries(b, topic, data, 0);
    FanoutFaults(b, topic, data, 0);
  }

  /** With all owners in the list but `h`, if that is dying, only a slot of `h` can stray. */
  lemma {:induction false} OnlyTheDyingStray(cs: seq<Client>, slots: seq<Slot>, dying: Option<nat>, topic: seq<byte>, k: nat)
    requires SlotsOk(cs, slots, dying) && (dying.Some? ==> At(cs, dying.value) == |cs|)
    ensures Stray(cs, slots, topic, k) <==> dying.Some? && 0 < Hits(slots, Con(dying.value), topic, k)
    decreases |slots| - k
  {
    if k < |slots| {
      OnlyTheDyingStray(cs, slots, dying, topic, k + 1);
    }
  }

  /** While nobody is dying a publication does not fault. */
  lemma OwnedSlotsAreSafe(b: Broker, topic: seq<byte>, data: seq<byte>)
    requires Inv(b)
    ensures Fanout(b, topic, data, 0).fault == b.fault
  {
    FanoutFaults(b, topic, data, 0);
    OnlyTheDyingStray(b.clients, b.slots, None, topic, 0);
  }

  lemma LocalStep(b: Broker, topic: seq<byte>, data: seq<byte>, k: nat)
    requires k < |b.slots| && Hit(b.slots[k], topic) && b.slots[k].owner == Local
    ensures var d := Delivery(topic, data);
            b.local + [d] + Repeat(d, Hits(b.slots, Local, topic, k + 1)) == b.local + Repeat(d, Hits(b.slots, Local, topic, k))
    ensures forall h: nat :: Hits(b.slots, Con(h), topic, k) == Hits(b.slots, Con(h), topic, k + 1)
  {
    var d, n := Delivery(topic, data), Hits(b.slots, Local, topic, k + 1);
    assert b.local + [d] + Repeat(d, n) == b.local + ([d] + Repeat(d, n));
  }

  lemma CopyForSlot(b: Broker, h: nat, topic: seq<byte>, data: seq<byte>)
    requires Distinct(b.clients, b.next)
    ensures Has(b, h) ==> PublishTo(Get(b, h), topic, data, 0, 0) == Enqueue(Get(b, h), Copy(topic, data))
    ensures Has(b, h) ==> Distinct(Put(b, h, Enqueue(Get(b, h), Copy(topic, data))).clients, b.next)
  {
    if Has(b, h) {
      CopyForAll(Get(b, h), topic, data);
    }
  }

  lemma ServedStep(b: Broker, b1: Broker, cs': seq<Client>, h: nat, topic: seq<byte>, data: seq<byte>, k: nat)
    requires Distinct(b.clients, b.next) && k < |b.slots| && Hit(b.slots[k], topic) && b.slots[k].owner == Con(h)
    requires b1.clients == if Has(b, h) then Put(b, h, Enqueue(Get(b, h), Copy(topic, data))).clients else b.clients
    requires Served(b1.clients, cs', b.slots, topic, Copy(topic, data), k + 1)
    ensures Served(b.clients, cs', b.slots, topic, Copy(topic, data), k)
  {
    var cs, m := b.clients, Copy(topic, data);
    forall i | 0 <= i < |cs|
      ensures cs'[i] == EnqueueTimes(cs[i], m, Hits(b.slots, Con(cs[i].h), topic, k))
    {
      if cs[i].h == h {
        AtIs(cs, h, i);
      }
    }
  }

  function Copies(m: seq<byte>, j: nat): seq<seq<byte>> {
    if j == 0 then [] else [m] + Copies(m, j - 1)
  }

  /** `c'` is `c` with the messages `got` queued behind what there was, and nothing else new. */
  ghost predicate Grown(c: Client, c': Client, got: seq<seq<byte>>) {
    && c' == c.(ring := c'.ring, queued := c'.queued) && Aligned(c'.ring)
    && c'.queued == c.queued + got && Messages(c'.ring) == Messages(c.ring) + got
  }

  lemma NothingGrown(c: Client)
    requires Aligned(c.ring)
    ensures Grown(c, c, [])
  {
    assert c.queued + [] == c.queued && Messages(c.ring) + [] == Messages(c.ring);
  }

  lemma OneGrown(c: Client, m: seq<byte>)
    requires Aligned(c.ring)
    ensures Grown(c, Enqueue(c, m), if Fits(c.ring, QSIZE, m) then [m] else [])
  {
    PutAppendsOrTears(c.ring, QSIZE, m);
    NothingGrown(c);
  }

  lemma GrownTwice(c: Client, c1: Client, c2: Client, got: seq<seq<byte>>, more: seq<seq<byte>>)
    requires Grown(c, c1, got) && Grown(c1, c2, more)
    ensures Grown(c, c2, got + more)
  {
    Associate(c.queued, got, more);
    Associate(Messages(c.ring), got, more);
  }

  /** How many of `n` attempts find room. */
  function Successes(c: Client, m: seq<byte>, n: nat): (j: nat)
    ensures j <= n
    decreases n
  {
    if n == 0 then 0 else (if Fits(c.ring, QSIZE, m) then 1 else 0) + Successes(Enqueue(c, m), m, n - 1)
  }

  /** Each attempt appends the message, or finds the queue full and leaves what it held. */
  lemma {:induction false} QueuedTimes(c: Client, m: seq<byte>, n: nat)
    requires Aligned(c.ring)
    ensures Grown(c, EnqueueTimes(c, m, n), Copies(m, Successes(c, m, n)))
    decreases n
  {
    if n == 0 {
      NothingGrown(c);
    } else {
      var c1 := Enqueue(c, m);
      var more := Copies(m, Successes(c1, m, n - 1));
      OneGrown(c, m);
      QueuedTimes(c1, m, n - 1);
      GrownTwice(c, c1, EnqueueTimes(c1, m, n - 1), if Fits(c.ring, QSIZE, m) then [m] else [], more);
      assert [] + more == more;
    }
  }

  // ---------------------------------------------------------------- an incoming PUBLISH

  /** A PUBLISH that fits in_buffer, whatever its QoS, fits the output buffer as a copy. */
  lemma CopyFits(topic: seq<byte>, data: seq<byte>, qos: int, retain: int, id: nat)
    requires topic != [] && |PublishPacket(topic, data, qos, retain, id)| <= BUF
    ensures Copy(topic, data) == PublishPacket(topic, data, 0, 0, 0)
  {
    assert |PublishPacket(topic, data, qos, retain, id)| ==
           1 + |LengthField(|PublishBody(topic, data, qos, id)|)| + |PublishBody(topic, data, qos, id)|;
    assert |PublishBody(topic, data, qos, id)| >= |PublishBody(topic, data, 0, 0)|;
  }

  /**
   * A PUBLISH at the head of in_buffer, of any QoS and whatever follows it, is passed on as
   * PUBLISH(topic, data) with QoS 0 and no retain flag, and stored if its own flag says so.
   */
  lemma PublishIsPassedOn(b: Broker, buf: InBuffer, topic: seq<byte>, data: seq<byte>, qos: int, retain: int, id: nat, mem: Mem)
    requires topic != [] && 0 !in topic && !Head(topic, DOLLAR) && 0 <= qos < 4 && id < 0x1_0000
    requires PublishPacket(topic, data, qos, retain, id) <= buf
    ensures |data| < BUF
    ensures var b1 := Fanout(b, topic, data, 0);
            HandlePublish(b, buf, mem) == if retain % 2 == 1 then UpdateRetained(b1, topic, data, qos, mem) else b1
    ensures Copy(topic, data) == PublishPacket(topic, data, 0, 0, 0)
  {
    assert |PublishPacket(topic, data, qos, retain, id)| <= BUF;
    CopyFits(topic, data, qos, retain, id);
    PublishReadsBack(topic, data, qos, retain, id, buf, BUF);
  }

  /** All of it together: what one incoming PUBLISH does to every client. */
  lemma PublishServesSubscribers(b: Broker, buf: InBuffer, topic: seq<byte>, data: seq<byte>, qos: int, retain: int,
                                 id: nat, mem: Mem)
    requires Inv(b)
    requires topic != [] && 0 !in topic && !Head(topic, DOLLAR) && 0 <= qos < 4 && id < 0x1_0000
    requires PublishPacket(topic, data, qos, retain, id) <= buf
    ensures var b' := HandlePublish(b, buf, mem);
            && Served(b.clients, b'.clients, b.slots, topic, PublishPacket(topic, data, 0, 0, 0), 0)
            && b'.local == b.local + Repeat(Delivery(topic, data), Hits(b.slots, Local, topic, 0))
            && b'.slots == b.slots && b'.wills == b.wills && b'.fault == b.fault
            && (retain % 2 == 0 ==> b'.retained == b.retained)
  {
    PublishIsPassedOn(b, buf, topic, data, qos, retain, id, mem);
    FanoutServes(b, topic, data);
    OwnedSlotsAreSafe(b, topic, data);
  }

  /** Handling a PUBLISH faults exactly when its topic cannot be read. */
  lemma UnreadableTopicFaults(b: Broker, buf: InBuffer, mem: Mem)
    requires Inv(b)
    ensures HandlePublish(b, buf, mem).fault <==> b.fault || PublishTopic(buf, BUF) == None
  {
    match PublishTopic(buf, BUF)
    case None =>
    case Some(t) => OwnedSlotsAreSafe(b, CStr(t), PayloadOf(buf));
  }

  /** A local publication serves every matching slot in the same way, and is stored if it is to be retained. */
  lemma LocalPublishServes(b: Broker, topic: seq<byte>, data: payload, qos: byte, retain: bool, mem: Mem)
    requires Inv(b) && !Halted(b)
    ensures var b' := Step(b, LocalPublish(topic, data, qos, retain, mem));
            && Served(b.clients, b'.clients, b.slots, topic, Copy(topic, data), 0)
            && b' == b.(clients := b'.clients,
                        local := b.local + Repeat(Delivery(topic, data), Hits(b.slots, Local, topic, 0)),
                        retained := if retain then Update(b.retained, topic, data, qos, mem).0 else b.retained)
  {
    FanoutServes(b, topic, data);
    OwnedSlotsAreSafe(b, topic, data);
  }

  // ---------------------------------------------------------------- wills

  /** The will of this connection matches a slot of its own. */
  predicate HitsItself(b: Broker, h: nat)
    requires Has(b, h)
  {
    var t := Get(b, h).will.topic;
    t.Some? && Writes(t.value) && 0 < Hits(b.slots, Con(h), t.value, 0)
  }

  /** Removing a connection faults exactly when its will matches a slot of its own. */
  lemma DeleteFaults(b: Broker, h: nat, mem: Mem)
    requires Inv(b) && Has(b, h)
    ensures Delete(b, h, mem).fault <==> b.fault || HitsItself(b, h)
  {
    RemoveKeeps(b, h);
    var will, b1 := Get(b, h).will, Remove(b, h);
    if will.topic.Some? {
      FanoutFaults(b1, will.topic.value, will.data, 0);
      OnlyTheDyingStray(b1.clients, b1.slots, Some(h), will.topic.value, 0);
    }
  }

  /** The copies that are left for the others when the dying connection is off the list. */
  ghost predicate OthersServed(b: Broker, b': Broker, h: nat, topic: seq<byte>, m: seq<byte>) {
    forall g: nat :: g != h ==>
      && (Has(b', g) <==> Has(b, g))
      && (Has(b, g) ==> Get(b', g) == EnqueueTimes(Get(b, g), m, Hits(b.slots, Con(g), topic, 0)))
  }

  lemma ServedEach(b: Broker, cs': seq<Client>, topic: seq<byte>, m: seq<byte>)
    requires Served(b.clients, cs', b.slots, topic, m, 0)
    ensures forall g: nat :: At(cs', g) == At(b.clients, g)
  {
    forall g: nat
      ensures At(cs', g) == At(b.clients, g)
    {
      SameHandles(b.clients, cs', g);
    }
  }

  /** What removing connection `h` comes to. */
  ghost predicate Removed(b: Broker, h: nat, mem: Mem, b': Broker)
    requires Has(b, h)
  {
    var c := Get(b, h);
    && !Has(b', h)
    && b'.slots == Unsubscribe(b.slots, Some(Con(h)), None)
    && (match c.will.topic
        case None =>
          && b'.clients == Remove(b, h).clients && b'.local == b.local
          && b'.retained == b.retained && b'.wills == b.wills
        case Some(t) =>
          && OthersServed(b, b', h, t, Copy(t, c.will.data))
          && b'.local == b.local + Repeat(Delivery(t, c.will.data), Hits(b.slots, Local, t, 0))
          && b'.retained == (if c.will.retain then Update(b.retained, t, c.will.data, c.will.qos, mem).0 else b.retained)
          && b'.wills == b.wills + [h])
  }

  lemma DeleteServes(b: Broker, h: nat, mem: Mem)
    requires Inv(b) && Has(b, h) && !HitsItself(b, h)
    ensures Removed(b, h, mem, Delete(b, h, mem))
  {
    var b' := Delete(b, h, mem);
    DeleteKeeps(b, h, mem);
    RemoveKeeps(b, h);
    RemoveShape(b, h);
    var will, b1 := Get(b, h).will, Remove(b, h);
    if will.topic.Some? {
      var t := will.topic.value;
      FanoutServes(b1, t, will.data);
      var b2 := Fanout(b1, t, will.data, 0);
      ServedEach(b1, b2.clients, t, Copy(t, will.data));
      forall g: nat | g != h
        ensures Has(b2, g) <==> Has(b, g)
        ensures Has(b, g) ==> Get(b2, g) == EnqueueTimes(Get(b, g), Copy(t, will.data), Hits(b.slots, Con(g), t, 0))
      {
        assert Has(b1, g) <==> Has(b, g);
      }
    }
  }

  /**
   * Removing a connection whose will does not hit itself removes exactly its slots. With a will
   * it publishes that once, to every other client's matching slots, and stores it if it is to be
   * retained; without one it leaves the others alone. A will that hits itself is a fault.
   */
  lemma DeletePublishesWill(b: Broker, h: nat, mem: Mem)
    requires Inv(b) && Has(b, h)
    ensures var b' := Delete(b, h, mem);
            && (b'.fault <==> b.fault || HitsItself(b, h))
            && (!HitsItself(b, h) ==> Removed(b, h, mem, b'))
  {
    DeleteKeeps(b, h, mem);
    DeleteFaults(b, h, mem);
    if !HitsItself(b, h) {
      DeleteServes(b, h, mem);
    }
  }
}
