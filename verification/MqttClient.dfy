/** The client of src/mqtt.c: what it queues, and how it takes PUBLISH packets from a chunk. */
module MqttClient {
  import opened Bytes
  import opened MessageQueue
  import opened DropOldest
  import opened Packet
  import opened Reader
  import opened Reassembly

  // ---------------------------------------------------------------- receiving

  /** A call of the data callback; `topic` is None for a null pointer. */
  datatype Callback = Callback(topic: Option<seq<byte>>, data: seq<byte>)

  /** What receiving changes. `stuck` says that the loop sees the same packet for ever. */
  datatype Rx = Rx(inBuf: seq<byte>, ring: seq<byte>, counter: word, delivered: seq<Callback>, stuck: bool)

  ghost predicate RxOk(rx: Rx, size: nat) {
    |rx.inBuf| == BUF && Aligned(rx.ring) && |rx.ring| <= size
  }

  /** What QoS 1 and QoS 2 are answered with. */
  function AckKind(qos: int): int {
    if qos == 1 then PUBACK else PUBREC
  }

  /** deliver_publish, on the first `len` bytes. */
  function Deliver(b: seq<byte>, len: nat): Callback
    requires 0 < len <= |b|
  {
    var data := PublishData(b, len);
    Callback(PublishTopic(b, len), if data.Some? then data.value else [])
  }

  /** The acknowledgement of the PUBLISH in in_buffer. */
  function Acknowledged(rx: Rx, size: nat): Rx
    requires |rx.inBuf| == BUF && |rx.ring| <= size
  {
    var b := rx.inBuf;
    if Qos(b) == 1 || Qos(b) == 2 then
      var ack := AckMessage(AckKind(Qos(b)), GetId(b, BUF), [], rx.counter);
      rx.(ring := PutContents(rx.ring, size, ack.message), counter := ack.counter)
    else rx
  }

  /** memcpy of the chunk to in_buffer. */
  function Loaded(rx: Rx, pdata: seq<byte>): Rx
    requires |pdata| <= |rx.inBuf|
  {
    rx.(inBuf := pdata + rx.inBuf[|pdata|..])
  }

  /** One PUBLISH at the head of `pdata`: the acknowledgement is queued and the callback called. */
  function OnePublish(rx: Rx, size: nat, pdata: seq<byte>): Rx
    requires |rx.inBuf| == BUF && 0 < |pdata| < BUF && |rx.ring| <= size
  {
    var rx1 := Acknowledged(Loaded(rx, pdata), size);
    rx1.(delivered := rx1.delivered + [Deliver(rx1.inBuf, |pdata|)])
  }

  /**
   * mqtt_tcpclient_recv in state MQTT_DATA, as far as PUBLISH packets go. A packet of another
   * kind ends the loop.
   */
  function Recv(rx: Rx, size: nat, pdata: seq<byte>): Rx
    requires RxOk(rx, size)
    decreases |pdata|
  {
    if !(0 < |pdata| < BUF) then rx
    else if Kind(pdata) != PUBLISH then Loaded(rx, pdata)
    else
      var rx1 := OnePublish(rx, size, pdata);
      var len := Announced(pdata);
      PutKeepsRx(rx, size, pdata);
      if |pdata| <= len then rx1
      else if len == 0 then rx1.(stuck := true)
      else Recv(rx1, size, pdata[len..])
  }

  lemma PutKeepsRx(rx: Rx, size: nat, pdata: seq<byte>)
    requires RxOk(rx, size) && 0 < |pdata| < BUF
    ensures RxOk(OnePublish(rx, size, pdata), size)
  {
    var b := pdata + rx.inBuf[|pdata|..];
    PutAppendsOrTears(rx.ring, size, AckMessage(AckKind(Qos(b)), GetId(b, BUF), [], rx.counter).message);
  }

  datatype Pub = Pub(topic: seq<byte>, data: seq<byte>, qos: int, retain: int, id: word)

  predicate PubOk(p: Pub) {
    p.topic != [] && 0 <= p.qos < 3 && p.id != 0 && |Wire(p)| < BUF
  }

  function Wire(p: Pub): seq<byte> {
    PublishPacket(p.topic, p.data, p.qos, p.retain, p.id)
  }

  function Stream(ps: seq<Pub>): seq<byte> {
    if ps == [] then [] else Wire(ps[0]) + Stream(ps[1..])
  }

  function Callbacks(ps: seq<Pub>): seq<Callback> {
    if ps == [] then [] else [Callback(Some(ps[0].topic), ps[0].data)] + Callbacks(ps[1..])
  }

  /** PUBACK for QoS 1 and PUBREC for QoS 2, with the id (sections 3.4 and 3.5 of MQTT 3.1.1). */
  function AckBytes(qos: int, id: word): seq<byte> {
    [if qos == 1 then 0x40 else 0x50, 2, id / 0x100, id % 0x100]
  }

  lemma AckIs(qos: int, id: word)
    requires qos == 1 || qos == 2
    ensures Build(AckKind(qos), 0, 0, 0, Word16(id)) == AckBytes(qos, id)
  {
  }

  /** The ring after the acknowledgements of `ps`, in order. */
  function Acked(ring: seq<byte>, size: nat, ps: seq<Pub>): seq<byte>
    requires |ring| <= size && Aligned(ring)
    decreases |ps|
  {
    if ps == [] then ring
    else if ps[0].qos == 0 then Acked(ring, size, ps[1..])
    else
      var ack := AckBytes(ps[0].qos, ps[0].id);
      PutAppendsOrTears(ring, size, ack);
      Acked(PutContents(ring, size, ack), size, ps[1..])
  }

  predicate AllOk(ps: seq<Pub>) {
    ps == [] || (PubOk(ps[0]) && AllOk(ps[1..]))
  }

  /** The PUBLISH at the head of a chunk is read as it was built, whatever follows it. */
  lemma HeadReadsBack(p: Pub, more: seq<byte>, stale: seq<byte>)
    requires PubOk(p) && |Wire(p) + more| < BUF && |Wire(p) + more + stale| == BUF
    ensures var pdata := Wire(p) + more;
            var b := pdata + stale;
            && Kind(pdata) == PUBLISH && Qos(b) == p.qos && Announced(pdata) == |Wire(p)|
            && Deliver(b, |pdata|) == Callback(Some(p.topic), p.data)
            && GetId(b, BUF) == (if p.qos == 0 then 0 else p.id)
  {
    var pdata := Wire(p) + more;
    var b := pdata + stale;
    assert b == Wire(p) + (more + stale);
    PublishReadsBack(p.topic, p.data, p.qos, p.retain, p.id, pdata, |pdata|);
    PublishReadsBack(p.topic, p.data, p.qos, p.retain, p.id, b, |pdata|);
    PublishReadsBack(p.topic, p.data, p.qos, p.retain, p.id, b, BUF);
  }

  lemma HeadHandled(rx: Rx, size: nat, p: Pub, more: seq<byte>)
    requires RxOk(rx, size) && PubOk(p) && |Wire(p) + more| < BUF
    ensures var rx1 := OnePublish(rx, size, Wire(p) + more);
            && RxOk(rx1, size) && rx1.stuck == rx.stuck
            && rx1.delivered == rx.delivered + [Callback(Some(p.topic), p.data)]
            && rx1.ring == (if p.qos == 0 then rx.ring
                            else PutContents(rx.ring, size, AckBytes(p.qos, p.id)))
            && Recv(rx, size, Wire(p) + more) == (if more == [] then rx1 else Recv(rx1, size, more))
  {
    var pdata := Wire(p) + more;
    HeadReadsBack(p, more, rx.inBuf[|pdata|..]);
    PutKeepsRx(rx, size, pdata);
    assert Word16(p.id) + [] == Word16(p.id);
    if p.qos != 0 {
      AckIs(p.qos, p.id);
    }
    assert pdata[|Wire(p)|..] == more;
  }

  /**
   * A chunk of complete PUBLISH packets, shorter than the buffer: the callback is called once
   * per packet, in order, with its topic and payload; QoS 1 and 2 are acknowledged in the
   * same order with their ids; and the loop ends.
   */
  lemma {:induction false} BatchIsDelivered(rx: Rx, size: nat, ps: seq<Pub>)
    requires RxOk(rx, size) && AllOk(ps) && |Stream(ps)| < BUF
    ensures var rx' := Recv(rx, size, Stream(ps));
            && rx'.delivered == rx.delivered + Callbacks(ps)
            && rx'.ring == Acked(rx.ring, size, ps)
            && rx'.stuck == rx.stuck
    decreases |ps|
  {
    if ps == [] {
      assert rx.delivered + [] == rx.delivered;
    } else {
      var p, more := ps[0], Stream(ps[1..]);
      HeadHandled(rx, size, p, more);
      var rx1 := OnePublish(rx, size, Wire(p) + more);
      BatchIsDelivered(rx1, size, ps[1..]);
      if more == [] {
        assert ps[1..] == [];
      }
      Associate(rx.delivered, [Callback(Some(p.topic), p.data)], Callbacks(ps[1..]));
    }
  }

  // ---------------------------------------------------------------- the class

  class Client {
    const conn: Connection
    const queue: Queue
    const inBuffer: array<byte>
    var delivered: seq<Callback>
    var stuck: bool

    ghost predicate Valid()
      reads this, conn, queue, queue.rb, queue.rb.mem
    {
      && conn.Valid() && queue.Valid()
      && BUF <= conn.buffer.Length && inBuffer.Length == BUF
      && conn.buffer != queue.rb.mem && inBuffer != queue.rb.mem && inBuffer != conn.buffer
    }

    ghost function View(): Rx
      requires Valid()
      reads this, conn, queue, queue.rb, queue.rb.mem, inBuffer
    {
      Rx(inBuffer[..], queue.rb.Contents(), conn.messageId, delivered, stuck)
    }

    constructor (queueSize: nat)
      requires 2 <= queueSize
      ensures Valid() && fresh(conn) && fresh(conn.buffer) && fresh(queue.rb) && fresh(queue.rb.mem) && fresh(inBuffer)
      ensures queue.rb.mem.Length == queueSize && queue.rb.Contents() == [] && delivered == [] && !stuck
    {
      var buffer := new byte[BUF];
      conn := new Connection(buffer);
      queue := new Queue(queueSize);
      inBuffer := new byte[BUF];
      delivered := [];
      stuck := false;
    }

    /** The outbound message goes to the queue, at the cost of the oldest ones if need be. */
    method QueueOutbound() returns (ok: bool)
      requires Valid()
      modifies queue.rb, queue.rb.mem
      ensures Valid()
      ensures (queue.rb.Contents(), ok) == Retry(old(queue.rb.Contents()), queue.rb.mem.Length, conn.Message())
    {
      var m := conn.buffer[conn.start..conn.start + conn.length];
      var dataBuffer := new byte[BUF];
      ok := PutDroppingOldest(queue, m, dataBuffer);
    }

    /** MQTT_Publish. */
    method Publish(topic: seq<byte>, data: seq<byte>, qos: int, retain: int) returns (ok: bool)
      requires Valid()
      modifies conn, conn.buffer, queue.rb, queue.rb.mem
      ensures Valid()
      ensures var built := PublishMessage(conn.buffer.Length, topic, data, qos, retain, old(conn.messageId));
              && conn.messageId == built.counter
              && (queue.rb.Contents(), ok) ==
                 (if built.message == [] then (old(queue.rb.Contents()), false)
                  else Retry(old(queue.rb.Contents()), queue.rb.mem.Length, built.message))
    {
      conn.MsgPublish(topic, data, qos, retain);
      if conn.length == 0 {
        return false;
      }
      ok := QueueOutbound();
    }

    /** MQTT_Subscribe: a topic that does not fit is queued as an empty message. */
    method Subscribe(topic: seq<byte>, qos: byte) returns (ok: bool)
      requires Valid()
      modifies conn, conn.buffer, queue.rb, queue.rb.mem
      ensures Valid()
      ensures var built := SubscribeMessage(conn.buffer.Length, topic, qos, old(conn.messageId));
              && conn.messageId == built.counter
              && (queue.rb.Contents(), ok) == Retry(old(queue.rb.Contents()), queue.rb.mem.Length, built.message)
    {
      conn.MsgSubscribe(topic, qos);
      ok := QueueOutbound();
    }

    /** MQTT_UnSubscribe. */
    method Unsubscribe(topic: seq<byte>) returns (ok: bool)
      requires Valid()
      modifies conn, conn.buffer, queue.rb, queue.rb.mem
      ensures Valid()
      ensures var built := UnsubscribeMessage(conn.buffer.Length, topic, old(conn.messageId));
              && conn.messageId == built.counter
              && (queue.rb.Contents(), ok) == Retry(old(queue.rb.Contents()), queue.rb.mem.Length, built.message)
    {
      conn.MsgUnsubscribe(topic);
      ok := QueueOutbound();
    }

    /** MQTT_Ping. */
    method Ping() returns (ok: bool)
      requires Valid()
      modifies conn, conn.buffer, queue.rb, queue.rb.mem
      ensures Valid() && conn.messageId == old(conn.messageId)
      ensures (queue.rb.Contents(), ok) ==
              Retry(old(queue.rb.Contents()), queue.rb.mem.Length, Build(PINGREQ, 0, 0, 0, []))
    {
      conn.MsgEmpty(PINGREQ);
      ok := QueueOutbound();
    }

    /** The acknowledgement of the PUBLISH in in_buffer. */
    method Acknowledge()
      requires Valid()
      modifies conn, conn.buffer, queue.rb, queue.rb.mem
      ensures Valid() && View() == Acknowledged(old(View()), queue.rb.mem.Length)
    {
      var qos := Qos(inBuffer[..]);
      var id := GetMessageId(inBuffer[..], BUF);
      if qos == 1 || qos == 2 {
        conn.MsgAck(AckKind(qos), id, []);
        var _ := queue.Puts(conn.buffer[conn.start..conn.start + conn.length]);
      }
    }

    /** deliver_publish on the first `len` bytes of in_buffer. */
    method DeliverPublish(len: nat)
      requires Valid() && 0 < len < BUF
      modifies this`delivered
      ensures Valid() && View() == old(View()).(delivered := old(delivered) + [Deliver(inBuffer[..], len)])
    {
      var topic := GetPublishTopic(inBuffer[..], len);
      var data := GetPublishData(inBuffer[..], len);
      delivered := delivered + [Callback(topic, if data.Some? then data.value else [])];
    }

    /** The memcpy at READPACKET. */
    method CopyIn(pdata: seq<byte>)
      requires Valid() && 0 < |pdata| < BUF
      modifies inBuffer
      ensures Valid() && View() == Loaded(old(View()), pdata)
    {
      forall k | 0 <= k < |pdata| {
        inBuffer[k] := pdata[k];
      }
      assert inBuffer[..] == pdata + old(inBuffer[..])[|pdata|..];
    }

    /** One round of the loop of mqtt_tcpclient_recv on a PUBLISH. */
    method OneRound(pdata: seq<byte>)
      requires Valid() && 0 < |pdata| < BUF
      modifies this, conn, conn.buffer, queue.rb, queue.rb.mem, inBuffer
      ensures Valid() && stuck == old(stuck)
      ensures View() == if Kind(pdata) == PUBLISH then OnePublish(old(View()), queue.rb.mem.Length, pdata)
                        else Loaded(old(View()), pdata)
    {
      CopyIn(pdata);
      if Kind(pdata) == PUBLISH {
        Acknowledge();
        DeliverPublish(|pdata|);
      }
    }

    /** mqtt_tcpclient_recv in state MQTT_DATA. */
    method Receive(chunk: seq<byte>)
      requires Valid()
      modifies this, conn, conn.buffer, queue.rb, queue.rb.mem, inBuffer
      ensures Valid()
      ensures View() == Recv(old(View()), queue.rb.mem.Length, chunk)
    {
      var pdata := chunk;
      ghost var size := queue.rb.mem.Length;
      ghost var goal := Recv(View(), size, chunk);
      while 0 < |pdata| < BUF
        invariant Valid() && Recv(View(), size, pdata) == goal
        decreases |pdata|
      {
        OneRound(pdata);
        if Kind(pdata) != PUBLISH {
          return;
        }
        var totlen, _ := ScanHeader(pdata, |pdata|);
        var len := U16(totlen);
        if len >= |pdata| {
          return;
        }
        if len == 0 {
          stuck := true;
          return;
        }
        pdata := pdata[len..];
      }
    }
  }
}
