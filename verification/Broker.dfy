/**
 * The broker of src/mqtt_server.cpp as a step system on values. Server, the class that
 * changes its state in place, is proved to do these steps.
 *
 * A connection is named by a handle, which stands for the address of its record. Fields that
 * the code does not have record what happened: what was queued for a client, taken from its
 * queue, written to it and dispatched from it, what the local callback got, and whose will
 * was published.
 */
module Broker {
  import opened Bytes
  import opened MessageQueue
  import opened Packet
  import opened Reader
  import opened Reassembly
  import opened Topics
  import opened TopicList
  import opened Retained

  /** QUEUE_BUFFER_SIZE. */
  const QSIZE := 1024
  /** MAX_SUBS_PER_REQ. */
  const MAX_SUBS := 16
  /** MQTT_SEND_TIMOUT. */
  const SEND_TIMEOUT := 5

  const ACCEPTED: byte := 0
  const REFUSE_PROTOCOL: byte := 1
  const REFUSE_ID: byte := 2
  const REFUSE_AUTH: byte := 5

  type InBuffer = s: seq<byte> | |s| == BUF witness seq(BUF, _ => 0)
  type RingBytes = s: seq<byte> | |s| <= QSIZE
  type Count = x: int | 0 <= x <= BUF

  datatype ConnState = TcpConnected | MqttData | TcpDisconnecting

  /** will_topic (None when null), will_data, will_retain and will_qos. */
  datatype Will = Will(topic: Option<seq<byte>>, data: payload, retain: bool, qos: byte)

  const NO_WILL := Will(None, [], false, 0)

  datatype Client = Client(
    h: nat,
    state: ConnState,
    cleanSession: bool,
    keepalive: nat,
    id: seq<byte>,
    will: Will,
    inBuf: InBuffer,
    read: Count,           // message_length_read
    ring: RingBytes,       // msgQueue
    counter: word,         // mqtt_connection.message_id
    sendTimeout: nat,
    connTimeout: nat,
    queued: seq<seq<byte>>,
    taken: seq<seq<byte>>,
    sent: seq<seq<byte>>,
    dispatched: seq<seq<byte>>)

  datatype Delivery = Delivery(topic: seq<byte>, data: seq<byte>)

  datatype Broker = Broker(
    clients: seq<Client>,  // clientcon_list, newest first
    slots: seq<Slot>,
    retained: seq<Entry>,
    next: nat,             // handles from here on are unused
    local: seq<Delivery>,
    wills: seq<nat>,
    stuck: bool,           // READPACKET never comes back
    fault: bool)           // a null pointer was read or written through, or a freed record used

  /** The step's inputs for one packet: the auth callback's answer, and what os_malloc does. */
  datatype Input = Input(auth: bool, takeover: Mem, own: Mem)

  const DEFAULT_INPUT := Input(true, Mem(true, true), Mem(true, true))

  // ---------------------------------------------------------------- the client list

  function At(cs: seq<Client>, h: nat): (i: nat)
    ensures i <= |cs|
    ensures i < |cs| ==> cs[i].h == h
    ensures forall j :: 0 <= j < i ==> cs[j].h != h
  {
    if cs == [] || cs[0].h == h then 0 else 1 + At(cs[1..], h)
  }

  predicate Has(b: Broker, h: nat) {
    At(b.clients, h) < |b.clients|
  }

  function Get(b: Broker, h: nat): (c: Client)
    requires Has(b, h)
    ensures c.h == h
  {
    b.clients[At(b.clients, h)]
  }

  function Put(b: Broker, h: nat, c: Client): Broker
    requires Has(b, h)
  {
    b.(clients := b.clients[At(b.clients, h) := c])
  }

  function Remove(b: Broker, h: nat): Broker
    requires Has(b, h)
  {
    var i := At(b.clients, h);
    b.(clients := b.clients[..i] + b.clients[i + 1..])
  }

  // ---------------------------------------------------------------- queueing and publishing

  /** QUEUE_Puts on the client's queue. */
  function Enqueue(c: Client, m: seq<byte>): Client {
    c.(ring := PutContents(c.ring, QSIZE, m), queued := if Fits(c.ring, QSIZE, m) then c.queued + [m] else c.queued)
  }

  /** mqtt_msg_publish into the shared buffer, and QUEUE_Puts. */
  function PublishTo(c: Client, topic: seq<byte>, data: seq<byte>, qos: int, retain: int): Client {
    var built := PublishMessage(BUF, topic, data, qos, retain, c.counter);
    Enqueue(c.(counter := built.counter), built.message)
  }

  predicate Hit(slot: Slot, topic: seq<byte>) {
    slot.Sub? && Matches(slot.filter, true, topic)
  }

  /** Whether mqtt_msg_publish gets as far as writing: not for an empty topic, or one that does not fit. */
  predicate Writes(topic: seq<byte>) {
    topic != [] && HEADER + |Str(topic)| <= BUF
  }

  /**
   * publish_topic for one slot. The record of a dying client is not in the list any more, and
   * its buffer is null: what is written then is written through a null pointer.
   */
  function PublishSlot(b: Broker, slot: Slot, topic: seq<byte>, data: seq<byte>): Broker
    requires slot.Sub?
  {
    match slot.owner
    case Local => b.(local := b.local + [Delivery(topic, data)])
    case Con(h) =>
      if Has(b, h) then Put(b, h, PublishTo(Get(b, h), topic, data, slot.qos, 0))
      else b.(fault := b.fault || Writes(topic))
  }

  /** find_topic with publish_topic, from slot `k` on. */
  function Fanout(b: Broker, topic: seq<byte>, data: seq<byte>, k: nat): Broker
    decreases |b.slots| - k
  {
    if |b.slots| <= k then b
    else Fanout(if Hit(b.slots[k], topic) then PublishSlot(b, b.slots[k], topic, data) else b, topic, data, k + 1)
  }

  function UpdateRetained(b: Broker, topic: seq<byte>, data: payload, qos: byte, mem: Mem): Broker {
    b.(retained := Update(b.retained, topic, data, qos, mem).0)
  }

  /** The part of MQTT_server_deleteClientCon that publishes the will. */
  function PublishWill(b: Broker, h: nat, will: Will, mem: Mem): Broker {
    if will.topic.None? then b
    else
      var b1 := Fanout(b, will.topic.value, will.data, 0);
      var b2 := if will.retain then UpdateRetained(b1, will.topic.value, will.data, will.qos, mem) else b1;
      b2.(wills := b2.wills + [h])
  }

  /** MQTT_server_deleteClientCon: off the list, will, then the subscriptions. */
  function Delete(b: Broker, h: nat, mem: Mem): Broker
    requires Has(b, h)
  {
    var b1 := PublishWill(Remove(b, h), h, Get(b, h).will, mem);
    b1.(slots := Unsubscribe(b1.slots, Some(Con(h)), None))
  }

  // ---------------------------------------------------------------- CONNECT

  /** mqtt_get_str at `at` in in_buffer, which a wrapped `n` could lead out of. */
  function StrAt(buf: InBuffer, at: nat, n: word): (r: Option<nat>)
    ensures r.Some? ==> 2 + r.value <= n && at + 2 + r.value <= BUF
  {
    if n <= 2 || BUF < at + 2 then None
    else
      var len := buf[at] as int * 0x100 + buf[at + 1];
      if n < 2 + len || BUF < at + 2 + len then None else Some(len)
  }

  datatype ConnectHeader = ConnectHeader(version: int, size: nat, flags: byte, keepalive: nat)

  /** The protocol check: MQTT 3.1.1 first, then MQTT 3.1. */
  function ReadConnectHeader(buf: InBuffer): Option<ConnectHeader> {
    if buf[2..9] == [0, 4, 'M' as int, 'Q' as int, 'T' as int, 'T' as int, 4] then
      Some(ConnectHeader(4, 10, buf[9], buf[10] as int * 0x100 + buf[11]))
    else if buf[2..11] == [0, 6, 'M' as int, 'Q' as int, 'I' as int, 's' as int, 'd' as int, 'p' as int, 3] then
      Some(ConnectHeader(3, 12, buf[11], buf[12] as int * 0x100 + buf[13]))
    else None
  }

  /** For MQTT 3.1 the header fields are copied to where MQTT 3.1.1 has them. */
  function ShiftHeader(buf: InBuffer, version: int): InBuffer {
    if version == 3 then buf[8 := buf[10]][9 := buf[11]][10 := buf[12]][11 := buf[13]] else buf
  }

  /** The rest of a packet of `len` bytes after the fixed header and `used` bytes, in 16 bits. */
  function Rest(len: nat, used: nat): word {
    U16(len - (2 + used))
  }

  /**
   * The client id. `key` is what delete_client_by_id compares: it reads on from the id in
   * in_buffer up to a zero byte. None: no id is given and none is needed.
   */
  datatype IdField = IdField(id: seq<byte>, key: Option<seq<byte>>, used: nat)

  function ReadId(buf: InBuffer, len: nat, hd: ConnectHeader): Option<IdField> {
    match StrAt(buf, 2 + hd.size, Rest(len, hd.size))
    case None => None
    case Some(n) =>
      if 80 < n then None
      else
        var at := 4 + hd.size;
        var used := hd.size + 2 + n;
        if n == 0 then
          if hd.version == 3 || hd.flags / 2 % 2 == 0 then None else Some(IdField([], None, used))
        else Some(IdField(CStr(buf[at..at + n]), Some(CStr(buf[at..])), used))
  }

  /** The will fields as far as they are read; `ok` unless the connection is to be dropped. */
  datatype WillField = WillField(will: Will, used: nat, ok: bool)

  function ReadWill(buf: InBuffer, len: nat, flags: byte, used: nat): WillField {
    var blank := NO_WILL.(retain := flags / 0x20 % 2 == 1, qos := flags / 8 % 4);
    if flags / 4 % 2 == 0 then WillField(blank, used, !blank.retain && blank.qos == 0)
    else
      match StrAt(buf, 2 + used, Rest(len, used))
      case None => WillField(blank, used, false)
      case Some(n) =>
        var topic := CStr(buf[4 + used..4 + used + n]);
        var will := blank.(topic := Some(topic));
        if HasWildcards(topic) || Head(topic, DOLLAR) then WillField(will, used, false)
        else
          var used' := used + 2 + n;
          match StrAt(buf, 2 + used', Rest(len, used'))
          case None => WillField(will, used', false)
          case Some(m) =>
            WillField(will.(data := buf[4 + used'..4 + used' + m]), used' + 2 + m, true)
  }

  /** Whether user name and password are well-formed. */
  predicate ReadCredentials(buf: InBuffer, len: nat, flags: byte, used: nat) {
    var user := flags / 0x80 == 1;
    var field := StrAt(buf, 2 + used, Rest(len, used));
    && (user ==> field.Some?)
    && (flags / 0x40 % 2 == 1 ==>
          user && (var used' := used + 2 + field.value; StrAt(buf, 2 + used', Rest(len, used')).Some?))
  }

  /** The outcome of handling a packet: go on with the connection, or it is gone. */
  datatype Handled = Continue(b: Broker) | Closed(b: Broker)

  function Drop(b: Broker, h: nat, mem: Mem): Handled
    requires Has(b, h)
  {
    Closed(Delete(b, h, mem))
  }

  /** The CONNACK that ends the case TCP_CONNECTED. */
  function Connack(b: Broker, h: nat, code: byte): Handled
    requires Has(b, h)
  {
    var c := Get(b, h);
    var c' := c.(state := if code == ACCEPTED then MqttData else TcpDisconnecting);
    Continue(Put(b, h, Enqueue(c', Build(CONNACK, 0, 0, 0, [0, code]))))
  }

  /** The first client with this id, or |cs|. */
  function AtId(cs: seq<Client>, id: seq<byte>): (i: nat)
    ensures i <= |cs|
    ensures i < |cs| ==> cs[i].id == id
    ensures forall j :: 0 <= j < i ==> cs[j].id != id
  {
    if cs == [] || cs[0].id == id then 0 else 1 + AtId(cs[1..], id)
  }

  /** delete_client_by_id. */
  function DeleteById(b: Broker, id: seq<byte>, mem: Mem): Broker {
    var i := AtId(b.clients, id);
    if i < |b.clients| && Has(b, b.clients[i].h) then Delete(b, b.clients[i].h, mem) else b
  }

  function HandleConnect(b: Broker, h: nat, len: nat, inp: Input): Handled
    requires Has(b, h)
  {
    var c := Get(b, h);
    if len < 13 then Drop(b, h, inp.own)
    else
      match ReadConnectHeader(c.inBuf)
      case None => Connack(b, h, REFUSE_PROTOCOL)
      case Some(hd) =>
        var b1 := Put(b, h, c.(inBuf := ShiftHeader(c.inBuf, hd.version),
                               cleanSession := hd.flags / 2 % 2 == 1, keepalive := hd.keepalive));
        PutGet(b, h, b1.clients[At(b.clients, h)]);
        match ReadId(c.inBuf, len, hd)
        case None => Connack(b1, h, REFUSE_ID)
        case Some(f) =>
          var b2 := if f.key.Some? then DeleteById(b1, f.key.value, inp.takeover) else b1;
          // a connection that took over itself is freed, and the code goes on with it
          if !Has(b2, h) then Closed(b2.(fault := true)) else AfterId(b2, h, len, hd, f, inp)
  }

  /** The rest of CONNECT, once an older connection with the id is gone. */
  function AfterId(b: Broker, h: nat, len: nat, hd: ConnectHeader, f: IdField, inp: Input): Handled
    requires Has(b, h)
  {
    var c := Get(b, h);
    var w := ReadWill(c.inBuf, len, hd.flags, f.used);
    var b1 := Put(b, h, c.(id := f.id, will := w.will));
    PutGet(b, h, c.(id := f.id, will := w.will));
    if !w.ok || !ReadCredentials(c.inBuf, len, hd.flags, w.used) then Drop(b1, h, inp.own)
    else if !inp.auth then
      var b2 := Put(b, h, c.(id := f.id, will := w.will.(topic := None)));
      PutGet(b, h, c.(id := f.id, will := w.will.(topic := None)));
      Connack(b2, h, REFUSE_AUTH)
    else Connack(b1, h, ACCEPTED)
  }

  // ---------------------------------------------------------------- MQTT_DATA

  /** The SUBSCRIBE walk; `ok` unless the packet is malformed. */
  datatype Walk = Walk(slots: seq<Slot>, codes: seq<byte>, last: seq<byte>, at: nat, ok: bool)

  function SubscribeWalk(slots: seq<Slot>, h: nat, buf: InBuffer, len: Count, at: nat, codes: seq<byte>, last: seq<byte>): Walk
    decreases len - at
  {
    if len <= at || MAX_SUBS <= |codes| then Walk(slots, codes, last, at, true)
    else
      match StrAt(buf, at, len - at)
      case None => Walk(slots, codes, last, at, false)
      case Some(n) =>
        var at' := at + 2 + n;
        if len <= at' then Walk(slots, codes, last, at', false)
        else
          var filter := CStr(buf[at + 2..at']);
          var (slots', ok) := Subscribe(slots, Con(h), filter, 0);
          SubscribeWalk(slots', h, buf, len, at' + 1, codes + [if ok then 0 else 0x80], filter)
  }

  /** The UNSUBSCRIBE walk. */
  function UnsubscribeWalk(slots: seq<Slot>, h: nat, buf: InBuffer, len: Count, at: nat): Walk
    decreases len - at
  {
    if len <= at then Walk(slots, [], [], at, true)
    else
      match StrAt(buf, at, len - at)
      case None => Walk(slots, [], [], at, false)
      case Some(n) =>
        var at' := at + 2 + n;
        UnsubscribeWalk(Unsubscribe(slots, Some(Con(h)), Some(CStr(buf[at + 2..at']))), h, buf, len, at')
  }

  /** find_retainedtopic with publish_retainedtopic, from slot `k` on. */
  function SendRetained(c: Client, list: seq<Entry>, filter: seq<byte>, k: nat): (r: Client)
    ensures r.h == c.h
    decreases |list| - k
  {
    if |list| <= k then c
    else
      var e := list[k];
      var c' := if e.topic.Some? && e.data.Some? && Matches(filter, true, e.topic.value)
                then PublishTo(c, e.topic.value, e.data.value, e.qos, 1) else c;
      SendRetained(c', list, filter, k + 1)
  }

  function Ack(c: Client, kind: int, id: word, codes: seq<byte>): Client {
    var built := AckMessage(kind, id, codes, c.counter);
    Enqueue(c.(counter := built.counter), built.message)
  }

  function HandleSubscribe(b: Broker, h: nat, len: Count, inp: Input): Handled
    requires Has(b, h)
  {
    var c := Get(b, h);
    if len < 8 then Drop(b, h, inp.own)
    else
      var w := SubscribeWalk(b.slots, h, c.inBuf, len, 4, [], []);
      var b1 := b.(slots := w.slots);
      if !w.ok then Drop(b1, h, inp.own)
      else
        var c1 := Ack(c, SUBACK, GetId(c.inBuf, BUF), w.codes);
        Continue(Put(b1, h, SendRetained(c1, b.retained, w.last, 0)))
  }

  function HandleUnsubscribe(b: Broker, h: nat, len: Count, inp: Input): Handled
    requires Has(b, h)
  {
    var c := Get(b, h);
    if len < 7 then Drop(b, h, inp.own)
    else
      var w := UnsubscribeWalk(b.slots, h, c.inBuf, len, 4);
      var b1 := b.(slots := w.slots);
      if !w.ok then Drop(b1, h, inp.own)
      else Continue(Put(b1, h, Ack(c, UNSUBACK, GetId(c.inBuf, BUF), [])))
  }

  /** A topic and data that have been read from the PUBLISH in `buf`. */
  function PassOn(b: Broker, buf: InBuffer, topic: seq<byte>, data: payload, mem: Mem): Broker {
    if Head(topic, DOLLAR) then b
    else
      var b1 := Fanout(b, topic, data, 0);
      if Retain(buf) == 1 then UpdateRetained(b1, topic, data, Qos(buf), mem) else b1
  }

  /** The payload, or none for a null pointer. */
  function PayloadOf(buf: InBuffer): payload {
    var data := PublishData(buf, BUF);
    if data.Some? then data.value else []
  }

  /** Topic and data are read from the whole of in_buffer, not from the packet's bytes alone. */
  function HandlePublish(b: Broker, buf: InBuffer, mem: Mem): Broker {
    match PublishTopic(buf, BUF)
    case None => b.(fault := true) // the code copies 512 bytes from a null pointer
    case Some(t) => PassOn(b, buf, CStr(t), PayloadOf(buf), mem)
  }

  /** What is done with the packet of `len` bytes at the head of the client's in_buffer. */
  function Handle(b: Broker, h: nat, len: Count, inp: Input): Handled
    requires Has(b, h)
  {
    var c := Get(b, h);
    var kind := Kind(c.inBuf);
    match c.state
    case TcpConnected => if kind == CONNECT then HandleConnect(b, h, len, inp) else Drop(b, h, inp.own)
    case TcpDisconnecting => Continue(b)
    case MqttData =>
      if kind == SUBSCRIBE then HandleSubscribe(b, h, len, inp)
      else if kind == UNSUBSCRIBE then HandleUnsubscribe(b, h, len, inp)
      else if kind == PUBLISH then Continue(HandlePublish(b, c.inBuf, inp.own))
      else if kind == PINGREQ then Continue(Put(b, h, Enqueue(c, Build(PINGRESP, 0, 0, 0, []))))
      else if kind == DISCONNECT then
        PutGet(b, h, c.(will := c.will.(topic := None)));
        Drop(Put(b, h, c.(will := c.will.(topic := None))), h, inp.own)
      else Continue(b)
  }

  // ---------------------------------------------------------------- receiving

  /** memcpy of the bytes after the packet to the front of in_buffer. */
  function Shift(buf: InBuffer, read: Count, len: Count): InBuffer
    requires len <= read
  {
    buf[len..read] + buf[read - len..]
  }

  /** Input for the next packet, and for those after it. */
  function NextInput(inputs: seq<Input>): Input {
    if inputs == [] then DEFAULT_INPUT else inputs[0]
  }

  function LaterInputs(inputs: seq<Input>): seq<Input> {
    if inputs == [] then [] else inputs[1..]
  }

  /** message_length for what is in in_buffer. */
  function MessageLength(c: Client): word {
    U16(TotalLength(c.inBuf, c.read))
  }

  /** After a packet of `len` bytes was handled: the timeout and the bytes that remain. */
  function Finish(c: Client, read: Count, len: Count): Client
    requires len <= read
  {
    c.(connTimeout := 2 * c.keepalive + 10,
       inBuf := if len < read then Shift(c.inBuf, read, len) else c.inBuf,
       read := read - len)
  }

  /** The READPACKET loop. */
  function ReadPackets(b: Broker, h: nat, inputs: seq<Input>): Broker
    requires Has(b, h)
    decreases Get(b, h).read
  {
    var c := Get(b, h);
    var len := MessageLength(c);
    if c.read < len then b
    else
      var seen := c.(dispatched := c.dispatched + [c.inBuf[..len]]);
      PutGet(b, h, seen);
      match Handle(Put(b, h, seen), h, len, NextInput(inputs))
      case Closed(b1) => b1
      case Continue(b1) =>
        if !Has(b1, h) then b1
        else if len == 0 then b1.(stuck := true)
        else
          var c1 := Finish(Get(b1, h), c.read, len);
          PutGet(b1, h, c1);
          if len < c.read then ReadPackets(Put(b1, h, c1), h, LaterInputs(inputs)) else Put(b1, h, c1)
  }

  /** memcpy of the chunk behind the bytes that are kept. */
  function CopyIn(c: Client, chunk: seq<byte>): Client
    requires |chunk| + c.read <= BUF
  {
    c.(inBuf := c.inBuf[..c.read] + chunk + c.inBuf[c.read + |chunk|..], read := c.read + |chunk|)
  }

  /** MQTT_ClientCon_recv_cb. */
  function ReceiveChunk(b: Broker, h: nat, chunk: seq<byte>, inputs: seq<Input>): Broker
    requires Has(b, h)
  {
    var c := Get(b, h);
    if BUF < |chunk| + c.read then Delete(b, h, NextInput(inputs).own)
    else
      PutGet(b, h, CopyIn(c, chunk));
      var b1 := Put(b, h, CopyIn(c, chunk));
      if |chunk| < 2 then b1 else ReadPackets(b1, h, inputs)
  }

  // ---------------------------------------------------------------- the other steps

  function NewClient(h: nat): Client {
    Client(h, TcpConnected, false, 0, [], NO_WILL, seq(BUF, _ => 0), 0, [], 0, 0, 40, [], [], [], [])
  }

  /** MQTT_ClientCon_connected_cb, when the connection is not refused. */
  function Accept(b: Broker): Broker {
    b.(clients := [NewClient(b.next)] + b.clients, next := b.next + 1)
  }

  function Countdown(c: Client): Client {
    c.(sendTimeout := if c.sendTimeout > 0 then c.sendTimeout - 1 else 0)
  }

  /** mqtt_server_timer. */
  function Tick(b: Broker, h: nat, mem: Mem): Broker
    requires Has(b, h)
  {
    var c := Countdown(Get(b, h));
    PutGet(b, h, c);
    if c.connTimeout > 0 then Put(b, h, c.(connTimeout := c.connTimeout - 1))
    else Delete(Put(b, h, c), h, mem)
  }

  /** QUEUE_Gets on the client's queue: the message taken, if there is one. */
  function Take(c: Client): (Client, Option<seq<byte>>) {
    var (ring', reply) := Exec(c.ring, QSIZE, Gets(BUF, false));
    if reply.Got? then (c.(ring := ring', taken := c.taken + [reply.m]), Some(reply.m)) else (c.(ring := ring'), None)
  }

  /**
   * What MQTT_ServerTask does to the record, and whether it got the message it took rid of,
   * if any; `room` is availableForWrite.
   */
  function Attempt(c: Client, room: nat): (r: (Client, bool))
    ensures var c1 := r.0;
            c1 == c.(ring := c1.ring, taken := c1.taken, sent := c1.sent, sendTimeout := c1.sendTimeout)
  {
    var (c1, m) := if c.ring != [] && c.sendTimeout == 0 then Take(c) else (c, None);
    if m.None? then (c1, true)
    else if |m.value| < room then (c1.(sent := c1.sent + [m.value], sendTimeout := 0), true)
    else (c1.(sendTimeout := SEND_TIMEOUT), false)
  }

  /** MQTT_ServerTask on a connection in the list. */
  function RunTask(b: Broker, h: nat, room: nat, mem: Mem): Broker
    requires Has(b, h)
  {
    var c := Get(b, h);
    if c.state == TcpConnected then b
    else
      var (c1, idle) := Attempt(c, room);
      PutGet(b, h, c1);
      if idle && c.state == TcpDisconnecting then Delete(Put(b, h, c1), h, mem) else Put(b, h, c1)
  }

  /** MQTT_local_publish. */
  function PublishLocal(b: Broker, topic: seq<byte>, data: payload, qos: byte, retain: bool, mem: Mem): Broker {
    var b1 := Fanout(b, topic, data, 0);
    if retain then UpdateRetained(b1, topic, data, qos, mem) else b1
  }

  /** MQTT_local_subscribe. */
  function SubscribeLocal(b: Broker, filter: seq<byte>): Broker {
    b.(slots := Subscribe(b.slots, Local, filter, 0).0)
  }

  /** MQTT_local_unsubscribe. */
  function UnsubscribeLocal(b: Broker, filter: seq<byte>): Broker {
    b.(slots := Unsubscribe(b.slots, Some(Local), Some(filter)))
  }

  datatype Event =
    | Connection
    | Chunk(h: nat, chunk: seq<byte>, inputs: seq<Input>)
    | Gone(h: nat, mem: Mem)
    | Timer(h: nat, mem: Mem)
    | Task(h: nat, room: nat, mem: Mem)
    | LocalPublish(topic: seq<byte>, data: payload, qos: byte, retain: bool, mem: Mem)
    | LocalSubscribe(filter: seq<byte>)
    | LocalUnsubscribe(filter: seq<byte>)

  /** Nothing more can be said of the code, or it does not come back. */
  predicate Halted(b: Broker) {
    b.stuck || b.fault
  }

  /** One callback, timer tick, task run or local call. Events of unknown handles do nothing. */
  function Step(b: Broker, e: Event): Broker {
    if Halted(b) then b
    else
      match e
      case Connection => Accept(b)
      case Chunk(h, chunk, inputs) => if Has(b, h) then ReceiveChunk(b, h, chunk, inputs) else b
      case Gone(h, mem) => if Has(b, h) then Delete(b, h, mem) else b
      case Timer(h, mem) => if Has(b, h) then Tick(b, h, mem) else b
      case Task(h, room, mem) => if Has(b, h) then RunTask(b, h, room, mem) else b
      case LocalPublish(topic, data, qos, retain, mem) => PublishLocal(b, topic, data, qos, retain, mem)
      case LocalSubscribe(filter) => SubscribeLocal(b, filter)
      case LocalUnsubscribe(filter) => UnsubscribeLocal(b, filter)
  }

  function Run(b: Broker, es: seq<Event>): Broker
    decreases |es|
  {
    if es == [] then b else Run(Step(b, es[0]), es[1..])
  }

  /** MQTT_server_start. */
  function Start(maxSubscriptions: nat, maxRetained: nat): Broker {
    Broker([], seq(maxSubscriptions, _ => Free), Blanks(maxRetained), 0, [], [], false, false)
  }

  lemma AtIs(cs: seq<Client>, h: nat, i: nat)
    requires i < |cs| && cs[i].h == h
    requires forall j :: 0 <= j < i ==> cs[j].h != h
    ensures At(cs, h) == i
  {
  }

  lemma PutGet(b: Broker, h: nat, c: Client)
    requires Has(b, h) && c.h == h
    ensures Has(Put(b, h, c), h) && Get(Put(b, h, c), h) == c
    ensures At(Put(b, h, c).clients, h) == At(b.clients, h)
  {
    AtIs(Put(b, h, c).clients, h, At(b.clients, h));
  }
}
