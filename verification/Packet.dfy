/** The packet builders and readers of src/mqtt_msg.c. */
module Packet {
  import opened Bytes

  const CONNECT := 1
  const CONNACK := 2
  const PUBLISH := 3
  const PUBACK := 4
  const PUBREC := 5
  const SUBSCRIBE := 8
  const SUBACK := 9
  const UNSUBSCRIBE := 10
  const UNSUBACK := 11
  const PINGREQ := 12
  const PINGRESP := 13
  const DISCONNECT := 14

  /** MQTT_MAX_FIXED_HEADER_SIZE: where a packet's body is built. */
  const HEADER := 3

  // ---------------------------------------------------------------- what is built

  /** The first byte of a packet; each field is masked to its width. */
  function FirstByte(kind: int, dup: int, qos: int, retain: int): byte {
    kind % 16 * 16 + dup % 2 * 8 + qos % 4 * 2 + retain % 2
  }

  lemma FirstByteIs(kind: int, qos: int)
    requires 0 <= kind < 16 && 0 <= qos < 4
    ensures FirstByte(kind, 0, qos, 0) == 16 * kind + 2 * qos
  {
  }

  /** The first byte of each packet without flags, and of SUBSCRIBE and UNSUBSCRIBE (sections 2.2.1 and 2.2.2 of MQTT 3.1.1). */
  lemma FirstBytes()
    ensures FirstByte(CONNECT, 0, 0, 0) == 0x10 && FirstByte(CONNACK, 0, 0, 0) == 0x20 && FirstByte(PUBLISH, 0, 0, 0) == 0x30
    ensures FirstByte(PUBACK, 0, 0, 0) == 0x40 && FirstByte(PUBREC, 0, 0, 0) == 0x50
    ensures FirstByte(SUBSCRIBE, 0, 1, 0) == 0x82 && FirstByte(SUBACK, 0, 0, 0) == 0x90
    ensures FirstByte(UNSUBSCRIBE, 0, 1, 0) == 0xA2 && FirstByte(UNSUBACK, 0, 0, 0) == 0xB0
    ensures FirstByte(PINGREQ, 0, 0, 0) == 0xC0 && FirstByte(PINGRESP, 0, 0, 0) == 0xD0 && FirstByte(DISCONNECT, 0, 0, 0) == 0xE0
  {
    FirstByteIs(CONNECT, 0);
    FirstByteIs(CONNACK, 0);
    FirstByteIs(PUBLISH, 0);
    FirstByteIs(PUBACK, 0);
    FirstByteIs(PUBREC, 0);
    FirstByteIs(SUBSCRIBE, 1);
    FirstByteIs(SUBACK, 0);
    FirstByteIs(UNSUBSCRIBE, 1);
    FirstByteIs(UNSUBACK, 0);
    FirstByteIs(PINGREQ, 0);
    FirstByteIs(PINGRESP, 0);
    FirstByteIs(DISCONNECT, 0);
  }

  /** The Remaining Length field as fini_message writes it, in one byte or in two. */
  function LengthField(n: nat): seq<byte> {
    if 127 < n then [0x80 + n % 128, n / 128 % 0x100] else [n]
  }

  function Build(kind: int, dup: int, qos: int, retain: int, body: seq<byte>): seq<byte> {
    [FirstByte(kind, dup, qos, retain)] + LengthField(|body|) + body
  }

  function Word16(n: nat): seq<byte> {
    [n / 0x100 % 0x100, n % 0x100]
  }

  /** A length-prefixed string. */
  function Str(s: seq<byte>): seq<byte> {
    Word16(|s|) + s
  }

  /** The id that append_message_id assigns after `counter`; it is never zero. */
  function NextId(counter: word): (id: word)
    ensures 0 < id
  {
    if counter == 0xFFFF then 1 else counter + 1
  }

  function PublishBody(topic: seq<byte>, data: seq<byte>, qos: int, id: nat): seq<byte> {
    Str(topic) + (if 0 < qos then Word16(id) else []) + data
  }

  function PublishPacket(topic: seq<byte>, data: seq<byte>, qos: int, retain: int, id: nat): seq<byte> {
    Build(PUBLISH, 0, qos, retain, PublishBody(topic, data, qos, id))
  }

  /** The outcome of a builder: the message, empty on failure, and the id counter. */
  datatype Built = Built(message: seq<byte>, counter: word)

  /** What mqtt_msg_publish leaves in a connection whose buffer has `size` bytes. */
  function PublishMessage(size: nat, topic: seq<byte>, data: seq<byte>, qos: int, retain: int, counter: word): Built
  {
    if topic == [] || size < HEADER + |Str(topic)| then Built([], counter)
    else
      var id := if 0 < qos then NextId(counter) else counter;
      if size < HEADER + |PublishBody(topic, data, qos, id)| then Built([], id)
      else Built(PublishPacket(topic, data, qos, retain, id), id)
  }

  function SubscribePacket(topic: seq<byte>, qos: byte, id: nat): seq<byte> {
    Build(SUBSCRIBE, 0, 1, 0, Word16(id) + Str(topic) + [qos])
  }

  function SubscribeMessage(size: nat, topic: seq<byte>, qos: byte, counter: word): Built
  {
    if topic == [] then Built([], counter)
    else
      var id := NextId(counter);
      if size < HEADER + 2 + |Str(topic)| + 1 then Built([], id)
      else Built(SubscribePacket(topic, qos, id), id)
  }

  function UnsubscribeMessage(size: nat, topic: seq<byte>, counter: word): Built
  {
    if topic == [] then Built([], counter)
    else
      var id := NextId(counter);
      if size < HEADER + 2 + |Str(topic)| then Built([], id)
      else Built(Build(UNSUBSCRIBE, 0, 1, 0, Word16(id) + Str(topic)), id)
  }

  /** An acknowledgement with the given id, or with a fresh one when that is zero. */
  function AckMessage(kind: int, id: word, codes: seq<byte>, counter: word): Built
  {
    var used := if id == 0 then NextId(counter) else id;
    Built(Build(kind, 0, 0, 0, Word16(used) + codes), if id == 0 then used else counter)
  }

  // ---------------------------------------------------------------- CONNECT

  /**
   * mqtt_connect_info_t, its strings without their zero bytes; `id` is None when null, and
   * the others are empty when null. `beyond` is the byte in memory behind the zero of an
   * empty client id.
   */
  datatype ConnectInfo = ConnectInfo(
    id: Option<seq<byte>>,
    beyond: byte,
    cleanSession: bool,
    keepalive: nat,
    willTopic: seq<byte>,
    willData: seq<byte>,
    willRetain: bool,
    willQos: int,
    user: seq<byte>,
    password: seq<byte>)

  /** The variable header, for MQTT 3.1.1. */
  function ConnectHead(flags: byte, keepalive: nat): seq<byte> {
    [0, 4, 'M' as int, 'Q' as int, 'T' as int, 'T' as int, 4, flags, keepalive / 0x100 % 0x100, keepalive % 0x100]
  }

  function WillFlags(info: ConnectInfo): byte {
    if info.willTopic == [] then 0 else 4 + (if info.willRetain then 0x20 else 0) + info.willQos % 4 * 8
  }

  function CredentialFlags(info: ConnectInfo): byte {
    (if info.user == [] then 0 else 0x80) + (if info.password == [] then 0 else 0x40)
  }

  function ConnectFlags(info: ConnectInfo): byte {
    (if info.cleanSession then 2 else 0) + WillFlags(info) + CredentialFlags(info)
  }

  /** The client id as it is written: an empty one as two bytes of memory. */
  function IdBytes(info: ConnectInfo): seq<byte>
    requires info.id.Some?
  {
    if info.id.value == [] then [0, info.beyond] else info.id.value
  }

  function WillFields(info: ConnectInfo): seq<byte> {
    if info.willTopic == [] then [] else Str(info.willTopic) + Str(info.willData)
  }

  function OptionalStr(s: seq<byte>): seq<byte> {
    if s == [] then [] else Str(s)
  }

  function Credentials(info: ConnectInfo): seq<byte> {
    OptionalStr(info.user) + OptionalStr(info.password)
  }

  function ConnectBody(info: ConnectInfo): seq<byte>
    requires info.id.Some?
  {
    ConnectHead(ConnectFlags(info), info.keepalive) + (Str(IdBytes(info)) + (WillFields(info) + Credentials(info)))
  }

  /** The body in a buffer of `size` bytes: an empty id for which there is no room is left out. */
  function ConnectBodyIn(size: nat, info: ConnectInfo): seq<byte>
    requires info.id.Some?
  {
    if info.id.value == [] && size < HEADER + 14
    then ConnectHead(ConnectFlags(info), info.keepalive) + (WillFields(info) + Credentials(info))
    else ConnectBody(info)
  }

  /** What mqtt_msg_connect leaves in a connection whose buffer has `size` bytes. */
  function ConnectMessage(size: nat, info: ConnectInfo, counter: word): Built {
    if info.id.None? || size < HEADER + |ConnectBodyIn(size, info)| then Built([], counter)
    else Built(Build(CONNECT, 0, 0, 0, ConnectBodyIn(size, info)), counter)
  }

  class Connection {
    const buffer: array<byte> // buffer_length is its length
    var messageId: word
    var start: nat            // message.data, as an offset into buffer
    var length: nat           // message.length

    ghost predicate Valid()
      reads this
    {
      && HEADER <= buffer.Length < 0x1_0000
      && start + length <= buffer.Length
    }

    /** A message is being built after the reserved header. */
    ghost predicate Building()
      reads this
    {
      && HEADER <= buffer.Length < 0x1_0000
      && HEADER <= length <= buffer.Length
    }

    ghost function Body(): seq<byte>
      requires Building()
      reads this, buffer
    {
      buffer[HEADER..length]
    }

    ghost function Message(): seq<byte>
      requires Valid()
      reads this, buffer
    {
      buffer[start..start + length]
    }

    /** mqtt_msg_init. */
    constructor (buffer: array<byte>)
      requires HEADER <= buffer.Length < 0x1_0000
      ensures Valid() && this.buffer == buffer && messageId == 0 && Message() == []
    {
      this.buffer := buffer;
      messageId, start, length := 0, 0, 0;
    }

    method AppendString(s: seq<byte>) returns (r: int)
      requires Building()
      modifies this`length, buffer
      ensures Building()
      ensures r == if length == old(length) then -1 else |s| + 2
      ensures r == -1 <==> buffer.Length < old(length) + |s| + 2
      ensures Body() == if r == -1 then old(Body()) else old(Body()) + Str(s)
    {
      if length + |s| + 2 > buffer.Length {
        return -1;
      }
      ghost var was := Body();
      buffer[length] := |s| / 0x100;
      buffer[length + 1] := |s| % 0x100;
      length := length + 2;
      assert Body() == was + Word16(|s|);
      AppendBytes(s);
      assert Body() == was + Str(s);
      return |s| + 2;
    }

    /** The memcpy that ends the builders' append steps. */
    method AppendBytes(s: seq<byte>)
      requires Building() && length + |s| <= buffer.Length
      modifies this`length, buffer
      ensures Building() && length == old(length) + |s|
      ensures Body() == old(Body()) + s
    {
      ghost var was := Body();
      forall k | 0 <= k < |s| {
        buffer[length + k] := s[k];
      }
      length := length + |s|;
      assert Body() == was + s;
    }

    method AppendMessageId(given: word) returns (r: word)
      requires Building()
      modifies this`length, this`messageId, buffer
      ensures Building()
      ensures messageId == if given == 0 then NextId(old(messageId)) else old(messageId)
      ensures var id := if given == 0 then NextId(old(messageId)) else given;
              && r == (if buffer.Length < old(length) + 2 then 0 else id)
              && Body() == (if r == 0 then old(Body()) else old(Body()) + Word16(id))
    {
      var id := given;
      while id == 0
        modifies `messageId
        invariant id == 0 ==> given == 0 && (messageId == old(messageId) || (old(messageId) == 0xFFFF && messageId == 0))
        invariant id != 0 ==> id == if given == 0 then NextId(old(messageId)) else given
        invariant id != 0 ==> messageId == if given == 0 then id else old(messageId)
        decreases id == 0, messageId == 0xFFFF
      {
        messageId := U16(messageId + 1);
        id := messageId;
      }
      if length + 2 > buffer.Length {
        return 0;
      }
      ghost var was := Body();
      buffer[length] := id / 0x100;
      buffer[length + 1] := id % 0x100;
      length := length + 2;
      assert Body() == was + Word16(id);
      return id;
    }

    /** init_message. */
    method InitMessage()
      requires Valid()
      modifies `length
      ensures Building() && Body() == [] && length == HEADER
    {
      length := HEADER;
    }

    /** fail_message. */
    method FailMessage()
      requires Building()
      modifies `start, `length
      ensures Valid() && Message() == []
    {
      start, length := 0, 0;
    }

    /** fini_message: the header goes right before the body, which stays where it is. */
    method FiniMessage(kind: int, dup: int, qos: int, retain: int)
      requires Building()
      modifies `start, `length, buffer
      ensures Valid()
      ensures Message() == Build(kind, dup, qos, retain, old(Body()))
    {
      ghost var body := Body();
      var remaining := length - HEADER;
      if remaining > 127 {
        buffer[0] := FirstByte(kind, dup, qos, retain);
        buffer[1] := 0x80 + remaining % 128;
        buffer[2] := remaining / 128 % 0x100;
        length := remaining + 3;
        start := 0;
      } else {
        buffer[1] := FirstByte(kind, dup, qos, retain);
        buffer[2] := remaining;
        length := remaining + 2;
        start := 1;
      }
      assert buffer[HEADER..HEADER + remaining] == body;
      assert Message() == Message()[..|Message()| - remaining] + body;
    }

    /** The variable header of a PUBLISH. */
    method AppendTopicAndId(topic: seq<byte>, qos: int) returns (ok: bool)
      requires Building() && Body() == []
      modifies this`length, this`messageId, buffer
      ensures Building()
      ensures messageId == if 0 < qos && HEADER + |Str(topic)| <= buffer.Length then NextId(old(messageId)) else old(messageId)
      ensures ok <==> HEADER + |Str(topic)| + (if 0 < qos then 2 else 0) <= buffer.Length
      ensures ok ==> Body() == Str(topic) + (if 0 < qos then Word16(messageId) else [])
    {
      var r := AppendString(topic);
      if r < 0 {
        return false;
      }
      if qos > 0 {
        var id := AppendMessageId(0);
        if id == 0 {
          return false;
        }
      }
      return true;
    }

    method MsgPublish(topic: seq<byte>, data: seq<byte>, qos: int, retain: int)
      requires Valid()
      modifies this, buffer
      ensures Valid()
      ensures Built(Message(), messageId) ==
              PublishMessage(buffer.Length, topic, data, qos, retain, old(messageId))
    {
      InitMessage();
      if topic == [] {
        FailMessage();
        return;
      }
      var ok := AppendTopicAndId(topic, qos);
      if !ok || length + |data| > buffer.Length {
        FailMessage();
        return;
      }
      AppendBytes(data);
      FiniMessage(PUBLISH, 0, qos, retain);
    }

    method AppendByte(b: byte)
      requires Building() && length < buffer.Length
      modifies `length, buffer
      ensures Building() && Body() == old(Body()) + [b] && length == old(length) + 1
    {
      ghost var was := Body();
      buffer[length] := b;
      length := length + 1;
      assert Body() == was + [b];
    }

    /** A fresh id and the topic, as SUBSCRIBE and UNSUBSCRIBE start. */
    method AppendIdAndTopic(topic: seq<byte>) returns (ok: bool)
      requires Building() && Body() == []
      modifies this`length, this`messageId, buffer
      ensures Building() && messageId == NextId(old(messageId))
      ensures ok <==> HEADER + 2 + |Str(topic)| <= buffer.Length
      ensures ok ==> Body() == Word16(messageId) + Str(topic)
    {
      var id := AppendMessageId(0);
      if id == 0 {
        return false;
      }
      assert Body() == Word16(id);
      var r := AppendString(topic);
      return r >= 0;
    }

    method MsgSubscribe(topic: seq<byte>, qos: byte)
      requires Valid()
      modifies this, buffer
      ensures Valid()
      ensures Built(Message(), messageId) == SubscribeMessage(buffer.Length, topic, qos, old(messageId))
    {
      InitMessage();
      if topic == [] {
        FailMessage();
        return;
      }
      var ok := AppendIdAndTopic(topic);
      if !ok || length + 1 > buffer.Length {
        FailMessage();
        return;
      }
      AppendByte(qos);
      FiniMessage(SUBSCRIBE, 0, 1, 0);
    }

    method MsgUnsubscribe(topic: seq<byte>)
      requires Valid()
      modifies this, buffer
      ensures Valid()
      ensures Built(Message(), messageId) == UnsubscribeMessage(buffer.Length, topic, old(messageId))
    {
      InitMessage();
      if topic == [] {
        FailMessage();
        return;
      }
      var ok := AppendIdAndTopic(topic);
      if !ok {
        FailMessage();
        return;
      }
      FiniMessage(UNSUBSCRIBE, 0, 1, 0);
    }

    /** An append, and the flags set for it. */
    method AppendFlagged(s: seq<byte>, mask: nat, ghost flags: byte, ghost k: nat, ghost rest: seq<byte>) returns (ok: bool)
      requires Building() && Body() == ConnectHead(flags, k) + rest && flags + mask < 0x100
      modifies this`length, buffer
      ensures Building() && (!ok ==> buffer.Length < old(length) + |Str(s)| && length == old(length) && Body() == old(Body()))
      ensures ok ==> length == old(length) + |Str(s)| <= buffer.Length
      ensures ok ==> Body() == ConnectHead(flags + mask, k) + (rest + Str(s))
    {
      var r := AppendString(s);
      if r < 0 {
        return false;
      }
      assert buffer[HEADER + 7] == Body()[7] == flags;
      Associate(ConnectHead(flags, k), rest, Str(s));
      ghost var body := Body();
      buffer[HEADER + 7] := buffer[HEADER + 7] + mask; // the bits are not set yet
      assert Body() == body[7 := flags + mask];
      return true;
    }

    /** An optional string of CONNECT: nothing is appended for an empty one. */
    method AppendOptional(s: seq<byte>, mask: nat, ghost flags: byte, ghost k: nat, ghost rest: seq<byte>) returns (ok: bool)
      requires Building() && Body() == ConnectHead(flags, k) + rest && flags + mask < 0x100
      modifies this`length, buffer
      ensures Building() && (!ok ==> buffer.Length < old(length) + |OptionalStr(s)|)
      ensures ok ==> length == old(length) + |OptionalStr(s)| <= buffer.Length
      ensures ok ==> Body() == ConnectHead(if s == [] then flags else flags + mask, k) + (rest + OptionalStr(s))
    {
      if s == [] {
        assert rest + [] == rest;
        return true;
      }
      ok := AppendFlagged(s, mask, flags, k, rest);
    }

    /** The will of CONNECT: topic, data and three flags. */
    method AppendWill(info: ConnectInfo, ghost flags: byte, ghost rest: seq<byte>) returns (ok: bool)
      requires Building() && Body() == ConnectHead(flags, info.keepalive) + rest && flags <= 2
      modifies this`length, buffer
      ensures Building() && (!ok ==> buffer.Length < old(length) + |WillFields(info)|)
      ensures ok ==> length == old(length) + |WillFields(info)| <= buffer.Length
      ensures ok ==> Body() == ConnectHead(flags + WillFlags(info), info.keepalive) + (rest + WillFields(info))
    {
      if info.willTopic == [] {
        assert rest + [] == rest;
        return true;
      }
      ok := AppendFlagged(info.willTopic, 0, flags, info.keepalive, rest);
      if !ok {
        return;
      }
      ok := AppendFlagged(info.willData, WillFlags(info), flags, info.keepalive, rest + Str(info.willTopic));
      Associate(rest, Str(info.willTopic), Str(info.willData));
    }

    /** The variable header of CONNECT, with the flag for a clean session. */
    method AppendConnectHead(info: ConnectInfo)
      requires Building() && length == HEADER && HEADER + 10 <= buffer.Length
      modifies this`length, buffer
      ensures Building() && length == HEADER + 10
      ensures Body() == ConnectHead(if info.cleanSession then 2 else 0, info.keepalive) + []
    {
      AppendBytes(ConnectHead(0, info.keepalive));
      if info.cleanSession {
        ghost var body := Body();
        buffer[HEADER + 7] := 2;
        assert Body() == body[7 := 2];
      }
    }

    method AppendCredentials(info: ConnectInfo, ghost flags: byte, ghost rest: seq<byte>) returns (ok: bool)
      requires Building() && Body() == ConnectHead(flags, info.keepalive) + rest && flags < 0x40
      modifies this`length, buffer
      ensures Building() && (!ok ==> buffer.Length < old(length) + |Credentials(info)|)
      ensures ok ==> length == old(length) + |Credentials(info)| <= buffer.Length
      ensures ok ==> Body() == ConnectHead(flags + CredentialFlags(info), info.keepalive) + (rest + Credentials(info))
    {
      ok := AppendOptional(info.user, 0x80, flags, info.keepalive, rest);
      if ok {
        ghost var flags' := if info.user == [] then flags else flags + 0x80;
        ok := AppendOptional(info.password, 0x40, flags', info.keepalive, rest + OptionalStr(info.user));
        Associate(rest, OptionalStr(info.user), OptionalStr(info.password));
      }
    }

    /** The payload of CONNECT. The append of an empty id is not looked at. */
    method AppendConnectFields(info: ConnectInfo) returns (ok: bool)
      requires info.id.Some? && Building() && length == HEADER + 10
      requires Body() == ConnectHead(if info.cleanSession then 2 else 0, info.keepalive) + []
      modifies this`length, buffer
      ensures Building() && (ok <==> HEADER + |ConnectBodyIn(buffer.Length, info)| <= buffer.Length)
      ensures ok ==> Body() == ConnectBodyIn(buffer.Length, info)
    {
      ghost var clean: byte := if info.cleanSession then 2 else 0;
      ghost var id := Str(IdBytes(info));
      ok := AppendFlagged(IdBytes(info), 0, clean, info.keepalive, []);
      if !ok && info.id.value != [] {
        return;
      }
      id := if ok then id else [];
      assert [] + id == id;
      ok := AppendWillAndCredentials(info, clean, id);
      assert id == [] ==> id + (WillFields(info) + Credentials(info)) == WillFields(info) + Credentials(info);
    }

    method AppendWillAndCredentials(info: ConnectInfo, ghost flags: byte, ghost id: seq<byte>) returns (ok: bool)
      requires Building() && Body() == ConnectHead(flags, info.keepalive) + id && flags <= 2
      modifies this`length, buffer
      ensures Building() && (ok <==> old(length) + |WillFields(info)| + |Credentials(info)| <= buffer.Length)
      ensures ok ==> Body() == ConnectHead(flags + WillFlags(info) + CredentialFlags(info), info.keepalive)
                               + (id + (WillFields(info) + Credentials(info)))
    {
      ok := AppendWill(info, flags, id);
      if ok {
        ok := AppendCredentials(info, flags + WillFlags(info), id + WillFields(info));
        Associate(id, WillFields(info), Credentials(info));
      }
    }

    /** mqtt_msg_connect. */
    method MsgConnect(info: ConnectInfo)
      requires Valid()
      modifies this, buffer
      ensures Valid()
      ensures Built(Message(), messageId) == ConnectMessage(buffer.Length, info, old(messageId))
    {
      InitMessage();
      if length + 10 > buffer.Length {
        FailMessage();
        return;
      }
      AppendConnectHead(info);
      if info.id.None? {
        FailMessage();
        return;
      }
      var ok := AppendConnectFields(info);
      if !ok {
        FailMessage();
        return;
      }
      FiniMessage(CONNECT, 0, 0, 0);
    }

    /** mqtt_msg_suback, and the other acknowledgements with `codes` empty. Room for the codes is not looked at. */
    method MsgAck(kind: int, id: word, codes: seq<byte>)
      requires Valid()
      requires HEADER + 2 <= buffer.Length ==> HEADER + 2 + |codes| <= buffer.Length
      modifies this, buffer
      ensures Valid()
      ensures var built := AckMessage(kind, id, codes, old(messageId));
              Built(Message(), messageId) == if buffer.Length < HEADER + 2 then built.(message := []) else built
    {
      InitMessage();
      var used := AppendMessageId(id);
      if used == 0 {
        FailMessage();
        return;
      }
      var i := 0;
      while i < |codes|
        invariant 0 <= i <= |codes| && Building() && length == HEADER + 2 + i
        invariant Body() == Word16(used) + codes[..i]
        invariant messageId == AckMessage(kind, id, codes, old(messageId)).counter
      {
        AppendByte(codes[i]);
        assert codes[..i + 1] == codes[..i] + [codes[i]];
        i := i + 1;
      }
      assert codes[..i] == codes;
      FiniMessage(kind, 0, 0, 0);
    }

    /** mqtt_msg_pingreq, mqtt_msg_pingresp and mqtt_msg_disconnect. */
    method MsgEmpty(kind: int)
      requires Valid()
      modifies this, buffer
      ensures Valid() && messageId == old(messageId)
      ensures Message() == Build(kind, 0, 0, 0, [])
    {
      InitMessage();
      FiniMessage(kind, 0, 0, 0);
    }

    method MsgConnack(code: byte)
      requires Valid() && HEADER + 2 <= buffer.Length
      modifies this, buffer
      ensures Valid() && messageId == old(messageId)
      ensures Message() == Build(CONNACK, 0, 0, 0, [0, code])
    {
      InitMessage();
      AppendByte(0);
      AppendByte(code);
      FiniMessage(CONNACK, 0, 0, 0);
    }
  }
}
