/** CONNECT from end to end: which packets of mqtt_msg_connect the broker accepts, and what it then knows. */
module Connecting {
  import opened Bytes
  import opened Packet
  import opened Reader
  import opened Reassembly
  import opened Topics
  import opened Retained
  import opened Broker
  import opened BrokerInvariant
  import opened Sessions
  import opened Answers
  import opened Subscribing
  import opened Streams

  /** Strings given by the caller: C strings, a client id among them that is not empty. */
  predicate Plain(info: ConnectInfo) {
    && info.id.Some? && info.id.value != [] && 0 !in info.id.value
    && 0 !in info.willTopic
  }

  function ConnectPacket(info: ConnectInfo): seq<byte>
    requires info.id.Some?
  {
    Build(CONNECT, 0, 0, 0, ConnectBody(info))
  }

  /** The will is one that the broker takes; without data it has to have something behind it. */
  predicate WillOk(info: ConnectInfo) {
    info.willTopic != [] ==>
      !HasWildcards(info.willTopic) && !Head(info.willTopic, DOLLAR) && (info.willData != [] || Credentials(info) != [])
  }

  predicate CredentialsOk(info: ConnectInfo) {
    info.password != [] ==> info.user != []
  }

  /** What the broker is to keep of the will. */
  function WillOf(info: ConnectInfo): Will
    requires |info.willData| < 0x1_0000
  {
    if info.willTopic == [] then NO_WILL
    else Will(Some(info.willTopic), info.willData, info.willRetain, info.willQos % 4)
  }

  // ---------------------------------------------------------------- the flags

  /** Each flag of the packet reads back. */
  lemma FlagsReadBack(info: ConnectInfo)
    ensures var flags := ConnectFlags(info);
            && (flags / 2 % 2 == 1 <==> info.cleanSession)
            && (flags / 4 % 2 == 1 <==> info.willTopic != [])
            && flags / 8 % 4 == (if info.willTopic == [] then 0 else info.willQos % 4)
            && (flags / 0x20 % 2 == 1 <==> info.willTopic != [] && info.willRetain)
            && (flags / 0x40 % 2 == 1 <==> info.password != [])
            && (flags / 0x80 == 1 <==> info.user != [])
  {
    var clean := if info.cleanSession then 1 else 0;
    var will := if info.willTopic == [] then 0 else 1;
    var qos := if info.willTopic == [] then 0 else info.willQos % 4;
    var retain := if info.willTopic != [] && info.willRetain then 1 else 0;
    var password := if info.password == [] then 0 else 1;
    var user := if info.user == [] then 0 else 1;
    BitFields(ConnectFlags(info), clean, will, qos, retain, password, user);
  }

  lemma BitFields(flags: int, clean: int, will: int, qos: int, retain: int, password: int, user: int)
    requires 0 <= clean < 2 && 0 <= will < 2 && 0 <= qos < 4 && 0 <= retain < 2 && 0 <= password < 2 && 0 <= user < 2
    requires flags == 2 * clean + 4 * will + 8 * qos + 0x20 * retain + 0x40 * password + 0x80 * user
    ensures flags / 2 % 2 == clean && flags / 4 % 2 == will && flags / 8 % 4 == qos
    ensures flags / 0x20 % 2 == retain && flags / 0x40 % 2 == password && flags / 0x80 == user
  {
    assert flags / 2 == clean + 2 * (will + 2 * qos + 8 * retain + 0x10 * password + 0x20 * user);
    assert flags / 4 == will + 2 * (qos + 4 * retain + 8 * password + 0x10 * user);
    assert flags / 8 == qos + 4 * (retain + 2 * password + 4 * user);
    assert flags / 0x20 == retain + 2 * (password + 2 * user);
    assert flags / 0x40 == password + 2 * user;
  }

  // ---------------------------------------------------------------- the fields

  /** The fields `more` start behind `used` bytes of a packet of `len` bytes. */
  predicate FieldsAt(buf: InBuffer, len: nat, used: nat, more: seq<byte>) {
    2 + used <= len <= BUF && buf[2 + used..len] == more
  }

  /** One field is read, and the next ones are behind it. */
  lemma FieldReads(buf: InBuffer, len: nat, used: nat, s: seq<byte>, more: seq<byte>)
    requires FieldsAt(buf, len, used, Str(s) + more)
    ensures StrAt(buf, 2 + used, Rest(len, used)) == if s == [] && more == [] then None else Some(|s|)
    ensures buf[4 + used..4 + used + |s|] == s
    ensures FieldsAt(buf, len, used + 2 + |s|, more)
  {
    StrReadsBack(buf, 2 + used, s, more);
  }

  /** The will, once it is known where its two strings are. */
  lemma WillBetween(buf: InBuffer, len: nat, flags: byte, used: nat, topic: seq<byte>, n: Option<nat>)
    requires flags / 4 % 2 == 1 && CStr(topic) == topic
    requires StrAt(buf, 2 + used, Rest(len, used)) == Some(|topic|) && buf[4 + used..4 + used + |topic|] == topic
    requires var used' := used + 2 + |topic|; StrAt(buf, 2 + used', Rest(len, used')) == n
    ensures var used' := used + 2 + |topic|;
            var w := ReadWill(buf, len, flags, used);
            && (w.ok <==> !HasWildcards(topic) && !Head(topic, DOLLAR) && n.Some?)
            && (w.ok ==> w.used == used' + 2 + n.value
                         && w.will == Will(Some(topic), buf[4 + used'..4 + used' + n.value], flags / 0x20 % 2 == 1, flags / 8 % 4))
  {
  }

  lemma WillFieldsRead(buf: InBuffer, len: nat, flags: byte, used: nat, topic: seq<byte>, data: seq<byte>, more: seq<byte>)
    requires flags / 4 % 2 == 1 && 0 !in topic
    requires FieldsAt(buf, len, used, Str(topic) + (Str(data) + more))
    ensures |data| < 0x1_0000
    ensures var w := ReadWill(buf, len, flags, used);
            && (w.ok <==> !HasWildcards(topic) && !Head(topic, DOLLAR) && (data != [] || more != []))
            && (w.ok ==> FieldsAt(buf, len, w.used, more)
                         && w.will == Will(Some(topic), data, flags / 0x20 % 2 == 1, flags / 8 % 4))
  {
    FieldReads(buf, len, used, topic, Str(data) + more);
    FieldReads(buf, len, used + 2 + |topic|, data, more);
    WillBetween(buf, len, flags, used, topic, if data == [] && more == [] then None else Some(|data|));
  }

  /** The will reads back, if it is one that the broker takes. */
  lemma WillReads(buf: InBuffer, len: nat, used: nat, info: ConnectInfo)
    requires FieldsAt(buf, len, used, WillFields(info) + Credentials(info)) && 0 !in info.willTopic
    ensures |info.willData| < 0x1_0000 || info.willTopic == []
    ensures var w := ReadWill(buf, len, ConnectFlags(info), used);
            && (w.ok <==> WillOk(info))
            && (w.ok ==> FieldsAt(buf, len, w.used, Credentials(info)))
            && (w.ok && info.willTopic == [] ==> w.will == NO_WILL)
            && (w.ok && info.willTopic != [] ==> w.will == WillOf(info))
  {
    FlagsReadBack(info);
    if info.willTopic == [] {
      assert [] + Credentials(info) == Credentials(info);
    } else {
      Associate(Str(info.willTopic), Str(info.willData), Credentials(info));
      WillFieldsRead(buf, len, ConnectFlags(info), used, info.willTopic, info.willData, Credentials(info));
    }
  }

  /** Without the will flag there is no will; its QoS and retain flag are then to be zero (section 3.1.2.6 of MQTT 3.1.1). */
  lemma NoWillReads(buf: InBuffer, len: nat, flags: byte, used: nat)
    requires flags / 4 % 2 == 0
    ensures var w := ReadWill(buf, len, flags, used);
            && (w.ok <==> flags / 8 % 4 == 0 && flags / 0x20 % 2 == 0)
            && w.used == used && w.will.topic == None && (w.ok ==> w.will == NO_WILL)
  {
  }

  /** A field that its flag announces and that is not there, at the end of the packet. */
  lemma MissingFields(buf: InBuffer, len: nat, flags: byte, used: nat, s: seq<byte>)
    requires FieldsAt(buf, len, used, s)
    ensures s == [] && flags / 4 % 2 == 1 ==> !ReadWill(buf, len, flags, used).ok
    ensures s == [] && flags / 0x80 == 1 ==> !ReadCredentials(buf, len, flags, used)
    ensures forall field :: s == Str(field) && flags / 4 % 2 == 1 ==> !ReadWill(buf, len, flags, used).ok
    ensures forall field :: s == Str(field) && flags / 0x40 == 3 ==> !ReadCredentials(buf, len, flags, used)
  {
    forall field | s == Str(field) && (flags / 4 % 2 == 1 || flags / 0x40 == 3)
      ensures flags / 4 % 2 == 1 ==> !ReadWill(buf, len, flags, used).ok
      ensures flags / 0x40 == 3 ==> !ReadCredentials(buf, len, flags, used)
    {
      assert s == Str(field) + [];
      FieldReads(buf, len, used, field, []);
    }
  }

  lemma CredentialsRead(buf: InBuffer, len: nat, used: nat, info: ConnectInfo)
    requires FieldsAt(buf, len, used, Credentials(info))
    ensures ReadCredentials(buf, len, ConnectFlags(info), used) <==> CredentialsOk(info)
  {
    FlagsReadBack(info);
    if info.user != [] {
      FieldReads(buf, len, used, info.user, OptionalStr(info.password));
      if info.password != [] {
        assert OptionalStr(info.password) == Str(info.password) + [];
        FieldReads(buf, len, used + 2 + |info.user|, info.password, []);
      }
    }
  }

  lemma HeadFields(buf: InBuffer, len: nat, head: seq<byte>, rest: seq<byte>)
    requires |head| == 10 && 12 <= len <= BUF && buf[2..len] == head + rest
    ensures buf[2..9] == head[..7] && buf[9] == head[7] && buf[10] == head[8] && buf[11] == head[9]
    ensures buf[12..len] == rest
  {
    assert buf[2..len][..10] == head && buf[2..len][10..] == rest;
    Slice(buf, 2, len, 2, 12);
    Slice(buf, 2, len, 12, len);
    assert buf[2..12] == head;
    assert buf[2..12][7] == buf[9] && buf[2..12][8] == buf[10] && buf[2..12][9] == buf[11];
    Slice(buf, 2, 12, 2, 9);
  }

  lemma KeepaliveReads(k: nat)
    ensures k / 0x100 % 0x100 * 0x100 + k % 0x100 == k % 0x1_0000
  {
    var q, low := k / 0x1_0000, k % 0x1_0000;
    assert k == 0x100 * (0x100 * q + low / 0x100) + low % 0x100;
    assert k / 0x100 == 0x100 * q + low / 0x100 && k % 0x100 == low % 0x100;
  }

  /** Behind a one-byte length field the protocol, flags and keep-alive are where the broker looks. */
  lemma HeadAt(buf: InBuffer, flags: byte, keepalive: nat, rest: seq<byte>)
    requires |rest| <= 117 && Build(CONNECT, 0, 0, 0, ConnectHead(flags, keepalive) + rest) <= buf
    ensures |Build(CONNECT, 0, 0, 0, ConnectHead(flags, keepalive) + rest)| == 12 + |rest|
    ensures ReadConnectHeader(buf) == Some(ConnectHeader(4, 10, flags, keepalive % 0x1_0000))
    ensures FieldsAt(buf, 12 + |rest|, 10, rest)
  {
    var head := ConnectHead(flags, keepalive);
    BodyAt(buf, head + rest);
    HeadFields(buf, 12 + |rest|, head, rest);
    assert head[..7] == [0, 4, 'M' as int, 'Q' as int, 'T' as int, 'T' as int, 4];
    KeepaliveReads(keepalive);
  }

  lemma HeadReads(buf: InBuffer, info: ConnectInfo)
    requires info.id.Some? && |ConnectBody(info)| <= 127 && ConnectPacket(info) <= buf
    ensures var len := |ConnectPacket(info)|;
            && len == 2 + |ConnectBody(info)|
            && ReadConnectHeader(buf) == Some(ConnectHeader(4, 10, ConnectFlags(info), info.keepalive % 0x1_0000))
            && FieldsAt(buf, len, 10, Str(IdBytes(info)) + (WillFields(info) + Credentials(info)))
  {
    HeadAt(buf, ConnectFlags(info), info.keepalive, Str(IdBytes(info)) + (WillFields(info) + Credentials(info)));
  }

  lemma BodyAt(buf: InBuffer, body: seq<byte>)
    requires |body| <= 127 && Build(CONNECT, 0, 0, 0, body) <= buf
    ensures |Build(CONNECT, 0, 0, 0, body)| == 2 + |body| <= BUF && buf[2..2 + |body|] == body
  {
    var p := Build(CONNECT, 0, 0, 0, body);
    assert p[2..] == body;
    assert buf[..|p|] == p;
    Slice(buf, 0, |p|, 2, |p|);
  }

  /** A two-byte length field puts all of it one byte further: no protocol is recognised. */
  lemma LongHeadIsMissed(buf: InBuffer, body: seq<byte>)
    requires 127 < |body| && Build(CONNECT, 0, 0, 0, body) <= buf
    ensures |Build(CONNECT, 0, 0, 0, body)| == 3 + |body|
    ensures ReadConnectHeader(buf) == None
  {
    var p := Build(CONNECT, 0, 0, 0, body);
    assert p[2] == |body| / 128 != 0;
    assert buf[2] != 0;
    assert buf[2..9][0] == buf[2] && buf[2..11][0] == buf[2];
  }

  // ---------------------------------------------------------------- the broker

  /** Taking over an older connection with that id leaves the new one. */
  lemma TakeoverStays(b: Broker, h: nat, key: seq<byte>, mem: Mem)
    requires Inv(b) && Has(b, h) && Get(b, h).id != key
    ensures var b' := DeleteById(b, key, mem);
            Inv(b') && Has(b', h) && Fed(Get(b, h), Get(b', h))
  {
    DeleteByIdKeeps(b, h, key, mem);
    OthersOutlive(b, key, h, mem);
  }

  /** What an accepted connection has of the packet it was opened with. */
  predicate Opened(c: Client, info: ConnectInfo) {
    && c.state == MqttData && info.id == Some(c.id)
    && c.cleanSession == info.cleanSession && c.keepalive == info.keepalive % 0x1_0000
    && (if info.willTopic == [] then c.will == NO_WILL else |info.willData| < 0x1_0000 && c.will == WillOf(info))
  }

  /**
   * A CONNECT with nothing wrong is accepted with return code 0, or refused with 5 if the
   * callback says no; the client is then to be disconnected, and its will is forgotten.
   */
  ghost predicate Decided(c: Client, r: Handled, info: ConnectInfo, auth: bool) {
    && r.Continue? && Has(r.b, c.h)
    && Answered(c, Get(r.b, c.h), if auth then 0 else 5)
    && (auth ==> Opened(Get(r.b, c.h), info))
  }

  /** Refused with a CONNACK that says why. */
  ghost predicate Refused(c: Client, r: Handled, code: byte) {
    r.Continue? && Has(r.b, c.h) && code != 0 && Answered(c, Get(r.b, c.h), code)
  }

  /** The record after the id has been read, when nothing is wrong with it. */
  lemma RestIsAccepted(b: Broker, h: nat, len: Count, info: ConnectInfo, f: IdField, inp: Input)
    requires Inv(b) && Has(b, h) && Get(b, h).state == TcpConnected
    requires info.id == Some(f.id) && 0 !in info.willTopic
    requires FieldsAt(Get(b, h).inBuf, len, f.used, WillFields(info) + Credentials(info))
    requires Get(b, h).cleanSession == info.cleanSession && Get(b, h).keepalive == info.keepalive % 0x1_0000
    ensures var hd := ConnectHeader(4, 10, ConnectFlags(info), info.keepalive % 0x1_0000);
            var r := AfterId(b, h, len, hd, f, inp);
            if WillOk(info) && CredentialsOk(info)
            then r.Continue? && Has(r.b, h) && (inp.auth ==> Opened(Get(r.b, h), info))
            else r.Closed? && !Has(r.b, h)
  {
    var hd := ConnectHeader(4, 10, ConnectFlags(info), info.keepalive % 0x1_0000);
    var c := Get(b, h);
    var w := ReadWill(c.inBuf, len, hd.flags, f.used);
    WillReads(c.inBuf, len, f.used, info);
    if w.ok {
      CredentialsRead(c.inBuf, len, w.used, info);
    }
    AfterIdSound(b, h, len, hd, f, inp);
    if w.ok && CredentialsOk(info) && inp.auth {
      var c1 := c.(id := f.id, will := w.will);
      PutShape(b, h, c1);
      ConnackState(Put(b, h, c1), h);
    }
  }

  lemma ConnackState(b: Broker, h: nat)
    requires Has(b, h)
    ensures var r := Connack(b, h, ACCEPTED);
            && Has(r.b, h) && Get(r.b, h).state == MqttData && Get(r.b, h).id == Get(b, h).id
            && Get(r.b, h).will == Get(b, h).will && Get(r.b, h).cleanSession == Get(b, h).cleanSession
            && Get(r.b, h).keepalive == Get(b, h).keepalive
  {
    var c := Get(b, h);
    PutGet(b, h, Enqueue(c.(state := MqttData), Build(CONNACK, 0, 0, 0, [0, ACCEPTED])));
  }

  lemma IdReads(buf: InBuffer, len: nat, info: ConnectInfo, hd: ConnectHeader)
    requires Plain(info) && hd.version == 4 && hd.size == 10
    requires FieldsAt(buf, len, 10, Str(info.id.value) + (WillFields(info) + Credentials(info)))
    ensures var id := info.id.value;
            if 80 < |id| then ReadId(buf, len, hd) == None
            else
              && ReadId(buf, len, hd) == Some(IdField(id, Some(CStr(buf[14..])), 12 + |id|))
              && CStr(buf[14..]) != []
              && FieldsAt(buf, len, 12 + |id|, WillFields(info) + Credentials(info))
  {
    var id, more := info.id.value, WillFields(info) + Credentials(info);
    FieldReads(buf, len, 10, id, more);
    CStrOfPlain(id);
    assert buf[14..14 + |id|][0] == id[0] && buf[14..][0] == buf[14];
    assert id[0] != 0;
  }

  /**
   * A CONNECT of mqtt_msg_connect with a client id, at the head of in_buffer, is accepted if
   * and only if its Remaining Length takes one byte, the id has at most 80 bytes, the will is
   * one that the broker takes, and a password comes with a user name. The broker then knows
   * what the packet says. A longer packet, or a longer id, is refused with code 1 or 2; with a
   * bad will or a password alone the connection is closed without an answer. If the callback
   * says no to what would be accepted, that is refused with code 5.
   */
  lemma ConnectRoundTrip(b: Broker, h: nat, info: ConnectInfo, inp: Input)
    requires Inv(b) && Has(b, h) && Get(b, h).state == TcpConnected && Get(b, h).id == []
    requires Plain(info) && ConnectPacket(info) <= Get(b, h).inBuf
    ensures 13 <= |ConnectPacket(info)| <= BUF
    ensures var r := HandleConnect(b, h, |ConnectPacket(info)|, inp);
            if 127 < |ConnectBody(info)| then Refused(Get(b, h), r, 1)
            else if 80 < |info.id.value| then Refused(Get(b, h), r, 2)
            else if WillOk(info) && CredentialsOk(info) then Decided(Get(b, h), r, info, inp.auth)
            else r.Closed? && !Has(r.b, h)
  {
    var c, len := Get(b, h), |ConnectPacket(info)|;
    assert |ConnectBody(info)| >= 13;
    if 127 < |ConnectBody(info)| {
      LongHeadIsMissed(c.inBuf, ConnectBody(info));
      ConnackAnswers(b, h, 1);
    } else {
      var hd := ConnectHeader(4, 10, ConnectFlags(info), info.keepalive % 0x1_0000);
      HeadReads(c.inBuf, info);
      IdReads(c.inBuf, len, info, hd);
      FlagsReadBack(info);
      var c1 := c.(cleanSession := info.cleanSession, keepalive := hd.keepalive);
      PutKeeps(b, h, c1, None);
      PutShape(b, h, c1);
      var b1 := Put(b, h, c1);
      if 80 < |info.id.value| {
        UnreadIdIsRefused(b, h, len, hd, inp);
      } else {
        ShortIdRoundTrip(b, h, b1, len, info, inp);
      }
    }
  }

  lemma ShortIdRoundTrip(b: Broker, h: nat, b1: Broker, len: Count, info: ConnectInfo, inp: Input)
    requires Inv(b) && Has(b, h) && Get(b, h).state == TcpConnected && Inv(b1) && Has(b1, h) && Get(b1, h).state == TcpConnected && Get(b1, h).id == []
    requires b1 == Put(b, h, Get(b1, h))
    requires Get(b1, h) == Get(b, h).(cleanSession := info.cleanSession, keepalive := info.keepalive % 0x1_0000)
    requires var hd := ConnectHeader(4, 10, ConnectFlags(info), info.keepalive % 0x1_0000);
             && ReadConnectHeader(Get(b, h).inBuf) == Some(hd) && Plain(info) && |info.id.value| <= 80 && 13 <= len
             && ReadId(Get(b, h).inBuf, len, hd) == Some(IdField(info.id.value, Some(CStr(Get(b, h).inBuf[14..])), 12 + |info.id.value|))
             && CStr(Get(b, h).inBuf[14..]) != []
             && FieldsAt(Get(b, h).inBuf, len, 12 + |info.id.value|, WillFields(info) + Credentials(info))
    ensures var r := HandleConnect(b, h, len, inp);
            if WillOk(info) && CredentialsOk(info) then Decided(Get(b, h), r, info, inp.auth)
            else r.Closed? && !Has(r.b, h)
  {
    var buf := Get(b, h).inBuf;
    var hd := ConnectHeader(4, 10, ConnectFlags(info), info.keepalive % 0x1_0000);
    var f := IdField(info.id.value, Some(CStr(buf[14..])), 12 + |info.id.value|);
    FlagsReadBack(info);
    TakeoverStays(b1, h, CStr(buf[14..]), inp.takeover);
    var b2 := DeleteById(b1, CStr(buf[14..]), inp.takeover);
    RestIsAccepted(b2, h, len, info, f, inp);
    ConnectGoesOn(b, h, len, hd, f, inp);
    if WillOk(info) && CredentialsOk(info) {
      ConnectIsAnswered(b, h, len, inp);
    }
  }

  // ---------------------------------------------------------------- an empty client id

  lemma EmptyIdReads(buf: InBuffer, len: nat, info: ConnectInfo, hd: ConnectHeader)
    requires info.id == Some([]) && hd.size == 10
    requires FieldsAt(buf, len, 10, Str(IdBytes(info)) + (WillFields(info) + Credentials(info)))
    ensures ReadId(buf, len, hd) == Some(IdField([], Some([]), 14))
    ensures FieldsAt(buf, len, 14, WillFields(info) + Credentials(info))
  {
    FieldReads(buf, len, 10, IdBytes(info), WillFields(info) + Credentials(info));
    assert buf[14..16] == [0, info.beyond];
    assert buf[14..16][0] == buf[14] == 0;
    assert buf[14..][0] == buf[14];
  }

  /**
   * An empty client id is written by mqtt_msg_connect as two bytes of memory, the first zero.
   * The broker takes that for an id to look up: the newest connection without an id, accepted
   * or not, is removed. When that is a newer one, the CONNECT is answered, by what the callback
   * says, if and only if will and credentials are in order; otherwise it is the connection
   * itself, and a fault.
   */
  lemma EmptyIdExact(b: Broker, h: nat, info: ConnectInfo, inp: Input)
    requires Inv(b) && Has(b, h) && Get(b, h).state == TcpConnected && Get(b, h).id == []
    requires info.id == Some([]) && 0 !in info.willTopic && ConnectPacket(info) <= Get(b, h).inBuf
    ensures AtId(b.clients, []) <= At(b.clients, h) && 13 <= |ConnectPacket(info)| <= BUF
    ensures var i := AtId(b.clients, []);
            var r := HandleConnect(b, h, |ConnectPacket(info)|, inp);
            if 127 < |ConnectBody(info)| then Refused(Get(b, h), r, 1)
            else
              && !Has(r.b, b.clients[i].h)
              && (if i == At(b.clients, h) then r.Closed? && r.b.fault
                  else if WillOk(info) && CredentialsOk(info) then Decided(Get(b, h), r, info, inp.auth)
                  else r.Closed? && !Has(r.b, h))
  {
    FirstNameless(b, h);
    if 127 < |ConnectBody(info)| {
      LongHeadIsMissed(Get(b, h).inBuf, ConnectBody(info));
      ConnackAnswers(b, h, 1);
    } else {
      HeadReads(Get(b, h).inBuf, info);
      EmptyIdHandled(b, h, |ConnectPacket(info)|, info, inp);
    }
  }

  lemma FirstNameless(b: Broker, h: nat)
    requires Has(b, h) && Get(b, h).id == []
    ensures AtId(b.clients, []) <= At(b.clients, h)
  {
  }

  /** HandleConnect for MQTT 3.1.1, when header and id have been read. */
  lemma ConnectGoesOn(b: Broker, h: nat, len: nat, hd: ConnectHeader, f: IdField, inp: Input)
    requires Has(b, h) && 13 <= len && hd.version == 4
    requires ReadConnectHeader(Get(b, h).inBuf) == Some(hd) && ReadId(Get(b, h).inBuf, len, hd) == Some(f)
    ensures var b1 := Put(b, h, Get(b, h).(cleanSession := hd.flags / 2 % 2 == 1, keepalive := hd.keepalive));
            var b2 := if f.key.Some? then DeleteById(b1, f.key.value, inp.takeover) else b1;
            HandleConnect(b, h, len, inp) ==
            if Has(b2, h) then AfterId(b2, h, len, hd, f, inp) else Closed(b2.(fault := true))
  {
  }

  lemma EmptyIdHandled(b: Broker, h: nat, len: Count, info: ConnectInfo, inp: Input)
    requires Inv(b) && Has(b, h) && Get(b, h).state == TcpConnected && Get(b, h).id == []
    requires info.id == Some([]) && 0 !in info.willTopic && 13 <= len
    requires ReadConnectHeader(Get(b, h).inBuf) == Some(ConnectHeader(4, 10, ConnectFlags(info), info.keepalive % 0x1_0000))
    requires FieldsAt(Get(b, h).inBuf, len, 10, Str(IdBytes(info)) + (WillFields(info) + Credentials(info)))
    ensures var i := AtId(b.clients, []);
            var r := HandleConnect(b, h, len, inp);
            && i <= At(b.clients, h) && !Has(r.b, b.clients[i].h)
            && (if i == At(b.clients, h) then r.Closed? && r.b.fault
                else if WillOk(info) && CredentialsOk(info) then Decided(Get(b, h), r, info, inp.auth)
                else r.Closed? && !Has(r.b, h))
  {
    var c := Get(b, h);
    var hd := ConnectHeader(4, 10, ConnectFlags(info), info.keepalive % 0x1_0000);
    EmptyIdReads(c.inBuf, len, info, hd);
    FlagsReadBack(info);
    var c1 := c.(cleanSession := info.cleanSession, keepalive := hd.keepalive);
    PutKeeps(b, h, c1, None);
    PutShape(b, h, c1);
    SameFirst(b, h, c1);
    NamelessTakeover(Put(b, h, c1), h, len, info, inp);
    ConnectGoesOn(b, h, len, hd, IdField([], Some([]), 14), inp);
    if HandleConnect(b, h, len, inp).Continue? {
      ConnectIsAnswered(b, h, len, inp);
    }
  }

  /** The takeover under the empty id, and what follows. */
  lemma NamelessTakeover(b: Broker, h: nat, len: Count, info: ConnectInfo, inp: Input)
    requires Inv(b) && Has(b, h) && Get(b, h).state == TcpConnected && Get(b, h).id == []
    requires info.id == Some([]) && 0 !in info.willTopic
    requires FieldsAt(Get(b, h).inBuf, len, 14, WillFields(info) + Credentials(info))
    requires Get(b, h).cleanSession == info.cleanSession && Get(b, h).keepalive == info.keepalive % 0x1_0000
    ensures var i := AtId(b.clients, []);
            var hd := ConnectHeader(4, 10, ConnectFlags(info), info.keepalive % 0x1_0000);
            var b2 := DeleteById(b, [], inp.takeover);
            && i <= At(b.clients, h) && (Has(b2, h) <==> i != At(b.clients, h)) && !Has(b2, b.clients[i].h)
            && (Has(b2, h) ==>
                  var r := AfterId(b2, h, len, hd, IdField([], Some([]), 14), inp);
                  && !Has(r.b, b.clients[i].h)
                  && if WillOk(info) && CredentialsOk(info)
                     then r.Continue? && Has(r.b, h) && (inp.auth ==> Opened(Get(r.b, h), info))
                     else r.Closed? && !Has(r.b, h))
  {
    var i := AtId(b.clients, []);
    var g := b.clients[i].h;
    AtIs(b.clients, g, i);
    DeleteKeeps(b, g, inp.takeover);
    if g != h {
      OtherStays(b, g, h, inp.takeover);
      var f := IdField([], Some([]), 14);
      var b2 := DeleteById(b, [], inp.takeover);
      RestIsAccepted(b2, h, len, info, f, inp);
      AfterIdSound(b2, h, len, ConnectHeader(4, 10, ConnectFlags(info), info.keepalive % 0x1_0000), f, inp);
    }
  }

  lemma SameFirst(b: Broker, h: nat, c: Client)
    requires Has(b, h) && c.id == Get(b, h).id && c.h == h
    ensures var cs' := Put(b, h, c).clients;
            && AtId(cs', []) == AtId(b.clients, []) && |cs'| == |b.clients| && At(cs', h) == At(b.clients, h)
            && (forall j :: 0 <= j < |cs'| ==> cs'[j].h == b.clients[j].h)
  {
    var cs, cs' := b.clients, Put(b, h, c).clients;
    PutGet(b, h, c);
    assert forall j :: 0 <= j < |cs| ==> cs'[j].id == cs[j].id;
  }

  /** An empty id is read exactly when something follows it, the session is clean and the version 3.1.1. */
  lemma EmptyIdRead(buf: InBuffer, len: nat, hd: ConnectHeader, more: seq<byte>)
    requires FieldsAt(buf, len, hd.size, Str([]) + more)
    ensures ReadId(buf, len, hd) ==
            if more != [] && hd.version != 3 && hd.flags / 2 % 2 == 1 then Some(IdField([], None, hd.size + 2)) else None
  {
    FieldReads(buf, len, hd.size, [], more);
  }

  lemma UnreadIdHandled(b: Broker, h: nat, len: nat, hd: ConnectHeader, inp: Input)
    requires Has(b, h) && 13 <= len && hd.version == 4
    requires ReadConnectHeader(Get(b, h).inBuf) == Some(hd) && ReadId(Get(b, h).inBuf, len, hd) == None
    ensures var c1 := Get(b, h).(cleanSession := hd.flags / 2 % 2 == 1, keepalive := hd.keepalive);
            Has(Put(b, h, c1), h) && HandleConnect(b, h, len, inp) == Connack(Put(b, h, c1), h, 2)
  {
    PutGet(b, h, Get(b, h).(cleanSession := hd.flags / 2 % 2 == 1, keepalive := hd.keepalive));
  }

  lemma RefusedAfter(b: Broker, h: nat, c1: Client, r: Handled)
    requires Has(b, h) && c1 == Get(b, h).(cleanSession := c1.cleanSession, keepalive := c1.keepalive)
    requires Has(Put(b, h, c1), h) && r == Connack(Put(b, h, c1), h, 2)
    ensures Refused(Get(b, h), r, 2) && r.b == Put(b, h, Get(r.b, h))
  {
    PutGet(b, h, c1);
    ConnackAnswers(Put(b, h, c1), h, 2);
    AnsweredAfter(Get(b, h), c1, Get(r.b, h), 2);
  }

  lemma UnreadIdIsRefused(b: Broker, h: nat, len: nat, hd: ConnectHeader, inp: Input)
    requires Has(b, h) && 13 <= len && hd.version == 4
    requires ReadConnectHeader(Get(b, h).inBuf) == Some(hd) && ReadId(Get(b, h).inBuf, len, hd) == None
    ensures var r := HandleConnect(b, h, len, inp);
            Refused(Get(b, h), r, 2) && r.b == Put(b, h, Get(r.b, h))
  {
    UnreadIdHandled(b, h, len, hd, inp);
    RefusedAfter(b, h, Get(b, h).(cleanSession := hd.flags / 2 % 2 == 1, keepalive := hd.keepalive), HandleConnect(b, h, len, inp));
  }

  /**
   * The shortest CONNECT there can be: an empty client id ends it. Section 3.1.3.1 of MQTT 3.1.1
   * allows it with a clean session; the broker refuses it with or without, and that with code 2.
   */
  lemma LastEmptyIdIsRefused(b: Broker, h: nat, flags: byte, keepalive: word, inp: Input)
    requires Has(b, h) && Build(CONNECT, 0, 0, 0, ConnectHead(flags, keepalive) + Str([])) <= Get(b, h).inBuf
    ensures var r := HandleConnect(b, h, 14, inp);
            Refused(Get(b, h), r, 2) && r.b == Put(b, h, Get(r.b, h))
  {
    var buf := Get(b, h).inBuf;
    HeadAt(buf, flags, keepalive, Str([]));
    assert Str([]) + [] == Str([]);
    EmptyIdRead(buf, 14, ConnectHeader(4, 10, flags, keepalive), []);
    UnreadIdIsRefused(b, h, 14, ConnectHeader(4, 10, flags, keepalive), inp);
  }

  // ---------------------------------------------------------------- which CONNECTs are answered at all

  /** A connection is removed by its own takeover exactly when it is the first that has the id. */
  lemma TakeoverRemoves(b: Broker, h: nat, key: seq<byte>, mem: Mem)
    requires Inv(b) && Has(b, h)
    ensures Has(DeleteById(b, key, mem), h) <==> AtId(b.clients, key) != At(b.clients, h)
  {
    var i := AtId(b.clients, key);
    if i < |b.clients| {
      var g := b.clients[i].h;
      AtIs(b.clients, g, i);
      DeleteKeeps(b, g, mem);
      if g != h {
        OtherStays(b, g, h, mem);
      }
    }
  }

  /** The fields behind the id are in order. */
  predicate RestOk(buf: InBuffer, len: nat, flags: byte, used: nat) {
    var w := ReadWill(buf, len, flags, used);
    w.ok && ReadCredentials(buf, len, flags, w.used)
  }

  /** Long enough; and of a known protocol and with an id only if nothing is wrong behind it, and it does not remove itself. */
  predicate Answerable(b: Broker, h: nat, len: nat)
    requires Has(b, h)
  {
    var buf := Get(b, h).inBuf;
    13 <= len &&
    match ReadConnectHeader(buf)
    case None => true
    case Some(hd) =>
      match ReadId(buf, len, hd)
      case None => true
      case Some(f) =>
        && (f.key.Some? ==> AtId(b.clients, f.key.value) != At(b.clients, h))
        && RestOk(buf, len, hd.flags, f.used)
  }

  lemma SameFirstId(b: Broker, h: nat, c: Client, key: seq<byte>)
    requires Has(b, h) && c.id == Get(b, h).id && c.h == h
    ensures AtId(Put(b, h, c).clients, key) == AtId(b.clients, key) && At(Put(b, h, c).clients, h) == At(b.clients, h)
  {
    PutGet(b, h, c);
    var cs, cs' := b.clients, Put(b, h, c).clients;
    assert forall j :: 0 <= j < |cs| ==> cs'[j].id == cs[j].id;
  }

  /** Once the id is read. */
  lemma RestAnswerable(b: Broker, h: nat, len: Count, hd: ConnectHeader, f: IdField, buf: InBuffer, inp: Input)
    requires Inv(b) && Has(b, h) && Get(b, h).state == TcpConnected
    requires ReadConnectHeader(buf) == Some(hd) && ReadId(buf, len, hd) == Some(f)
    requires Get(b, h).inBuf == ShiftHeader(buf, hd.version)
    ensures var b2 := if f.key.Some? then DeleteById(b, f.key.value, inp.takeover) else b;
            (Has(b2, h) && AfterId(b2, h, len, hd, f, inp).Continue?) <==>
            ((f.key.Some? ==> AtId(b.clients, f.key.value) != At(b.clients, h)) && RestOk(buf, len, hd.flags, f.used))
  {
    var b2 := if f.key.Some? then DeleteById(b, f.key.value, inp.takeover) else b;
    if f.key.Some? {
      TakeoverRemoves(b, h, f.key.value, inp.takeover);
      DeleteByIdKeeps(b, h, f.key.value, inp.takeover);
    }
    if Has(b2, h) {
      AfterIdSound(b2, h, len, hd, f, inp);
      ReadsPastHeader(buf, len, hd, f);
    }
  }

  /**
   * A CONNECT is answered, with the code of ConnectIsAnswered, if and only if it has 13 bytes,
   * and, as far as protocol and id can be read, will and credentials are well-formed and the
   * connection is not the first with the id that it takes over. Otherwise it is closed unanswered.
   */
  lemma AnsweredExactly(b: Broker, h: nat, len: Count, inp: Input)
    requires Inv(b) && Has(b, h) && Get(b, h).state == TcpConnected
    ensures HandleConnect(b, h, len, inp).Continue? <==> Answerable(b, h, len)
  {
    var c := Get(b, h);
    if 13 <= len && ReadConnectHeader(c.inBuf).Some? {
      var hd := ReadConnectHeader(c.inBuf).value;
      var c1 := c.(inBuf := ShiftHeader(c.inBuf, hd.version),
                   cleanSession := hd.flags / 2 % 2 == 1, keepalive := hd.keepalive);
      PutKeeps(b, h, c1, None);
      PutGet(b, h, c1);
      var f := ReadId(c.inBuf, len, hd);
      if f.Some? {
        if f.value.key.Some? {
          SameFirstId(b, h, c1, f.value.key.value);
        }
        RestAnswerable(Put(b, h, c1), h, len, hd, f.value, c.inBuf, inp);
      }
    }
  }

  // ---------------------------------------------------------------- two connections with one id

  /** PINGREQ. */
  const PING: seq<byte> := [0xC0, 0]

  lemma ConnectIsWhole(info: ConnectInfo)
    requires info.id.Some? && |ConnectBody(info)| <= 127
    ensures WholePacket(ConnectPacket(info)) && |ConnectPacket(info)| == 2 + |ConnectBody(info)|
  {
    var p := ConnectPacket(info);
    HeaderReadsBack(CONNECT, 0, 0, 0, ConnectBody(info), p, |p|);
    assert p[1] < 0x80;
  }

  /** What is compared reads on from the id into the packet that follows. */
  lemma KeyReadsOn(buf: InBuffer, len: nat, id: seq<byte>)
    requires 14 + |id| < BUF && buf[14..14 + |id|] == id && buf[14 + |id|] != 0 && 0 !in id
    ensures CStr(buf[14..]) != id
  {
    var rest := buf[14..];
    assert rest[|id|] == buf[14 + |id|];
    assert forall i :: 0 <= i < |id| ==> rest[i] == buf[14..14 + |id|][i];
    assert IndexOf(rest, 0) > |id|;
  }

  /** A CONNECT without will and credentials: its id is the last field. */
  predicate IdIsLast(info: ConnectInfo) {
    && Plain(info) && |info.id.value| <= 80
    && info.willTopic == [] && info.user == [] && info.password == []
  }

  /** The CONNECT at the head of the buffer stores an id that it does not compare. */
  lemma ComparesAnother(buf: InBuffer, info: ConnectInfo)
    requires IdIsLast(info) && ConnectPacket(info) + PING <= buf
    ensures var len := |ConnectPacket(info)|;
            && StoresId(buf, len) && IdFieldOf(buf, len).id == info.id.value
            && IdFieldOf(buf, len).key.Some? && IdFieldOf(buf, len).key != Some(info.id.value)
  {
    var p, id := ConnectPacket(info), info.id.value;
    assert |ConnectBody(info)| == 12 + |id|;
    assert p <= buf && buf[|p|] == 0xC0;
    var hd := ConnectHeader(4, 10, ConnectFlags(info), info.keepalive % 0x1_0000);
    HeadReads(buf, info);
    IdReads(buf, |p|, info, hd);
    FieldReads(buf, |p|, 10, id, WillFields(info) + Credentials(info));
    KeyReadsOn(buf, |p|, id);
    NothingElse(buf, |p|, 12 + |id|, info);
  }

  lemma NothingElse(buf: InBuffer, len: nat, used: nat, info: ConnectInfo)
    requires IdIsLast(info) && FieldsAt(buf, len, used, WillFields(info) + Credentials(info))
    ensures var w := ReadWill(buf, len, ConnectFlags(info), used);
            w.ok && ReadCredentials(buf, len, ConnectFlags(info), w.used)
  {
    WillReads(buf, len, used, info);
    CredentialsRead(buf, len, ReadWill(buf, len, ConnectFlags(info), used).used, info);
  }

  /** A PINGREQ that is left in the buffer leaves the connection. */
  lemma PingStays(b: Broker, h: nat, inputs: seq<Input>)
    requires Has(b, h) && Get(b, h).state == MqttData && Get(b, h).read == 2
    requires Get(b, h).inBuf[0] == 0xC0 && Get(b, h).inBuf[1] == 0
    ensures Has(ReadPackets(b, h, inputs), h)
  {
    var c := Get(b, h);
    assert Remaining(c.inBuf, 2, 1) == 0 && ScanEnd(c.inBuf, 2, 1) == 2;
    assert MessageLength(c) == 2;
    var seen := c.(dispatched := c.dispatched + [c.inBuf[..2]]);
    PutGet(b, h, seen);
    PingHandled(Put(b, h, seen), h, NextInput(inputs));
    var b1 := Handle(Put(b, h, seen), h, 2, NextInput(inputs)).b;
    PutGet(b1, h, Finish(Get(b1, h), 2, 2));
  }

  lemma PingHandled(b: Broker, h: nat, inp: Input)
    requires Has(b, h) && Get(b, h).state == MqttData && Get(b, h).inBuf[0] == 0xC0
    ensures var r := Handle(b, h, 2, inp); r.Continue? && Has(r.b, h)
  {
    PutGet(b, h, Enqueue(Get(b, h), Build(PINGRESP, 0, 0, 0, [])));
  }

  /** After an accepted CONNECT, the loop goes on to the PINGREQ behind it. */
  lemma GoesOnToPing(b: Broker, h: nat, n: nat, inputs: seq<Input>)
    requires Has(b, h) && Get(b, h).state == MqttData && Get(b, h).read == n + 2
    requires Get(b, h).inBuf[n] == 0xC0 && Get(b, h).inBuf[n + 1] == 0
    ensures var c1 := Finish(Get(b, h), n + 2, n);
            Has(Put(b, h, c1), h) && Has(ReadPackets(Put(b, h, c1), h, inputs), h)
  {
    var c := Get(b, h);
    var c1 := Finish(c, n + 2, n);
    PutGet(b, h, c1);
    assert c.inBuf[n..n + 2][0] == c.inBuf[n] && c.inBuf[n..n + 2][1] == c.inBuf[n + 1];
    PingStays(Put(b, h, c1), h, inputs);
  }

  /**
   * Where the ids do not stay apart: another connection has the id, and a PINGREQ follows the
   * CONNECT in the same chunk. Both connections end with the same id.
   */
  lemma TwoWithOneId(b: Broker, h: nat, g: nat, info: ConnectInfo, inputs: seq<Input>)
    requires Inv(b) && IdsOk(b) && !Halted(b) && Has(b, h) && Has(b, g) && g != h
    requires Get(b, h).state == TcpConnected && Get(b, h).read == 0 && NextInput(inputs).auth
    requires IdIsLast(info) && Get(b, g).id == info.id.value
    ensures var b' := Step(b, Chunk(h, ConnectPacket(info) + PING, inputs));
            && Has(b', h) && !IdsOk(b')
            && (exists l: nat :: l != h && Has(b', l) && Get(b', l).id == Get(b', h).id != [])
  {
    var p := ConnectPacket(info);
    assert |ConnectBody(info)| == 12 + |info.id.value|;
    ConnectIsWhole(info);
    var b1 := Copied(b, h, p + PING);
    CopiedPacket(b, h, p);
    PutShape(b, h, CopyIn(Get(b, h), p + PING));
    PutKeeps(b, h, CopyIn(Get(b, h), p + PING), None);
    TakesAnothersId(b1, h, g, info);
    StaysOpen(b1, h, info, inputs);
    StepIds(b, Chunk(h, p + PING, inputs));
    Collision(b, Chunk(h, p + PING, inputs), h);
  }

  /** The CONNECT that has arrived there takes the id of another connection, which its takeover does not remove. */
  lemma TakesAnothersId(b: Broker, h: nat, g: nat, info: ConnectInfo)
    requires Has(b, h) && Has(b, g) && g != h && IdIsLast(info) && Get(b, g).id == info.id.value
    requires Get(b, h).state == TcpConnected && ConnectPacket(info) + PING <= Get(b, h).inBuf
    requires MessageLength(Get(b, h)) == |ConnectPacket(info)| <= Get(b, h).read
    ensures !FirstApart(b, h)
  {
    ComparesAnother(Get(b, h).inBuf, info);
    StartsWithConnect(Get(b, h).inBuf, ConnectBody(info), PING);
    assert !NobodyHas(b, info.id.value, h);
  }

  lemma StartsWithConnect(buf: InBuffer, body: seq<byte>, more: seq<byte>)
    requires Build(CONNECT, 0, 0, 0, body) + more <= buf
    ensures Kind(buf) == CONNECT
  {
    var p := Build(CONNECT, 0, 0, 0, body) + more;
    FirstByteIs(CONNECT, 0);
    assert p[0] == 0x10 && buf[0] == p[0];
  }

  /** Ids that collide in the connection's own step collide with its own. */
  lemma Collision(b: Broker, e: Event, h: nat)
    requires Inv(b) && IdsOk(b) && Subject(e) == Some(h) && Has(Step(b, e), h) && !IdsOk(Step(b, e))
    ensures exists l: nat :: l != h && Has(Step(b, e), l) && Get(Step(b, e), l).id == Get(Step(b, e), h).id != []
  {
    StepKeeps(b, e);
    NamelessStep(b, e);
    ApartEvolves(b, Step(b, e), h);
  }

  /** A chunk that starts with a whole packet, copied to an empty buffer. */
  lemma CopiedPacket(b: Broker, h: nat, p: seq<byte>)
    requires Has(b, h) && Get(b, h).read == 0 && WholePacket(p) && |p + PING| <= BUF
    ensures var c := Get(Copied(b, h, p + PING), h);
            && p + PING <= c.inBuf && c.read == |p| + 2 && MessageLength(c) == |p|
            && c.inBuf[|p|] == 0xC0 && c.inBuf[|p| + 1] == 0
            && c == Get(b, h).(inBuf := c.inBuf, read := c.read)
  {
    var c := Get(Copied(b, h, p + PING), h);
    assert c.inBuf[..c.read] == p + PING;
    SameLength(c);
    FirstPacket(p, PING);
    assert c.inBuf[..c.read][|p|] == 0xC0 && c.inBuf[..c.read][|p| + 1] == 0;
  }

  /** The connection is there after the CONNECT and the PINGREQ. */
  lemma StaysOpen(b: Broker, h: nat, info: ConnectInfo, inputs: seq<Input>)
    requires Inv(b) && Has(b, h) && Get(b, h).state == TcpConnected && Get(b, h).id == [] && NextInput(inputs).auth
    requires IdIsLast(info) && |ConnectBody(info)| == 12 + |info.id.value|
    requires ConnectPacket(info) + PING <= Get(b, h).inBuf
    requires var n := |ConnectPacket(info)|;
             && Get(b, h).read == n + 2 <= BUF && MessageLength(Get(b, h)) == n
             && Get(b, h).inBuf[n] == 0xC0 && Get(b, h).inBuf[n + 1] == 0
    ensures Has(ReadPackets(b, h, inputs), h)
  {
    var c, n := Get(b, h), |ConnectPacket(info)|;
    var seen := c.(dispatched := c.dispatched + [c.inBuf[..n]]);
    var b0 := Put(b, h, seen);
    PutKeeps(b, h, seen, None);
    PutShape(b, h, seen);
    ConnectRoundTrip(b0, h, info, NextInput(inputs));
    HandleSound(b0, h, n, NextInput(inputs));
    var r := Handle(b0, h, n, NextInput(inputs));
    assert Kind(c.inBuf) == CONNECT by {
      ConnectIsWhole(info);
      HeaderReadsBack(CONNECT, 0, 0, 0, ConnectBody(info), c.inBuf, n);
    }
    assert Get(r.b, h).inBuf[n..][0] == c.inBuf[n..][0] && Get(r.b, h).inBuf[n..][1] == c.inBuf[n..][1];
    GoesOnToPing(r.b, h, n, LaterInputs(inputs));
  }
}
