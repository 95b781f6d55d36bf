/**
 * The packet readers of src/mqtt_msg.c. Each looks at the first `n` bytes of a buffer `b`,
 * which may hold more than the packet: stale bytes, or the packets that follow.
 */
module Reader {
  import opened Bytes
  import opened Packet

  function Kind(b: seq<byte>): int
    requires b != []
  {
    b[0] / 16
  }

  function Qos(b: seq<byte>): int
    requires b != []
  {
    b[0] / 2 % 4
  }

  function Retain(b: seq<byte>): int
    requires b != []
  {
    b[0] % 2
  }

  // ---------------------------------------------------------------- the Remaining Length field

  /** Where the scan of the length field that has reached `i` stops. */
  function ScanEnd(b: seq<byte>, n: nat, i: nat): (e: nat)
    requires n <= |b|
    ensures i <= e && (e <= n || e == i)
    decreases n - i
  {
    if n <= i then i else if b[i] < 0x80 then i + 1 else ScanEnd(b, n, i + 1)
  }

  /** The number that the length bytes from `i` on stand for, seven bits each, low bits first. */
  function Remaining(b: seq<byte>, n: nat, i: nat): nat
    requires n <= |b|
    decreases n - i
  {
    if n <= i then 0
    else b[i] % 0x80 + (if b[i] < 0x80 then 0 else 0x80 * Remaining(b, n, i + 1))
  }

  /** mqtt_get_total_length. */
  function TotalLength(b: seq<byte>, n: nat): nat
    requires n <= |b|
  {
    Remaining(b, n, 1) + ScanEnd(b, n, 1)
  }

  lemma ScaledStep(b: seq<byte>, n: nat, i: nat, sum: nat, unit: nat, total: nat)
    requires i < n <= |b|
    requires sum + unit * Remaining(b, n, i) == total
    ensures b[i] < 0x80 ==> sum + b[i] % 0x80 * unit == total
    ensures 0x80 <= b[i] ==> sum + b[i] % 0x80 * unit + unit * 0x80 * Remaining(b, n, i + 1) == total
  {
    var low: nat := b[i] % 0x80;
    var rest := Remaining(b, n, i + 1);
    assert unit * (low + 0x80 * rest) == low * unit + unit * 0x80 * rest;
  }

  /** The loop that mqtt_get_total_length and the PUBLISH readers start with. */
  method ScanHeader(b: seq<byte>, n: nat) returns (totlen: nat, i: nat)
    requires n <= |b|
    ensures i == ScanEnd(b, n, 1)
    ensures totlen == TotalLength(b, n)
  {
    totlen := 0;
    i := 1;
    var unit: nat := 1; // 1 << 7 * (i - 1)
    while i < n
      invariant 1 <= i && (i <= n || i == 1)
      invariant ScanEnd(b, n, i) == ScanEnd(b, n, 1)
      invariant totlen + unit * Remaining(b, n, i) == Remaining(b, n, 1)
    {
      ScaledStep(b, n, i, totlen, unit, Remaining(b, n, 1));
      totlen := totlen + b[i] % 0x80 * unit;
      if b[i] < 0x80 {
        i := i + 1;
        totlen := totlen + i;
        return;
      }
      unit := unit * 0x80;
      i := i + 1;
    }
    totlen := totlen + i;
  }

  // ---------------------------------------------------------------- strings and PUBLISH

  /**
   * mqtt_get_str on the `n` bytes from `at` on: the length of the string that starts two
   * bytes further, or None.
   */
  function GetStr(b: seq<byte>, at: nat, n: nat): (r: Option<nat>)
    requires at + n <= |b|
    ensures r.Some? ==> 2 + r.value <= n
  {
    if n <= 2 then None
    else
      var len := b[at] as int * 0x100 + b[at + 1];
      if n < 2 + len then None else Some(len)
  }

  /** mqtt_get_publish_topic. */
  function PublishTopic(b: seq<byte>, n: nat): Option<seq<byte>>
    requires n <= |b|
  {
    var i := ScanEnd(b, n, 1);
    if n <= i + 2 then None
    else
      match GetStr(b, i, n - i)
      case None => None
      case Some(len) => Some(b[i + 2..i + 2 + len])
  }

  method GetPublishTopic(b: seq<byte>, n: nat) returns (topic: Option<seq<byte>>)
    requires n <= |b|
    ensures topic == PublishTopic(b, n)
  {
    var totlen, i := ScanHeader(b, n);
    if i + 2 >= n {
      return None;
    }
    var topiclen := b[i] as int * 0x100 + b[i + 1];
    i := i + 2;
    if i + topiclen > n {
      return None;
    }
    return Some(b[i..i + topiclen]);
  }

  /** mqtt_get_publish_data: None for a null result, whose length is zero. */
  function PublishData(b: seq<byte>, n: nat): Option<seq<byte>>
    requires 0 < n <= |b|
  {
    var i := ScanEnd(b, n, 1);
    if n <= i + 2 then None
    else
      var j := i + 2 + (b[i] as int * 0x100 + b[i + 1]);
      if n <= j then None
      else
        var k := if 0 < Qos(b) then j + 2 else j;
        if n <= k || TotalLength(b, n) < k then None
        else Some(b[k..Min(TotalLength(b, n), n)])
  }

  method GetPublishData(b: seq<byte>, n: nat) returns (data: Option<seq<byte>>)
    requires 0 < n <= |b|
    ensures data == PublishData(b, n)
  {
    var totlen, i := ScanHeader(b, n);
    if i + 2 >= n {
      return None;
    }
    var topiclen := b[i] as int * 0x100 + b[i + 1];
    i := i + 2;
    if i + topiclen >= n {
      return None;
    }
    i := i + topiclen;
    if Qos(b) > 0 {
      if i + 2 >= n {
        return None;
      }
      i := i + 2;
    }
    if totlen < i {
      return None;
    }
    if totlen <= n {
      return Some(b[i..totlen]);
    }
    return Some(b[i..n]);
  }

  /** mqtt_get_id. */
  function GetId(b: seq<byte>, n: nat): word
    requires n <= |b|
  {
    if n < 1 then 0
    else if Kind(b) == PUBLISH then
      var i := ScanEnd(b, n, 1);
      if n <= i + 2 then 0
      else
        var j := i + 2 + (b[i] as int * 0x100 + b[i + 1]);
        if n <= j || Qos(b) == 0 || n <= j + 2 then 0 else b[j] as int * 0x100 + b[j + 1]
    else if PUBACK <= Kind(b) <= UNSUBACK then
      if 4 <= n && b[1] < 0x80 then b[2] as int * 0x100 + b[3] else 0
    else 0
  }

  // ---------------------------------------------------------------- reading what was built

  lemma FirstByteFields(kind: int, dup: int, qos: int, retain: int)
    ensures var b := FirstByte(kind, dup, qos, retain);
            b / 16 == kind % 16 && b / 2 % 4 == qos % 4 && b % 2 == retain % 2
  {
    var k, d, q, r := kind % 16, dup % 2, qos % 4, retain % 2;
    assert FirstByte(kind, dup, qos, retain) == 16 * k + (8 * d + 2 * q + r);
    assert FirstByte(kind, dup, qos, retain) / 2 == 8 * k + 4 * d + q;
  }

  /** The header of a built packet, at any read length that covers the packet. */
  lemma HeaderReadsBack(kind: int, dup: int, qos: int, retain: int, body: seq<byte>, b: seq<byte>, n: nat)
    requires |body| < 0x4000
    requires Build(kind, dup, qos, retain, body) <= b
    requires |Build(kind, dup, qos, retain, body)| <= n <= |b|
    ensures Kind(b) == kind % 16 && Qos(b) == qos % 4 && Retain(b) == retain % 2
    ensures ScanEnd(b, n, 1) == 1 + |LengthField(|body|)|
    ensures TotalLength(b, n) == |Build(kind, dup, qos, retain, body)|
    ensures b[ScanEnd(b, n, 1)..TotalLength(b, n)] == body
  {
    var p := Build(kind, dup, qos, retain, body);
    assert b[0] == p[0] && b[1] == p[1];
    FirstByteFields(kind, dup, qos, retain);
    if 127 < |body| {
      assert p[2] == |body| / 128 && b[2] == p[2];
      assert Remaining(b, n, 2) == |body| / 128;
      assert Remaining(b, n, 1) == |body|;
      assert p[3..] == body;
    } else {
      assert Remaining(b, n, 1) == |body|;
      assert p[2..] == body;
    }
    assert b[..|p|] == p;
  }

  lemma Word16ReadsBack(x: nat)
    requires x < 0x1_0000
    ensures Word16(x)[0] as int * 0x100 + Word16(x)[1] == x
  {
  }

  /** Where the fields of a PUBLISH are in a buffer that starts with it. */
  lemma PublishFields(topic: seq<byte>, data: seq<byte>, qos: int, id: nat, b: seq<byte>, i: nat, e: nat)
    requires |topic| < 0x1_0000 && id < 0x1_0000
    requires i <= e <= |b| && PublishBody(topic, data, qos, id) == b[i..e]
    ensures var j := i + 2 + |topic|;
            && j <= e && b[i] as int * 0x100 + b[i + 1] == |topic| && b[i + 2..j] == topic
            && (0 < qos ==> j + 2 <= e && b[j] as int * 0x100 + b[j + 1] == id && b[j + 2..e] == data)
            && (qos <= 0 ==> b[j..e] == data)
  {
    var body := PublishBody(topic, data, qos, id);
    var t := b[i..e];
    var mid := 2 + |topic|;
    Word16ReadsBack(|topic|);
    assert body[0] == Word16(|topic|)[0] && body[1] == Word16(|topic|)[1];
    assert t[0] == b[i] && t[1] == b[i + 1];
    assert body[2..mid] == topic;
    Slice(b, i, e, i + 2, i + mid);
    if 0 < qos {
      Word16ReadsBack(id);
      assert body[mid] == Word16(id)[0] && body[mid + 1] == Word16(id)[1];
      assert t[mid] == b[i + mid] && t[mid + 1] == b[i + mid + 1];
      assert body[mid + 2..] == data;
      Slice(b, i, e, i + mid + 2, e);
    } else {
      assert body[mid..] == data;
      Slice(b, i, e, i + mid, e);
    }
  }

  /** A PUBLISH with these fields fills b[..len], and its header ends at `i`. */
  ghost predicate Located(topic: seq<byte>, data: seq<byte>, qos: int, id: nat, b: seq<byte>, n: nat, i: nat, len: nat) {
    && 0 < i && 0 < len <= n <= |b| && topic != []
    && Kind(b) == PUBLISH && Qos(b) == qos
    && ScanEnd(b, n, 1) == i && TotalLength(b, n) == len
    && len == i + |PublishBody(topic, data, qos, id)|
    && b[i] as int * 0x100 + b[i + 1] == |topic|
    && b[i + 2..i + 2 + |topic|] == topic
    && (if 0 < qos
        then b[i + 2 + |topic|] as int * 0x100 + b[i + 3 + |topic|] == id && b[i + 4 + |topic|..len] == data
        else b[i + 2 + |topic|..len] == data)
  }

  lemma LocatedReadsBack(topic: seq<byte>, data: seq<byte>, qos: int, id: nat, b: seq<byte>, n: nat, i: nat, len: nat)
    requires Located(topic, data, qos, id, b, n, i, len)
    ensures PublishTopic(b, n) == Some(topic)
    ensures PublishData(b, n) == (if data == [] && n == len then None else Some(data))
  {
  }

  lemma LocatedId(topic: seq<byte>, data: seq<byte>, qos: int, id: nat, b: seq<byte>, n: nat, i: nat, len: nat)
    requires Located(topic, data, qos, id, b, n, i, len)
    ensures GetId(b, n) == if qos <= 0 || (data == [] && n == len) then 0 else id
  {
  }

  lemma PublishIsLocated(topic: seq<byte>, data: seq<byte>, qos: int, retain: int, id: nat, b: seq<byte>, n: nat)
    requires topic != [] && 0 <= qos < 4 && id < 0x1_0000
    requires |PublishBody(topic, data, qos, id)| < 0x4000
    requires PublishPacket(topic, data, qos, retain, id) <= b
    requires |PublishPacket(topic, data, qos, retain, id)| <= n <= |b|
    ensures Located(topic, data, qos, id, b, n, ScanEnd(b, n, 1), |PublishPacket(topic, data, qos, retain, id)|)
    ensures Retain(b) == retain % 2
  {
    var p := PublishPacket(topic, data, qos, retain, id);
    var body := PublishBody(topic, data, qos, id);
    HeaderReadsBack(PUBLISH, 0, qos, retain, body, b, n);
    PublishFields(topic, data, qos, id, b, ScanEnd(b, n, 1), |p|);
  }

  /**
   * A built PUBLISH reads back, whatever follows it in the buffer, at any read length that
   * covers it. Only the id can get lost: exactly when there is no payload and the read
   * length is that of the packet.
   */
  lemma PublishReadsBack(topic: seq<byte>, data: seq<byte>, qos: int, retain: int, id: nat, b: seq<byte>, n: nat)
    requires topic != [] && 0 <= qos < 4 && id < 0x1_0000
    requires |PublishBody(topic, data, qos, id)| < 0x4000
    requires PublishPacket(topic, data, qos, retain, id) <= b
    requires |PublishPacket(topic, data, qos, retain, id)| <= n <= |b|
    ensures var p := PublishPacket(topic, data, qos, retain, id);
            && Kind(b) == PUBLISH && Qos(b) == qos && Retain(b) == retain % 2
            && TotalLength(b, n) == |p|
            && PublishTopic(b, n) == Some(topic)
            && PublishData(b, n) == (if data == [] && n == |p| then None else Some(data))
            && GetId(b, n) == (if qos == 0 || (data == [] && n == |p|) then 0 else id)
  {
    var i, len := ScanEnd(b, n, 1), |PublishPacket(topic, data, qos, retain, id)|;
    PublishIsLocated(topic, data, qos, retain, id, b, n);
    LocatedReadsBack(topic, data, qos, id, b, n, i, len);
    LocatedId(topic, data, qos, id, b, n, i, len);
  }

  /** mqtt_get_id on a PUBLISH, with its own scan of the header. */
  method GetMessageId(b: seq<byte>, n: nat) returns (id: word)
    requires n <= |b|
    ensures id == GetId(b, n)
  {
    if n < 1 {
      return 0;
    }
    var kind := Kind(b);
    if kind == PUBLISH {
      var _, i := ScanHeader(b, n);
      if i + 2 >= n {
        return 0;
      }
      i := i + 2 + (b[i] as int * 0x100 + b[i + 1]);
      if i >= n || Qos(b) == 0 || i + 2 >= n {
        return 0;
      }
      return b[i] as int * 0x100 + b[i + 1];
    } else if PUBACK <= kind <= UNSUBACK && n >= 4 && b[1] < 0x80 {
      return b[2] as int * 0x100 + b[3];
    }
    return 0;
  }

  /**
   * The id at the head of an acknowledgement, SUBSCRIBE or UNSUBSCRIBE reads back exactly when
   * the Remaining Length takes one byte; with two bytes the result is zero.
   */
  lemma IdReadsBack(kind: int, qos: int, id: word, rest: seq<byte>, b: seq<byte>, n: nat)
    requires PUBACK <= kind <= UNSUBACK && |rest| < 0x3FFE
    requires Build(kind, 0, qos, 0, Word16(id) + rest) <= b
    requires |Build(kind, 0, qos, 0, Word16(id) + rest)| <= n <= |b|
    ensures GetId(b, n) == if |rest| + 2 <= 127 then id else 0
  {
    var body := Word16(id) + rest;
    var p := Build(kind, 0, qos, 0, body);
    assert b[0] == p[0] && b[1] == p[1] && b[2] == p[2] && b[3] == p[3];
    Word16ReadsBack(id);
    assert body[0] == Word16(id)[0] && body[1] == Word16(id)[1];
    if |body| <= 127 {
      assert p[2..] == body;
      assert p[2] == body[0] && p[3] == body[1];
    }
  }
}
