/** Byte stuffing and the resynchronising decoder of src/proto.c. */
module Proto {
  import opened Bytes
  import opened Ring

  const START: byte := 0x7E
  const END: byte := 0x7F
  const ESC: byte := 0x7D

  // ---------------------------------------------------------------- frames

  predicate Special(b: byte) {
    b == ESC || b == START || b == END
  }

  function StuffByte(b: byte): seq<byte> {
    if Special(b) then [ESC, Xor20(b)] else [b]
  }

  function Stuff(p: seq<byte>): seq<byte> {
    if p == [] then [] else StuffByte(p[0]) + Stuff(p[1..])
  }

  /** How `packet` is stored in the ring. */
  function Frame(p: seq<byte>): (f: seq<byte>) {
    [START] + Stuff(p) + [END]
  }

  function SpecialCount(p: seq<byte>): nat {
    if p == [] then 0 else (if Special(p[0]) then 1 else 0) + SpecialCount(p[1..])
  }

  /** Stuffing leaves no delimiter behind and costs one byte for each special byte. */
  lemma {:induction false} StuffIsClean(p: seq<byte>)
    ensures START !in Stuff(p) && END !in Stuff(p)
    ensures |Frame(p)| == 2 + |p| + SpecialCount(p)
  {
    if p != [] {
      StuffIsClean(p[1..]);
    }
  }

  // ---------------------------------------------------------------- the parser

  /** The fields isBegin, isEsc and buf[..dataLen] of PROTO_PARSER. */
  datatype ParserState = ParserState(isBegin: bool, isEsc: bool, out: seq<byte>)

  /** One call of PROTO_ParseByte with a buffer of `cap` bytes. */
  function ParseStep(p: ParserState, cap: nat, v: byte): ParserState {
    if v == ESC then p.(isEsc := true)
    else if v == START then ParserState(true, false, [])
    else if v == END then p.(isBegin := false)
    else if !p.isBegin then p
    else ParserState(true, false, if |p.out| < cap then p.out + [if p.isEsc then Xor20(v) else v] else p.out)
  }

  /** PROTO_Parse: the parser after all of `s`. */
  function Feed(p: ParserState, cap: nat, s: seq<byte>): ParserState
    decreases |s|
  {
    if s == [] then p else Feed(ParseStep(p, cap, s[0]), cap, s[1..])
  }

  lemma {:induction false} FeedConcat(p: ParserState, cap: nat, s: seq<byte>, t: seq<byte>)
    ensures Feed(p, cap, s + t) == Feed(Feed(p, cap, s), cap, t)
    decreases |s|
  {
    if s == [] {
      assert s + t == t;
    } else {
      assert (s + t)[1..] == s[1..] + t;
      FeedConcat(ParseStep(p, cap, s[0]), cap, s[1..], t);
    }
  }

  lemma FeedOneMore(p: ParserState, cap: nat, s: seq<byte>, n: nat)
    requires n < |s|
    ensures Feed(p, cap, s[..n + 1]) == ParseStep(Feed(p, cap, s[..n]), cap, s[n])
  {
    assert s[..n + 1] == s[..n] + [s[n]];
    FeedConcat(p, cap, s[..n], [s[n]]);
  }

  lemma FeedStuffByte(p: ParserState, cap: nat, b: byte)
    requires p.isBegin && !p.isEsc
    ensures Feed(p, cap, StuffByte(b)) == p.(out := if |p.out| < cap then p.out + [b] else p.out)
  {
    if Special(b) {
      assert StuffByte(b)[1..] == [Xor20(b)] && Xor20(Xor20(b)) == b;
      assert Feed(ParseStep(p, cap, ESC), cap, [Xor20(b)]) == ParseStep(ParseStep(p, cap, ESC), cap, Xor20(b));
    }
  }

  /** Inside a frame, stuffed bytes come out unstuffed, as far as the buffer reaches. */
  lemma {:induction false} FeedStuff(p: ParserState, cap: nat, m: seq<byte>)
    requires p.isBegin && !p.isEsc && |p.out| <= cap
    ensures Feed(p, cap, Stuff(m)) == p.(out := (p.out + m)[..Min(cap, |p.out| + |m|)])
    decreases |m|
  {
    if m == [] {
      assert p.out == (p.out + m)[..Min(cap, |p.out| + |m|)];
    } else {
      var q := p.(out := if |p.out| < cap then p.out + [m[0]] else p.out);
      FeedConcat(p, cap, StuffByte(m[0]), Stuff(m[1..]));
      FeedStuffByte(p, cap, m[0]);
      FeedStuff(q, cap, m[1..]);
      CappedJoin(p.out, cap, m);
    }
  }

  lemma CappedJoin(out: seq<byte>, cap: nat, m: seq<byte>)
    requires |out| <= cap && m != []
    ensures var q := if |out| < cap then out + [m[0]] else out;
            (q + m[1..])[..Min(cap, |q| + |m[1..]|)] == (out + m)[..Min(cap, |out| + |m|)]
  {
  }

  /** From any state of the parser, a whole frame yields its packet and nothing else. */
  lemma {:induction false} FrameResynchronises(p: ParserState, cap: nat, m: seq<byte>)
    ensures Feed(p, cap, Frame(m)) == ParserState(false, false, m[..Min(cap, |m|)])
    ensures IndexOf(Frame(m), END) == |Frame(m)| - 1
  {
    var start := ParserState(true, false, []);
    assert Frame(m) == [START] + (Stuff(m) + [END]);
    FeedConcat(p, cap, [START], Stuff(m) + [END]);
    FeedConcat(start, cap, Stuff(m), [END]);
    FeedStuff(start, cap, m);
    assert [] + m == m;
    StuffIsClean(m);
    IndexOfIs(Frame(m), END, |Frame(m)| - 1);
  }

  class Parser {
    const buf: array<byte>
    const bufSize: nat
    var dataLen: nat
    var isEsc: bool
    var isBegin: bool

    ghost predicate Valid()
      reads this
    {
      dataLen <= bufSize <= buf.Length
    }

    ghost function View(): ParserState
      requires Valid()
      reads this, buf
    {
      ParserState(isBegin, isEsc, buf[..dataLen])
    }

    /** PROTO_Init leaves isBegin as it finds it: `garbage` is what the stack held. */
    constructor (buf: array<byte>, bufSize: nat, garbage: bool)
      requires bufSize <= buf.Length
      ensures Valid() && this.buf == buf && this.bufSize == bufSize
      ensures View() == ParserState(garbage, false, [])
    {
      this.buf := buf;
      this.bufSize := bufSize;
      dataLen := 0;
      isEsc := false;
      isBegin := garbage;
    }

    method ParseByte(v: byte) returns (rc: int)
      requires Valid()
      modifies this, buf
      ensures Valid() && View() == ParseStep(old(View()), bufSize, v)
      ensures rc == if v == END then 0 else -1
    {
      rc := -1;
      if v == ESC {
        isEsc := true;
      } else if v == START {
        dataLen := 0;
        isEsc := false;
        isBegin := true;
      } else if v == END {
        isBegin := false;
        return 0;
      } else if isBegin {
        var value := v;
        if isEsc {
          value := Xor20(value);
          isEsc := false;
        }
        if dataLen < bufSize {
          buf[dataLen] := value;
          dataLen := dataLen + 1;
        }
      }
    }

    method Parse(s: seq<byte>)
      requires Valid()
      modifies this, buf
      ensures Valid() && View() == Feed(old(View()), bufSize, s)
    {
      var i := 0;
      while i < |s|
        invariant 0 <= i <= |s| && Valid()
        invariant Feed(View(), bufSize, s[i..]) == Feed(old(View()), bufSize, s)
      {
        var _ := ParseByte(s[i]);
        assert s[i..][1..] == s[i + 1..];
        i := i + 1;
      }
    }
  }

  // ---------------------------------------------------------------- encoders

  lemma Cut(f: seq<byte>, d: nat, head: seq<byte>, tail: seq<byte>)
    requires d <= |f| && f[d..] == head + tail
    ensures d + |head| <= |f| && f[d + |head|..] == tail
    ensures forall k :: d <= k < d + |head| ==> f[k] == head[k - d]
  {
    assert f[d..][|head|..] == tail && f[d..][|head|..] == f[d + |head|..];
    forall k | d <= k < d + |head|
      ensures f[k] == head[k - d]
    {
      assert f[d..][k - d] == f[k];
    }
  }

  /** What `f` holds at `d`, when stuffing `p` and the end byte are all that is missing there. */
  lemma NextStuffed(f: seq<byte>, d: nat, p: seq<byte>)
    requires d <= |f| && f[d..] == Stuff(p) + [END]
    ensures d < |f|
    ensures p == [] ==> f[d] == END && d + 1 == |f|
    ensures p != [] && !Special(p[0]) ==> f[d] == p[0] && f[d + 1..] == Stuff(p[1..]) + [END]
    ensures p != [] && Special(p[0]) ==>
              d + 1 < |f| && f[d] == ESC && f[d + 1] == Xor20(p[0]) && f[d + 2..] == Stuff(p[1..]) + [END]
  {
    if p == [] {
      Cut(f, d, [END], []);
    } else {
      Associate(StuffByte(p[0]), Stuff(p[1..]), [END]);
      Cut(f, d, StuffByte(p[0]), Stuff(p[1..]) + [END]);
    }
  }

  /** The ring holds `was` and `d` bytes of the frame `f`; `p` and the end byte are to come. */
  ghost predicate Midway(rb: RingBuf, was: seq<byte>, f: seq<byte>, d: nat, p: seq<byte>)
    reads rb, rb.mem
  {
    && rb.Valid() && d <= |f| && f[d..] == Stuff(p) + [END]
    && rb.Contents() == was + f[..d] && |was| + d <= rb.mem.Length
  }

  /** The ring is full before all of `f` is in it. */
  ghost predicate Torn(rb: RingBuf, was: seq<byte>, f: seq<byte>)
    reads rb, rb.mem
  {
    && rb.Valid() && |was| <= rb.mem.Length < |was| + |f|
    && rb.Contents() == was + f[..rb.mem.Length - |was|]
  }

  /** One more byte of the frame `f` goes to the ring, or the ring is full. */
  method PutFrameByte(rb: RingBuf, c: byte, ghost was: seq<byte>, ghost f: seq<byte>, ghost d: nat) returns (ok: bool)
    requires rb.Valid() && d < |f| && c == f[d]
    requires rb.Contents() == was + f[..d]
    modifies rb, rb.mem
    ensures ok ==> rb.Valid() && rb.Contents() == was + f[..d + 1] && |was| + d < rb.mem.Length
    ensures !ok ==> Torn(rb, was, f)
  {
    ok := rb.Put(c);
    assert f[..d + 1] == f[..d] + [c];
  }

  /** One round of PROTO_AddRb: `i` counts the bytes put, or the ring is full. */
  method PutStuffed(rb: RingBuf, b: byte, i: int, ghost was: seq<byte>, ghost f: seq<byte>, ghost d: nat, ghost p: seq<byte>)
    returns (ok: bool, i': int)
    requires Midway(rb, was, f, d, p) && p != [] && b == p[0]
    modifies rb, rb.mem
    ensures ok ==> i < i' && Midway(rb, was, f, d + (i' - i), p[1..])
    ensures !ok ==> Torn(rb, was, f)
  {
    NextStuffed(f, d, p);
    if Special(b) {
      ok := PutFrameByte(rb, ESC, was, f, d);
      if !ok {
        return false, i;
      }
      ok := PutFrameByte(rb, Xor20(b), was, f, d + 1);
      return ok, i + 2;
    } else {
      ok := PutFrameByte(rb, b, was, f, d);
      return ok, i + 1;
    }
  }

  /** The loop of PROTO_AddRb, `i` counting as it does there. */
  method PutPacket(rb: RingBuf, packet: seq<byte>, ghost was: seq<byte>, ghost f: seq<byte>) returns (ok: bool, i: int)
    requires Midway(rb, was, f, 1, packet)
    modifies rb, rb.mem
    ensures ok ==> 2 <= i && Midway(rb, was, f, i - 1, [])
    ensures !ok ==> Torn(rb, was, f)
  {
    i := 2;
    var k := 0;
    assert packet[0..] == packet;
    while k < |packet|
      invariant 0 <= k <= |packet| && 2 <= i
      invariant Midway(rb, was, f, i - 1, packet[k..])
    {
      assert packet[k..][1..] == packet[k + 1..];
      ok, i := PutStuffed(rb, packet[k], i, was, f, i - 1, packet[k..]);
      if !ok {
        return;
      }
      k := k + 1;
    }
    ok := true;
  }

  /** PROTO_AddRb. When the ring fills up, what was put so far stays: a torn frame. */
  method AddRb(rb: RingBuf, packet: seq<byte>) returns (r: int)
    requires rb.Valid()
    modifies rb, rb.mem
    ensures rb.Valid()
    ensures var free := rb.mem.Length - |old(rb.Contents())|;
            && r == (if |Frame(packet)| <= free then |Frame(packet)| else -1)
            && rb.Contents() == old(rb.Contents()) + Frame(packet)[..Min(free, |Frame(packet)|)]
  {
    ghost var was := rb.Contents();
    ghost var f := Frame(packet);
    assert was == was + f[..0] && f[1..] == Stuff(packet) + [END];
    r := -1;
    var ok := PutFrameByte(rb, START, was, f, 0);
    if ok {
      var i;
      ok, i := PutPacket(rb, packet, was, f);
      if ok {
        NextStuffed(f, i - 1, []);
        ok := PutFrameByte(rb, END, was, f, i - 1);
        if ok {
          r := i;
        }
      }
    }
    assert r != -1 ==> f[..|f|] == f;
  }

  /** A little-endian `uint16_t` read from memory. */
  function Word(lo: int, hi: int): int {
    lo + 0x100 * hi
  }

  /** `o` bytes of the frame `f` are in `buf`, which held `was`; `p` and the end byte are to come. */
  ghost predicate Underway(buf: seq<byte>, was: seq<byte>, f: seq<byte>, o: nat, p: seq<byte>) {
    && |buf| == |was| && o <= |buf| && o <= |f| && f[o..] == Stuff(p) + [END]
    && buf[..o] == f[..o] && buf[o..] == was[o..]
  }

  /** One round of PROTO_Add, at position `o`; -1 when `room` is too small. */
  method AddByte(buf: array<byte>, b: byte, o: nat, room: nat, ghost was: seq<byte>, ghost f: seq<byte>, ghost p: seq<byte>)
    returns (n: int)
    requires Underway(buf[..], was, f, o, p) && o + room <= buf.Length && p != [] && b == p[0]
    modifies buf
    ensures n == if room < |StuffByte(b)| then -1 else |StuffByte(b)|
    ensures n == -1 ==> buf[..] == old(buf[..])
    ensures n != -1 ==> Underway(buf[..], was, f, o + n, p[1..])
  {
    NextStuffed(f, o, p);
    if Special(b) {
      if room < 2 {
        return -1;
      }
      buf[o] := ESC;
      buf[o + 1] := Xor20(b);
      assert buf[..o + 2] == old(buf[..o]) + [ESC, Xor20(b)];
      assert f[..o + 2] == f[..o] + [ESC, Xor20(b)];
      return 2;
    } else {
      if room < 1 {
        return -1;
      }
      buf[o] := b;
      assert buf[..o + 1] == old(buf[..o]) + [b];
      assert f[..o + 1] == f[..o] + [b];
      return 1;
    }
  }

  /** The loop of PROTO_Add: the position reached, or -1. */
  method AddPacket(buf: array<byte>, packet: seq<byte>, len: nat, bufSize: nat, ghost was: seq<byte>, ghost f: seq<byte>)
    returns (o: int)
    requires len <= |packet| && 1 <= bufSize <= buf.Length
    requires Underway(buf[..], was, f, 1, packet[..len])
    modifies buf
    ensures o == -1 || 1 <= o <= bufSize
    ensures o == -1 ==> bufSize < |f| && buf[bufSize..] == was[bufSize..] && |was| == buf.Length
    ensures o != -1 ==> Underway(buf[..], was, f, o, [])
  {
    o := 1;
    var room := bufSize - 1;
    var k := 0;
    ghost var p := packet[..len];
    assert p[0..] == p;
    while k < len
      invariant 0 <= k <= len && 1 <= o <= bufSize && room == bufSize - o
      invariant Underway(buf[..], was, f, o, p[k..])
    {
      assert p[k..][1..] == p[k + 1..];
      NextStuffed(f, o, p[k..]);
      var n := AddByte(buf, packet[k], o, room, was, f, p[k..]);
      if n == -1 {
        TailKept(buf[..], was, o, bufSize);
        return -1;
      }
      o, room := o + n, room - n;
      k := k + 1;
    }
  }

  /**
   * PROTO_Add. `packet` is memory whose first two bytes hold, low byte first, the number
   * of bytes to frame, counted from that length word itself.
   */
  method Add(buf: array<byte>, packet: seq<byte>, bufSize: int) returns (r: int)
    requires 2 <= |packet| && Word(packet[0], packet[1]) <= |packet|
    requires bufSize <= buf.Length
    modifies buf
    ensures var f := Frame(packet[..Word(packet[0], packet[1])]);
            && r == (if |f| <= bufSize then |f| else -1)
            && (r != -1 ==> buf[..|f|] == f && buf[|f|..] == old(buf[..])[|f|..])
    ensures 0 <= bufSize ==> buf[bufSize..] == old(buf[..])[bufSize..]
    ensures bufSize < 0 ==> buf[..] == old(buf[..])
  {
    ghost var was := buf[..];
    var len := Word(packet[0], packet[1]);
    ghost var f := Frame(packet[..len]);
    if bufSize < 1 {
      return -1;
    }
    buf[0] := START;
    assert f[1..] == Stuff(packet[..len]) + [END];
    var o := AddPacket(buf, packet, len, bufSize, was, f);
    if o == -1 {
      return -1;
    }
    NextStuffed(f, o, []);
    TailKept(buf[..], was, o, bufSize);
    if bufSize - o < 1 {
      return -1;
    }
    buf[o] := END;
    assert f == f[..o] + [END];
    return o + 1;
  }

  lemma TailKept(s: seq<byte>, was: seq<byte>, o: nat, n: nat)
    requires o <= n <= |s| == |was| && s[o..] == was[o..]
    ensures s[n..] == was[n..]
  {
    assert s[n..] == s[o..][n - o..] && was[n..] == was[o..][n - o..];
  }

  // ---------------------------------------------------------------- decoder

  /** One round of PROTO_ParseRb: 1 when the ring is empty, else what PROTO_ParseByte says. */
  method ParseNext(rb: RingBuf, proto: Parser, ghost was: seq<byte>, ghost start: ParserState, ghost n: nat)
    returns (rc: int)
    requires rb.Valid() && proto.Valid() && rb.mem != proto.buf
    requires n <= IndexOf(was, END) && rb.Contents() == was[n..]
    requires proto.View() == Feed(start, proto.bufSize, was[..n])
    modifies rb, proto, proto.buf
    ensures rb.Valid() && proto.Valid()
    ensures rc == if n == |was| then 1 else if n == IndexOf(was, END) then 0 else -1
    ensures rb.Contents() == if n == |was| then [] else was[n + 1..]
    ensures n < |was| ==> proto.View() == Feed(start, proto.bufSize, was[..n + 1])
  {
    var c := rb.Get();
    if c.None? {
      return 1;
    }
    assert was[n..][0] == was[n] && was[n..][1..] == was[n + 1..];
    assert c.value == was[n] && rb.Contents() == was[n + 1..];
    rc := proto.ParseByte(c.value);
    FeedOneMore(start, proto.bufSize, was, n);
  }

  /**
   * PROTO_ParseRb. It takes bytes from the ring up to the first end byte, and all of them
   * when there is none.
   */
  method ParseRb(rb: RingBuf, bufOut: array<byte>, maxBufLen: nat, garbage: bool) returns (rc: int, len: nat)
    requires rb.Valid() && rb.mem != bufOut
    requires maxBufLen <= bufOut.Length
    modifies rb, bufOut
    ensures rb.Valid()
    ensures var was := old(rb.Contents());
            var k := IndexOf(was, END);
            && rc == (if k < |was| then 0 else -1)
            && rb.Contents() == (if k < |was| then was[k + 1..] else [])
            && (k < |was| ==> len <= maxBufLen &&
                              bufOut[..len] == Feed(ParserState(garbage, false, []), maxBufLen, was[..k + 1]).out)
  {
    ghost var was := rb.Contents();
    ghost var start := ParserState(garbage, false, []);
    ghost var n := 0; // bytes taken so far
    len := 0;
    var proto := new Parser(bufOut, maxBufLen, garbage);
    while true
      invariant rb.Valid() && proto.Valid() && fresh(proto) && proto.buf == bufOut && proto.bufSize == maxBufLen
      invariant 0 <= n <= IndexOf(was, END) && rb.Contents() == was[n..]
      invariant proto.View() == Feed(start, maxBufLen, was[..n])
      decreases |was| - n
    {
      rc := ParseNext(rb, proto, was, start, n);
      if rc != -1 {
        return if rc == 0 then 0 else -1, proto.dataLen;
      }
      n := n + 1;
    }
  }
}
