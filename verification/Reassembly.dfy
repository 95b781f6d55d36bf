/**
 * Reassembly of packets from TCP chunks: the buffering and the READPACKET loop of
 * MQTT_ClientCon_recv_cb (src/mqtt_server.cpp), without what is done with each packet.
 */
module Reassembly {
  import opened Bytes
  import opened Reader

  /** MQTT_BUF_SIZE. */
  const BUF := 512

  /** message_length: the announced length of the packet at the head of `buf`, in 16 bits. */
  function Announced(buf: seq<byte>): nat {
    U16(TotalLength(buf, |buf|))
  }

  /**
   * The packets dispatched and the bytes kept. `stuck` says that the loop meets a length of
   * zero: it then handles the same bytes for ever.
   */
  datatype Received = Received(packets: seq<seq<byte>>, rest: seq<byte>, stuck: bool)

  /** The READPACKET loop on the first `message_length_read` bytes of in_buffer. */
  function Dispatch(buf: seq<byte>): Received
    decreases |buf|
  {
    if buf == [] then Received([], [], false)
    else
      var len := Announced(buf);
      if |buf| < len then Received([], buf, false)
      else if len == 0 then Received([[]], buf, true)
      else
        var later := Dispatch(buf[len..]);
        later.(packets := [buf[..len]] + later.packets)
  }

  datatype Outcome = Open(r: Received) | Overflow

  /** One call with `chunk`, when `rest` is kept from before. */
  function Receive(rest: seq<byte>, chunk: seq<byte>): Outcome {
    if BUF < |chunk| + |rest| then Overflow
    else if |chunk| < 2 then Open(Received([], rest + chunk, false))
    else Open(Dispatch(rest + chunk))
  }

  /** The calls for a whole list of chunks, up to the first that overflows or gets stuck. */
  function ReceiveAll(rest: seq<byte>, chunks: seq<seq<byte>>): Outcome
    decreases |chunks|
  {
    if chunks == [] then Open(Received([], rest, false))
    else
      match Receive(rest, chunks[0])
      case Overflow => Overflow
      case Open(r) =>
        if r.stuck then Open(r)
        else
          match ReceiveAll(r.rest, chunks[1..])
          case Overflow => Overflow
          case Open(later) => Open(later.(packets := r.packets + later.packets))
  }

  // ---------------------------------------------------------------- well-formed streams

  /** The length field of `b` ends within its first `n` bytes. */
  predicate HeaderDone(b: seq<byte>, n: nat, i: nat)
    requires n <= |b|
    decreases n - i
  {
    i < n && (b[i] < 0x80 || HeaderDone(b, n, i + 1))
  }

  /** A packet that fits the buffer and is as long as it says. */
  predicate WholePacket(p: seq<byte>) {
    2 <= |p| <= BUF && HeaderDone(p, |p|, 1) && TotalLength(p, |p|) == |p|
  }

  function Concat(parts: seq<seq<byte>>): seq<byte> {
    if parts == [] then [] else parts[0] + Concat(parts[1..])
  }

  /** The packets of the stream `ps` that are complete within its first `n` bytes. */
  function Whole(ps: seq<seq<byte>>, n: nat): seq<seq<byte>> {
    if ps == [] || n < |ps[0]| then [] else [ps[0]] + Whole(ps[1..], n - |ps[0]|)
  }

  /** The other packets of the stream. */
  function Todo(ps: seq<seq<byte>>, n: nat): seq<seq<byte>> {
    if ps == [] || n < |ps[0]| then ps else Todo(ps[1..], n - |ps[0]|)
  }

  /** What follows the complete packets in `buf`, the start of the stream. */
  function Left(ps: seq<seq<byte>>, buf: seq<byte>): seq<byte>
    decreases |ps|
  {
    if ps == [] || |buf| < |ps[0]| then buf else Left(ps[1..], buf[|ps[0]|..])
  }

  /** What the three above are: the stream's packets split in two, and so are the bytes. */
  lemma {:induction false} WholeThenLeft(ps: seq<seq<byte>>, buf: seq<byte>)
    requires buf <= Concat(ps)
    ensures Whole(ps, |buf|) + Todo(ps, |buf|) == ps
    ensures Concat(Whole(ps, |buf|)) + Left(ps, buf) == buf
    ensures Todo(ps, |buf|) != [] ==> |Left(ps, buf)| < |Todo(ps, |buf|)[0]|
    decreases |ps|
  {
    if ps == [] || |buf| < |ps[0]| {
    } else {
      var p := ps[0];
      var more := buf[|p|..];
      assert buf[..|p|] == Concat(ps)[..|p|] == p;
      assert more <= Concat(ps)[|p|..] == Concat(ps[1..]);
      WholeThenLeft(ps[1..], more);
      assert Concat(Whole(ps, |buf|)) == p + Concat(Whole(ps[1..], |more|));
    }
  }

  /** A complete length field reads the same however many bytes follow. */
  lemma {:induction false} HeaderIsLocal(b: seq<byte>, n: nat, c: seq<byte>, m: nat, i: nat)
    requires n <= |b| && n <= m <= |c| && b[..n] == c[..n]
    requires HeaderDone(b, n, i)
    ensures Remaining(c, m, i) == Remaining(b, n, i) && ScanEnd(c, m, i) == ScanEnd(b, n, i)
    decreases n - i
  {
    assert b[i] == b[..n][i] && c[i] == c[..n][i];
    if 0x80 <= b[i] {
      HeaderIsLocal(b, n, c, m, i + 1);
    }
  }

  /** A length field that is cut off: all its bytes are scanned, and the sum is a part of it. */
  lemma {:induction false} CutHeader(r: seq<byte>, p: seq<byte>, i: nat)
    requires i <= |r| <= |p| && r == p[..|r|]
    requires !HeaderDone(r, |r|, i)
    ensures ScanEnd(r, |r|, i) == |r|
    ensures Remaining(r, |r|, i) <= Remaining(p, |p|, i)
    decreases |r| - i
  {
    if i < |r| {
      assert r[i] == p[i];
      CutHeader(r, p, i + 1);
    }
  }

  /** The first packet of a well-formed stream is dispatched as it is. */
  lemma FirstPacket(p: seq<byte>, more: seq<byte>)
    requires WholePacket(p)
    ensures Announced(p + more) == |p|
    ensures Dispatch(p + more) == Dispatch(more).(packets := [p] + Dispatch(more).packets)
  {
    var buf := p + more;
    assert buf[..|p|] == p[..|p|] == p;
    HeaderIsLocal(p, |p|, buf, |buf|, 1);
    assert buf[|p|..] == more;
  }

  predicate AllWhole(ps: seq<seq<byte>>) {
    ps == [] || (WholePacket(ps[0]) && AllWhole(ps[1..]))
  }

  /** What may be kept between two calls: nothing, or bytes that announce more than they are. */
  predicate Waits(r: seq<byte>) {
    r == [] || |r| < Announced(r)
  }

  /** The loop takes the whole packets off the front and then sees what is left of the stream. */
  lemma {:induction false} WholePacketsFirst(ps: seq<seq<byte>>, buf: seq<byte>)
    requires AllWhole(ps) && buf <= Concat(ps)
    ensures var d := Dispatch(Left(ps, buf));
            Dispatch(buf) == d.(packets := Whole(ps, |buf|) + d.packets)
    decreases |ps|
  {
    if ps == [] || |buf| < |ps[0]| {
    } else {
      var p := ps[0];
      var more := buf[|p|..];
      assert buf[..|p|] == Concat(ps)[..|p|] == p;
      assert buf == p + more;
      assert more <= Concat(ps)[|p|..] == Concat(ps[1..]);
      WholePacketsFirst(ps[1..], more);
      var d := Dispatch(Left(ps[1..], more));
      var w := Whole(ps[1..], |more|);
      Associate([p], w, d.packets);
      assert Dispatch(buf) == d.(packets := [p] + (w + d.packets)) by {
        FirstPacket(p, more);
      }
    }
  }

  /**
   * One call dispatches exactly the packets now complete, and keeps the bytes after them,
   * if and only if those bytes wait. Then the loop ends.
   */
  lemma DispatchIsExact(ps: seq<seq<byte>>, buf: seq<byte>)
    requires AllWhole(ps) && buf <= Concat(ps)
    ensures Waits(Left(ps, buf)) <==> Dispatch(buf) == Received(Whole(ps, |buf|), Left(ps, buf), false)
  {
    WholePacketsFirst(ps, buf);
    var d := Dispatch(Left(ps, buf));
    assert Whole(ps, |buf|) + [] == Whole(ps, |buf|);
    if !Waits(Left(ps, buf)) {
      assert d.stuck || d.packets != [];
    }
  }

  /**
   * Bytes cut from the front of a packet fail to wait exactly when the length field itself
   * is cut off and what it has so far is worth zero. A single byte is such a case. They are
   * then dispatched as if they were a packet.
   */
  lemma LeftoverIsTight(r: seq<byte>, p: seq<byte>)
    requires WholePacket(p) && 0 < |r| < |p| && r == p[..|r|]
    ensures Waits(r) <==> HeaderDone(r, |r|, 1) || Remaining(r, |r|, 1) != 0
    ensures |r| == 1 ==> !Waits(r)
    ensures !Waits(r) ==> Dispatch(r) == Received([r], [], false)
  {
    if HeaderDone(r, |r|, 1) {
      HeaderIsLocal(r, |r|, p, |p|, 1);
    } else {
      CutHeader(r, p, 1);
    }
    assert r[..|r|] == r && r[|r|..] == [];
  }

  // ---------------------------------------------------------------- any cut into chunks

  /** The bytes left over at each chunk boundary wait, and the buffer never overflows. */
  ghost predicate GoodCut(rest: seq<byte>, ps: seq<seq<byte>>, chunks: seq<seq<byte>>)
    decreases |chunks|
  {
    chunks == [] ||
    (var buf := rest + chunks[0];
     && 2 <= |chunks[0]| && |buf| <= BUF
     && Waits(Left(ps, buf)) && GoodCut(Left(ps, buf), Todo(ps, |buf|), chunks[1..]))
  }

  /** Taking the complete packets off in two steps. */
  lemma {:induction false} TwoSteps(ps: seq<seq<byte>>, buf: seq<byte>, tail: seq<byte>)
    requires buf + tail <= Concat(ps)
    ensures var left, todo := Left(ps, buf), Todo(ps, |buf|);
            && left + tail <= Concat(todo)
            && Whole(ps, |buf + tail|) == Whole(ps, |buf|) + Whole(todo, |left + tail|)
            && Left(ps, buf + tail) == Left(todo, left + tail)
    decreases |ps|
  {
    if ps == [] || |buf| < |ps[0]| {
    } else {
      var p := ps[0];
      var more := buf[|p|..];
      assert (buf + tail)[|p|..] == more + tail;
      assert Concat(ps)[|p|..] == Concat(ps[1..]);
      TwoSteps(ps[1..], more, tail);
    }
  }

  lemma {:induction false} TodoIsWhole(ps: seq<seq<byte>>, n: nat)
    requires AllWhole(ps)
    ensures AllWhole(Todo(ps, n))
  {
    if ps != [] && |ps[0]| <= n {
      TodoIsWhole(ps[1..], n - |ps[0]|);
    }
  }

  /**
   * However a stream of whole packets is cut: if the cut is good, the calls dispatch the
   * packets complete in what has arrived, in order, and keep the bytes after them. Which
   * packets those are depends on the number of bytes alone, not on the cut.
   */
  lemma {:induction false} AnyCutDispatchesTheSame(rest: seq<byte>, ps: seq<seq<byte>>, chunks: seq<seq<byte>>)
    requires AllWhole(ps) && GoodCut(rest, ps, chunks)
    requires Whole(ps, |rest|) == []
    requires rest + Concat(chunks) <= Concat(ps)
    ensures var total := rest + Concat(chunks);
            ReceiveAll(rest, chunks) == Open(Received(Whole(ps, |total|), Left(ps, total), false))
    decreases |chunks|
  {
    if chunks == [] {
      assert rest + Concat(chunks) == rest;
    } else {
      var buf := rest + chunks[0];
      var tail := Concat(chunks[1..]);
      assert rest + Concat(chunks) == buf + tail;
      DispatchIsExact(ps, buf);
      TwoSteps(ps, buf, tail);
      NoneLeft(ps, buf);
      TodoIsWhole(ps, |buf|);
      AnyCutDispatchesTheSame(Left(ps, buf), Todo(ps, |buf|), chunks[1..]);
    }
  }

  lemma {:induction false} NoneLeft(ps: seq<seq<byte>>, buf: seq<byte>)
    ensures Whole(Todo(ps, |buf|), |Left(ps, buf)|) == []
    decreases |ps|
  {
    if ps != [] && |ps[0]| <= |buf| {
      NoneLeft(ps[1..], buf[|ps[0]|..]);
    }
  }

  /** When all of the stream has arrived, all of its packets have been dispatched. */
  lemma WholeStream(ps: seq<seq<byte>>, chunks: seq<seq<byte>>)
    requires AllWhole(ps) && GoodCut([], ps, chunks) && Concat(chunks) == Concat(ps)
    ensures ReceiveAll([], chunks) == Open(Received(ps, [], false))
  {
    assert [] + Concat(chunks) == Concat(ps);
    AllOfIt(ps);
    AnyCutDispatchesTheSame([], ps, chunks);
  }

  lemma {:induction false} AllOfIt(ps: seq<seq<byte>>)
    requires AllWhole(ps)
    ensures Whole(ps, |Concat(ps)|) == ps && Left(ps, Concat(ps)) == [] && Whole(ps, 0) == []
  {
    if ps != [] {
      AllOfIt(ps[1..]);
      assert Concat(ps)[|ps[0]|..] == Concat(ps[1..]);
    }
  }

  /**
   * A length of zero at the head: the number announced is a positive multiple of 65536, for
   * which the length field needs at least three bytes.
   */
  lemma ZeroHead(buf: seq<byte>)
    requires buf != []
    ensures Announced(buf) == 0 <==> 0 < TotalLength(buf, |buf|) && TotalLength(buf, |buf|) % 0x1_0000 == 0
    ensures Announced(buf) == 0 ==> 4 <= ScanEnd(buf, |buf|, 1) <= |buf|
  {
    ShortField(buf, |buf|);
  }

  /** With one or two length bytes the number stays below 65536. */
  lemma ShortField(b: seq<byte>, n: nat)
    requires 0 < n <= |b|
    ensures 1 <= ScanEnd(b, n, 1) <= n
    ensures ScanEnd(b, n, 1) <= 3 ==> TotalLength(b, n) < 0x1_0000
  {
    if 1 < n && 0x80 <= b[1] {
      assert ScanEnd(b, n, 1) == ScanEnd(b, n, 2);
      assert Remaining(b, n, 1) == b[1] % 0x80 + 0x80 * Remaining(b, n, 2);
      if 2 < n && 0x80 <= b[2] {
        assert ScanEnd(b, n, 2) == ScanEnd(b, n, 3);
        assert 3 < n ==> ScanEnd(b, n, 3) >= 4;
        assert n <= 3 ==> Remaining(b, n, 3) == 0;
        assert Remaining(b, n, 2) == b[2] % 0x80 + 0x80 * Remaining(b, n, 3);
      }
    }
  }

  /** Four bytes are enough for it. */
  lemma StuckWitness()
    ensures var buf := [0x30, 0xFC, 0xFF, 0x03];
            TotalLength(buf, 4) == 0x1_0000 && Dispatch(buf) == Received([[]], buf, true)
  {
    var buf: seq<byte> := [0x30, 0xFC, 0xFF, 0x03];
    assert Remaining(buf, 4, 3) == 3;
    assert Remaining(buf, 4, 2) == 0x7F + 0x80 * 3;
    assert Remaining(buf, 4, 1) == 0x7C + 0x80 * (0x7F + 0x80 * 3);
    assert ScanEnd(buf, 4, 3) == 4 && ScanEnd(buf, 4, 2) == 4;
  }
}
