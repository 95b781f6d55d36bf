/** The packets that the broker takes from each connection's stream, over whole runs. */
module Streams {
  import opened Bytes
  import opened Packet
  import opened Reader
  import opened Reassembly
  import opened Retained
  import opened Broker
  import opened BrokerInvariant

  /** The bytes in in_buffer that are not dispatched yet. */
  function Pending(c: Client): seq<byte> {
    c.inBuf[..c.read]
  }

  lemma {:induction false} LengthFieldIsLocal(b: seq<byte>, n: nat, i: nat)
    requires n <= |b|
    ensures Remaining(b, n, i) == Remaining(b[..n], n, i) && ScanEnd(b, n, i) == ScanEnd(b[..n], n, i)
    decreases n - i
  {
    if i < n {
      LengthFieldIsLocal(b, n, i + 1);
    }
  }

  /** The broker's message_length is what Reassembly computes from the undispatched bytes. */
  lemma SameLength(c: Client)
    ensures MessageLength(c) == Announced(Pending(c))
  {
    LengthFieldIsLocal(c.inBuf, c.read, 1);
  }

  /** Dispatching from `c` gave `c'`: these packets, and these bytes left. */
  ghost predicate Dispatched(c: Client, c': Client, r: Received) {
    !r.stuck && c'.dispatched == c.dispatched + r.packets && Pending(c') == r.rest
  }

  lemma ShiftedPending(c: Client, c1: Client, len: Count)
    requires len <= c.read && SameInput(c, c1, len)
    ensures Pending(Finish(c1, c.read, len)) == Pending(c)[len..]
    ensures Finish(c1, c.read, len).dispatched == c1.dispatched
  {
    assert c1.inBuf[len..][..c.read - len] == c.inBuf[len..][..c.read - len];
    assert Pending(c)[len..] == c.inBuf[len..c.read] == c1.inBuf[len..c.read];
    if len == c.read {
      assert Pending(Finish(c1, c.read, len)) == [];
    }
  }

  lemma DispatchFirst(pending: seq<byte>, len: nat)
    requires pending != [] && len == Announced(pending) && 0 < len <= |pending|
    ensures Dispatch(pending) == Dispatch(pending[len..]).(packets := [pending[..len]] + Dispatch(pending[len..]).packets)
  {
  }

  lemma DispatchMore(c: Client, c1: Client, c': Client, first: seq<byte>, r: Received)
    requires c1.dispatched == c.dispatched + [first] && Dispatched(c1, c', r)
    ensures Dispatched(c, c', r.(packets := [first] + r.packets))
  {
    assert c.dispatched + [first] + r.packets == c.dispatched + ([first] + r.packets);
  }

  /** The READPACKET loop of the broker dispatches what Reassembly.Dispatch says, while the connection lasts. */
  lemma {:induction false} ReadPacketsDispatches(b: Broker, h: nat, inputs: seq<Input>)
    requires Inv(b) && Has(b, h) && 0 < Get(b, h).read && !b.stuck
    requires Has(ReadPackets(b, h, inputs), h) && !ReadPackets(b, h, inputs).stuck
    ensures Dispatched(Get(b, h), Get(ReadPackets(b, h, inputs), h), Dispatch(Pending(Get(b, h))))
    decreases Get(b, h).read
  {
    var c := Get(b, h);
    var len := MessageLength(c);
    var pending := Pending(c);
    SameLength(c);
    if c.read < len {
      assert c.dispatched + [] == c.dispatched;
    } else {
      var b1 := OnePacket(b, h, inputs);
      var c1 := Get(b1, h);
      DispatchFirst(pending, len);
      if len < c.read {
        ReadPacketsDispatches(b1, h, LaterInputs(inputs));
      } else {
        assert Dispatch(pending[len..]) == Received([], [], false);
        assert c1.dispatched + [] == c1.dispatched;
      }
      DispatchMore(c, c1, Get(ReadPackets(b, h, inputs), h), pending[..len], Dispatch(pending[len..]));
    }
  }

  /** One round of the loop, when the connection is there in the end and the loop ends. */
  lemma OnePacket(b: Broker, h: nat, inputs: seq<Input>) returns (b1: Broker)
    requires Inv(b) && Has(b, h) && !b.stuck && MessageLength(Get(b, h)) <= Get(b, h).read
    requires Has(ReadPackets(b, h, inputs), h) && !ReadPackets(b, h, inputs).stuck
    ensures var c, len := Get(b, h), MessageLength(Get(b, h));
            && 0 < len && Inv(b1) && Has(b1, h) && !b1.stuck
            && Get(b1, h).read == c.read - len && Pending(Get(b1, h)) == Pending(c)[len..]
            && Get(b1, h).dispatched == c.dispatched + [Pending(c)[..len]]
            && ReadPackets(b, h, inputs) == (if len < c.read then ReadPackets(b1, h, LaterInputs(inputs)) else b1)
  {
    var c := Get(b, h);
    var len := MessageLength(c);
    var seen := c.(dispatched := c.dispatched + [c.inBuf[..len]]);
    PacketSound(b, h, len, NextInput(inputs));
    var r := Handle(Put(b, h, seen), h, len, NextInput(inputs));
    assert r.Continue? && len != 0;
    b1 := Put(r.b, h, Finish(Get(r.b, h), c.read, len));
    FinishedPending(r.b, h, seen, len);
    assert c.inBuf[..len] == Pending(c)[..len];
  }

  lemma PacketSound(b: Broker, h: nat, len: Count, inp: Input)
    requires Inv(b) && Has(b, h) && len <= Get(b, h).read
    ensures var seen := Get(b, h).(dispatched := Get(b, h).dispatched + [Get(b, h).inBuf[..len]]);
            && Has(Put(b, h, seen), h)
            && (var r := Handle(Put(b, h, seen), h, len, inp);
                && Inv(r.b) && r.b.stuck == b.stuck && (r.Continue? <==> Has(r.b, h))
                && (r.Continue? ==> SameInput(seen, Get(r.b, h), len)))
  {
    var seen := Get(b, h).(dispatched := Get(b, h).dispatched + [Get(b, h).inBuf[..len]]);
    PutKeeps(b, h, seen, None);
    PutShape(b, h, seen);
    HandleSound(Put(b, h, seen), h, len, inp);
  }

  lemma FinishedPending(b: Broker, h: nat, c: Client, len: Count)
    requires Inv(b) && Has(b, h) && SameInput(c, Get(b, h), len) && len <= c.read
    ensures var b1 := Put(b, h, Finish(Get(b, h), c.read, len));
            && Inv(b1) && Has(b1, h) && b1.stuck == b.stuck && Get(b1, h) == Finish(Get(b, h), c.read, len)
            && Pending(Get(b1, h)) == Pending(c)[len..] && Get(b1, h).dispatched == c.dispatched
  {
    var c1 := Finish(Get(b, h), c.read, len);
    PutKeeps(b, h, c1, None);
    PutShape(b, h, c1);
    ShiftedPending(c, Get(b, h), len);
  }

  lemma WholeCopied(c: Client, p: seq<byte>)
    requires c.read == 0 && WholePacket(p)
    ensures var c0 := CopyIn(c, p);
            && c0 == c.(inBuf := p + c.inBuf[|p|..], read := |p|)
            && MessageLength(c0) == |p| && c0.inBuf[..|p|] == p
  {
    var c0 := CopyIn(c, p);
    assert c0.inBuf == p + c.inBuf[|p|..] && Pending(c0) == p + [];
    SameLength(c0);
    FirstPacket(p, []);
  }

  /** A chunk that is one whole packet, into an empty buffer. */
  lemma WholeChunk(b: Broker, h: nat, p: seq<byte>, inputs: seq<Input>)
    requires Inv(b) && Has(b, h) && Get(b, h).read == 0 && WholePacket(p)
    ensures var c := Get(b, h);
            var c1 := c.(inBuf := p + c.inBuf[|p|..], read := |p|, dispatched := c.dispatched + [p]);
            && Has(Put(b, h, c1), h) && Inv(Put(b, h, c1))
            && (var r := Handle(Put(b, h, c1), h, |p|, NextInput(inputs));
                && (r.Continue? <==> Has(r.b, h))
                && ReceiveChunk(b, h, p, inputs) == if r.Closed? then r.b else Put(r.b, h, Finish(Get(r.b, h), |p|, |p|)))
  {
    var c := Get(b, h);
    var c0 := CopyIn(c, p);
    WholeCopied(c, p);
    PutGet(b, h, c0);
    var c1 := c0.(dispatched := c.dispatched + [p]);
    PutKeeps(b, h, c1, None);
    PutGet(b, h, c1);
    assert Put(Put(b, h, c0), h, c1) == Put(b, h, c1);
    HandleSound(Put(b, h, c1), h, |p|, NextInput(inputs));
  }

  // ---------------------------------------------------------------- when the loop does not end

  /**
   * With a length of zero at the head the loop does not end, exactly if the connection has been
   * refused, or is past CONNECT and the packet is none of the three kinds that end it at that
   * length. One that awaits its CONNECT is closed.
   */
  lemma ZeroHeadHangs(b: Broker, h: nat, inputs: seq<Input>)
    requires Inv(b) && Has(b, h) && !b.stuck && MessageLength(Get(b, h)) == 0
    ensures var c := Get(b, h);
            ReadPackets(b, h, inputs).stuck <==>
            c.state == TcpDisconnecting ||
            (c.state == MqttData && Kind(c.inBuf) != SUBSCRIBE && Kind(c.inBuf) != UNSUBSCRIBE && Kind(c.inBuf) != DISCONNECT)
  {
    var c := Get(b, h);
    var seen := c.(dispatched := c.dispatched + [c.inBuf[..0]]);
    PutKeeps(b, h, seen, None);
    PutShape(b, h, seen);
    HandleSound(Put(b, h, seen), h, 0, NextInput(inputs));
  }

  /** A loop that does not end has met a length of zero among the bytes received. */
  lemma {:induction false} HangMeansZero(b: Broker, h: nat, inputs: seq<Input>)
    requires Inv(b) && Has(b, h) && 0 < Get(b, h).read && !b.stuck && ReadPackets(b, h, inputs).stuck
    ensures Has(ReadPackets(b, h, inputs), h) && Dispatch(Pending(Get(b, h))).stuck
    decreases Get(b, h).read
  {
    var c := Get(b, h);
    var len := MessageLength(c);
    SameLength(c);
    var seen := c.(dispatched := c.dispatched + [c.inBuf[..len]]);
    var b0 := Put(b, h, seen);
    PutKeeps(b, h, seen, None);
    PutShape(b, h, seen);
    HandleSound(b0, h, len, NextInput(inputs));
    var r := Handle(b0, h, len, NextInput(inputs));
    if len != 0 {
      var c1 := Finish(Get(r.b, h), c.read, len);
      PutKeeps(r.b, h, c1, None);
      PutShape(r.b, h, c1);
      ShiftedPending(seen, Get(r.b, h), len);
      HangMeansZero(Put(r.b, h, c1), h, LaterInputs(inputs));
      DispatchFirst(Pending(c), len);
    }
  }

  /** READPACKET hangs exactly when the bytes received lead to a length of zero and the connection lasts until then. */
  lemma HangsExactly(b: Broker, h: nat, inputs: seq<Input>)
    requires Inv(b) && Has(b, h) && 0 < Get(b, h).read && !b.stuck
    ensures ReadPackets(b, h, inputs).stuck <==>
            Has(ReadPackets(b, h, inputs), h) && Dispatch(Pending(Get(b, h))).stuck
  {
    if ReadPackets(b, h, inputs).stuck {
      HangMeansZero(b, h, inputs);
    } else if Has(ReadPackets(b, h, inputs), h) {
      ReadPacketsDispatches(b, h, inputs);
    }
  }

  /** One chunk of the broker's is one reception in Reassembly. */
  lemma ChunkDispatches(b: Broker, h: nat, chunk: seq<byte>, inputs: seq<Input>)
    requires Inv(b) && Has(b, h) && !b.stuck
    requires Has(ReceiveChunk(b, h, chunk, inputs), h) && !ReceiveChunk(b, h, chunk, inputs).stuck
    ensures var r := Receive(Pending(Get(b, h)), chunk);
            r.Open? && Dispatched(Get(b, h), Get(ReceiveChunk(b, h, chunk, inputs), h), r.r)
  {
    var c := Get(b, h);
    if BUF < |chunk| + c.read {
      DeleteKeeps(b, h, NextInput(inputs).own);
    } else {
      var c1 := CopyIn(c, chunk);
      assert Pending(c1) == Pending(c) + chunk;
      PutKeeps(b, h, c1, None);
      PutShape(b, h, c1);
      if |chunk| < 2 {
        assert c.dispatched + [] == c.dispatched;
      } else {
        ReadPacketsDispatches(Put(b, h, c1), h, inputs);
      }
    }
  }

  // ---------------------------------------------------------------- runs

  lemma SameInputStays(b: Broker, e: Event, h: nat)
    requires Inv(b) && Has(b, h) && Has(Step(b, e), h) && !(e.Chunk? && e.h == h)
    ensures var c, c' := Get(b, h), Get(Step(b, e), h);
            c'.dispatched == c.dispatched && c'.inBuf == c.inBuf && c'.read == c.read
  {
    StepKeeps(b, e);
    match e
    case Connection => AcceptKeeps(b);
    case Chunk(g, _, _) => assert Fed(Get(b, h), Get(Step(b, e), h));
    case Gone(g, mem) => OwnStepKeepsInput(b, e, g, h);
    case Timer(g, mem) => OwnStepKeepsInput(b, e, g, h);
    case Task(g, _, mem) => OwnStepKeepsInput(b, e, g, h);
    case _ => FedEvolves(b, Step(b, e), h);
  }

  lemma OwnStepKeepsInput(b: Broker, e: Event, g: nat, h: nat)
    requires Inv(b) && Has(b, h) && Has(Step(b, e), h) && Subject(e) == Some(g) && !e.Chunk?
    ensures var c, c' := Get(b, h), Get(Step(b, e), h);
            c'.dispatched == c.dispatched && c'.inBuf == c.inBuf && c'.read == c.read
  {
    StepKeeps(b, e);
    if g != h {
      assert Fed(Get(b, h), Get(Step(b, e), h));
    } else if !Halted(b) {
      match e
      case Gone(_, mem) => DeleteKeeps(b, h, mem);
      case Timer(_, mem) => TickKeepsInput(b, h, mem);
      case Task(_, room, mem) => TaskKeepsInput(b, h, room, mem);
    }
  }

  lemma TickKeepsInput(b: Broker, h: nat, mem: Mem)
    requires Inv(b) && Has(b, h) && Has(Tick(b, h, mem), h)
    ensures var c, c' := Get(b, h), Get(Tick(b, h, mem), h);
            c'.dispatched == c.dispatched && c'.inBuf == c.inBuf && c'.read == c.read
  {
    var c1 := Countdown(Get(b, h));
    if c1.connTimeout > 0 {
      PutGet(b, h, c1.(connTimeout := c1.connTimeout - 1));
    } else {
      PutOrGone(b, h, c1, mem);
    }
  }

  lemma TaskKeepsInput(b: Broker, h: nat, room: nat, mem: Mem)
    requires Inv(b) && Has(b, h) && Has(RunTask(b, h, room, mem), h)
    ensures var c, c' := Get(b, h), Get(RunTask(b, h, room, mem), h);
            c'.dispatched == c.dispatched && c'.inBuf == c.inBuf && c'.read == c.read
  {
    var c := Get(b, h);
    PutOrGone(b, h, Attempt(c, room).0, mem);
  }

  /** A connection that is gone does not come back. */
  lemma {:induction false} NeverBack(b: Broker, es: seq<Event>, h: nat)
    requires Inv(b) && !Has(b, h) && h < b.next
    ensures !Has(Run(b, es), h)
    decreases |es|
  {
    if es != [] {
      var e := es[0];
      StepKeeps(b, e);
      assert !Has(Step(b, e), h) && h < Step(b, e).next by {
        if e.Connection? {
          AcceptKeeps(b);
        } else if Subject(e).None? {
          SameHandles(b.clients, Step(b, e).clients, h);
        }
      }
      NeverBack(Step(b, e), es[1..], h);
    }
  }

  /** `n` timer ticks of one connection. */
  function Ticks(h: nat, mem: Mem, n: nat): seq<Event> {
    if n == 0 then [] else [Timer(h, mem)] + Ticks(h, mem, n - 1)
  }

  lemma OneTick(b: Broker, h: nat, mem: Mem)
    requires Inv(b) && Has(b, h)
    ensures var t, b' := Get(b, h).connTimeout, Tick(b, h, mem);
            && Inv(b') && h < b'.next
            && (if t == 0 then !Has(b', h)
                else Has(b', h) && Get(b', h).connTimeout == t - 1 && Halted(b') == Halted(b))
  {
    var c := Countdown(Get(b, h));
    TickKeeps(b, h, mem);
    assert b.clients[At(b.clients, h)].h < b.next;
    PutOrGone(b, h, c, mem);
    if c.connTimeout == 0 {
      PutKeeps(b, h, c, None);
      DeleteKeeps(Put(b, h, c), h, mem);
    }
    PutOrGone(b, h, c.(connTimeout := if c.connTimeout > 0 then c.connTimeout - 1 else 0), mem);
  }

  /** A silent connection lasts exactly connectionTimeout ticks. */
  lemma {:induction false} SilenceEndsIt(b: Broker, h: nat, mem: Mem, n: nat)
    requires Inv(b) && Has(b, h) && !Halted(b)
    ensures Has(Run(b, Ticks(h, mem, n)), h) <==> n <= Get(b, h).connTimeout
    decreases n
  {
    if n > 0 {
      assert Ticks(h, mem, n)[1..] == Ticks(h, mem, n - 1);
      OneTick(b, h, mem);
      if Get(b, h).connTimeout > 0 {
        SilenceEndsIt(Tick(b, h, mem), h, mem, n - 1);
      } else {
        NeverBack(Tick(b, h, mem), Ticks(h, mem, n - 1), h);
      }
    }
  }

  lemma {:induction false} HaltedStays(b: Broker, es: seq<Event>)
    requires Halted(b)
    ensures Run(b, es) == b
    decreases |es|
  {
    if es != [] {
      HaltedStays(b, es[1..]);
    }
  }

  lemma {:induction false} RunJoin(b: Broker, es: seq<Event>, fs: seq<Event>)
    ensures Run(b, es + fs) == Run(Run(b, es), fs)
    decreases |es|
  {
    if es == [] {
      assert es + fs == fs;
    } else {
      assert (es + fs)[1..] == es[1..] + fs;
      RunJoin(Step(b, es[0]), es[1..], fs);
    }
  }

  /** The chunks of connection `h` in a run. */
  function ChunksOf(es: seq<Event>, h: nat): seq<seq<byte>> {
    if es == [] then []
    else (if es[0].Chunk? && es[0].h == h then [es[0].chunk] else []) + ChunksOf(es[1..], h)
  }

  lemma JoinDispatch(c: Client, c1: Client, c': Client, first: Received, later: Received)
    requires Dispatched(c, c1, first) && Dispatched(c1, c', later)
    ensures Dispatched(c, c', later.(packets := first.packets + later.packets))
  {
    assert c.dispatched + first.packets + later.packets == c.dispatched + (first.packets + later.packets);
  }

  /**
   * Over any run, whatever the other clients and the timers do: as long as a connection is
   * there and neither loop nor fault has stopped it, the packets dispatched from it are those that its chunks alone
   * determine, and in_buffer holds the undispatched rest.
   */
  lemma {:induction false} RunDispatches(b: Broker, es: seq<Event>, h: nat)
    requires Inv(b) && Has(b, h) && Has(Run(b, es), h) && !Halted(Run(b, es))
    ensures var r := ReceiveAll(Pending(Get(b, h)), ChunksOf(es, h));
            r.Open? && Dispatched(Get(b, h), Get(Run(b, es), h), r.r)
    decreases |es|
  {
    var c := Get(b, h);
    if es == [] {
      assert c.dispatched + [] == c.dispatched;
    } else {
      var e := es[0];
      var b1 := Step(b, e);
      StepKeeps(b, e);
      if Halted(b1) {
        HaltedStays(b1, es[1..]);
      }
      if !Has(b1, h) {
        StepNext(b, e);
        NeverBack(b1, es[1..], h);
      }
      RunDispatches(b1, es[1..], h);
      var chunks, later := ChunksOf(es, h), ChunksOf(es[1..], h);
      if e.Chunk? && e.h == h {
        assert !Halted(b);
        ChunkDispatches(b, h, e.chunk, e.inputs);
        assert chunks[0] == e.chunk && chunks[1..] == later;
        JoinDispatch(c, Get(b1, h), Get(Run(b, es), h), Receive(Pending(c), e.chunk).r,
                     ReceiveAll(Pending(Get(b1, h)), later).r);
      } else {
        SameInputStays(b, e, h);
        assert chunks == later;
      }
    }
  }

  lemma StepNext(b: Broker, e: Event)
    requires Inv(b)
    ensures b.next <= Step(b, e).next
  {
    StepKeeps(b, e);
  }

  /**
   * A fresh connection that sends a stream of whole packets, cut well: whatever else happens
   * in the run, if the connection lasts, its packets are dispatched one by one, in order.
   */
  lemma WholeStreamDispatched(b: Broker, es: seq<Event>, h: nat, ps: seq<seq<byte>>)
    requires Inv(b) && Has(b, h) && Get(b, h).read == 0 && Get(b, h).dispatched == []
    requires Has(Run(b, es), h) && !Halted(Run(b, es))
    requires AllWhole(ps) && GoodCut([], ps, ChunksOf(es, h)) && Concat(ChunksOf(es, h)) == Concat(ps)
    ensures Get(Run(b, es), h).dispatched == ps && Get(Run(b, es), h).read == 0
  {
    RunDispatches(b, es, h);
    WholeStream(ps, ChunksOf(es, h));
    assert Pending(Get(b, h)) == [];
  }
}
