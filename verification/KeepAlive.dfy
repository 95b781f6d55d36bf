/** When the timer ends a connection: the keep-alive window, over whole runs. */
module KeepAlive {
  import opened Bytes
  import opened Packet
  import opened Reader
  import opened Reassembly
  import opened Retained
  import opened Broker
  import opened BrokerInvariant
  import opened Streams

  /** How many ticks a connection may be silent after a packet. */
  function Window(c: Client): nat {
    2 * c.keepalive + 10
  }

  // ---------------------------------------------------------------- one packet, one chunk

  /** Past CONNECT, a packet that leaves the connection feeds its queue at most. */
  lemma HandleFeeds(b: Broker, h: nat, len: Count, inp: Input)
    requires Inv(b) && Has(b, h) && Get(b, h).state != TcpConnected && Handle(b, h, len, inp).Continue?
    ensures Has(Handle(b, h, len, inp).b, h) && Fed(Get(b, h), Get(Handle(b, h, len, inp).b, h))
  {
    var c := Get(b, h);
    var kind := Kind(c.inBuf);
    if c.state == MqttData {
      if kind == SUBSCRIBE {
        var w := SubscribeWalk(b.slots, h, c.inBuf, len, 4, [], []);
        var c1 := Ack(c, SUBACK, GetId(c.inBuf, BUF), w.codes);
        SendRetainedFeeds(c1, b.retained, w.last, 0);
        PutGet(b.(slots := w.slots), h, SendRetained(c1, b.retained, w.last, 0));
      } else if kind == UNSUBSCRIBE {
        var w := UnsubscribeWalk(b.slots, h, c.inBuf, len, 4);
        PutGet(b.(slots := w.slots), h, Ack(c, UNSUBACK, GetId(c.inBuf, BUF), []));
      } else if kind == PUBLISH {
        PublishFeeds(b, h, c.inBuf, inp.own);
      } else if kind == PINGREQ {
        PutGet(b, h, Enqueue(c, Build(PINGRESP, 0, 0, 0, [])));
      }
    }
  }

  lemma PublishFeeds(b: Broker, h: nat, buf: InBuffer, mem: Mem)
    requires Inv(b) && Has(b, h)
    ensures Has(HandlePublish(b, buf, mem), h) && Fed(Get(b, h), Get(HandlePublish(b, buf, mem), h))
  {
    match PublishTopic(buf, BUF)
    case None =>
    case Some(t) =>
      FanoutFeeds(b, CStr(t), PayloadOf(buf), 0);
      FedEvolves(b, Fanout(b, CStr(t), PayloadOf(buf), 0), h);
  }

  /** No packet was handled and nothing changed, or the last one renewed the timeout. */
  predicate Renewed(c: Client, c': Client) {
    && |c.dispatched| <= |c'.dispatched|
    && (if |c'.dispatched| == |c.dispatched| then c'.connTimeout == c.connTimeout && c'.keepalive == c.keepalive
        else c'.connTimeout == Window(c'))
    && (c.state != TcpConnected ==> c'.keepalive == c.keepalive)
  }

  lemma RenewedTwice(c: Client, c1: Client, c': Client)
    requires Renewed(c, c1) && Renewed(c1, c') && StateStep(c.state, c1.state)
    requires |c.dispatched| < |c1.dispatched| && c1.connTimeout == Window(c1)
    ensures Renewed(c, c')
  {
  }

  /** One packet renews the timeout, by the keep-alive that is known then. */
  lemma PacketRenews(b: Broker, h: nat, inputs: seq<Input>) returns (b1: Broker)
    requires Inv(b) && Has(b, h) && !b.stuck && MessageLength(Get(b, h)) <= Get(b, h).read
    requires Has(ReadPackets(b, h, inputs), h) && !ReadPackets(b, h, inputs).stuck
    ensures var c, len := Get(b, h), MessageLength(Get(b, h));
            && 0 < len && Inv(b1) && Has(b1, h) && !b1.stuck && Get(b1, h).read == c.read - len
            && Renewed(c, Get(b1, h)) && StateStep(c.state, Get(b1, h).state)
            && |c.dispatched| < |Get(b1, h).dispatched| && Get(b1, h).connTimeout == Window(Get(b1, h))
            && ReadPackets(b, h, inputs) == (if len < c.read then ReadPackets(b1, h, LaterInputs(inputs)) else b1)
  {
    var c := Get(b, h);
    var len := MessageLength(c);
    var seen := c.(dispatched := c.dispatched + [c.inBuf[..len]]);
    var b0 := Put(b, h, seen);
    PutKeeps(b, h, seen, None);
    PutShape(b, h, seen);
    HandleSound(b0, h, len, NextInput(inputs));
    var r := Handle(b0, h, len, NextInput(inputs));
    assert r.Continue? && len != 0;
    if c.state != TcpConnected {
      HandleFeeds(b0, h, len, NextInput(inputs));
    }
    b1 := Put(r.b, h, Finish(Get(r.b, h), c.read, len));
    FinishedPending(r.b, h, seen, len);
  }

  lemma {:induction false} ReadPacketsRenews(b: Broker, h: nat, inputs: seq<Input>)
    requires Inv(b) && Has(b, h) && !b.stuck
    requires Has(ReadPackets(b, h, inputs), h) && !ReadPackets(b, h, inputs).stuck
    ensures Renewed(Get(b, h), Get(ReadPackets(b, h, inputs), h))
    decreases Get(b, h).read
  {
    if MessageLength(Get(b, h)) <= Get(b, h).read {
      var b1 := PacketRenews(b, h, inputs);
      if MessageLength(Get(b, h)) < Get(b, h).read {
        ReadPacketsRenews(b1, h, LaterInputs(inputs));
        RenewedTwice(Get(b, h), Get(b1, h), Get(ReadPackets(b, h, inputs), h));
      }
    }
  }

  /**
   * A chunk in which a packet was handled, and that leaves the connection, sets its timeout to
   * twice the keep-alive and ten ticks; one that completes no packet leaves the timeout.
   */
  lemma ChunkRenews(b: Broker, h: nat, chunk: seq<byte>, inputs: seq<Input>)
    requires Inv(b) && Has(b, h) && !b.stuck
    requires Has(ReceiveChunk(b, h, chunk, inputs), h) && !ReceiveChunk(b, h, chunk, inputs).stuck
    ensures var c, c' := Get(b, h), Get(ReceiveChunk(b, h, chunk, inputs), h);
            var r := Receive(Pending(c), chunk);
            && r.Open? && Pending(c') == r.r.rest && c'.dispatched == c.dispatched + r.r.packets
            && c'.connTimeout == (if r.r.packets == [] then c.connTimeout else 2 * c'.keepalive + 10)
            && (c.state != TcpConnected ==> c'.keepalive == c.keepalive)
  {
    ChunkDispatches(b, h, chunk, inputs);
    var c := Get(b, h);
    if BUF < |chunk| + c.read {
      DeleteKeeps(b, h, NextInput(inputs).own);
    } else {
      var c1 := CopyIn(c, chunk);
      PutKeeps(b, h, c1, None);
      PutShape(b, h, c1);
      if 2 <= |chunk| {
        ReadPacketsRenews(Put(b, h, c1), h, inputs);
      }
    }
  }

  /** From its last packet on, a connection that falls silent lasts exactly that many ticks. */
  lemma LastsExactly(b: Broker, h: nat, chunk: seq<byte>, inputs: seq<Input>, mem: Mem, n: nat)
    requires Inv(b) && Has(b, h) && !Halted(b)
    requires var b1 := Step(b, Chunk(h, chunk, inputs));
             Has(b1, h) && !Halted(b1) && Get(b1, h).dispatched != Get(b, h).dispatched
    ensures var b1 := Step(b, Chunk(h, chunk, inputs));
            Has(Run(b1, Ticks(h, mem, n)), h) <==> n <= 2 * Get(b1, h).keepalive + 10
  {
    var b1 := Step(b, Chunk(h, chunk, inputs));
    StepKeeps(b, Chunk(h, chunk, inputs));
    ChunkRenews(b, h, chunk, inputs);
    assert Get(b, h).dispatched + [] == Get(b, h).dispatched;
    SilenceEndsIt(b1, h, mem, n);
  }

  /** A new connection that sends nothing lasts forty ticks. */
  lemma NewcomerLasts(b: Broker, mem: Mem, n: nat)
    requires Inv(b) && !Halted(b)
    ensures var b1 := Step(b, Connection);
            && Has(b1, b.next) && Get(b1, b.next).state == TcpConnected
            && (Has(Run(b1, Ticks(b.next, mem, n)), b.next) <==> n <= 40)
  {
    AcceptKeeps(b);
    AtIs(Accept(b).clients, b.next, 0);
    SilenceEndsIt(Accept(b), b.next, mem, n);
  }

  // ---------------------------------------------------------------- runs

  /** What can be told from a connection's own chunks and ticks: the bytes that wait, and the ticks left. */
  datatype Watch = Watch(rest: seq<byte>, left: int)

  function WatchOf(c: Client): Watch {
    Watch(Pending(c), c.connTimeout)
  }

  /** A tick takes one off; a chunk that completes a packet opens the window anew. */
  function Observe(w: Watch, e: Event, h: nat, window: nat): Watch {
    match e
    case Timer(g, _) => if g == h then w.(left := w.left - 1) else w
    case Chunk(g, chunk, _) =>
      if g != h then w
      else
        (match Receive(w.rest, chunk)
         case Overflow => w
         case Open(r) => Watch(r.rest, if r.packets == [] then w.left else window))
    case _ => w
  }

  function ObserveAll(w: Watch, es: seq<Event>, h: nat, window: nat): Watch
    decreases |es|
  {
    if es == [] then w else ObserveAll(Observe(w, es[0], h, window), es[1..], h, window)
  }

  /** No tick of the connection comes when none is left. */
  predicate Punctual(w: Watch, es: seq<Event>, h: nat, window: nat)
    decreases |es|
  {
    es == [] ||
    ((es[0].Timer? && es[0].h == h ==> 0 < w.left) && Punctual(Observe(w, es[0], h, window), es[1..], h, window))
  }

  lemma TickWatched(b: Broker, h: nat, mem: Mem)
    requires Inv(b) && Has(b, h) && Has(Tick(b, h, mem), h)
    ensures var c, c' := Get(b, h), Get(Tick(b, h, mem), h);
            0 < c.connTimeout && c' == c.(sendTimeout := c'.sendTimeout, connTimeout := c.connTimeout - 1)
  {
    var c := Countdown(Get(b, h));
    OneTick(b, h, mem);
    PutOrGone(b, h, c.(connTimeout := c.connTimeout - 1), mem);
  }

  lemma TaskWatched(b: Broker, h: nat, room: nat, mem: Mem)
    requires Inv(b) && Has(b, h) && Has(RunTask(b, h, room, mem), h)
    ensures var c, c' := Get(b, h), Get(RunTask(b, h, room, mem), h);
            c' == c.(ring := c'.ring, taken := c'.taken, sent := c'.sent, sendTimeout := c'.sendTimeout)
  {
    PutOrGone(b, h, Attempt(Get(b, h), room).0, mem);
  }

  /** What the steps of others, and those of nobody, leave of a connection. */
  lemma OthersFeed(b: Broker, e: Event, h: nat)
    requires Inv(b) && Has(b, h) && Has(Step(b, e), h) && Subject(e) != Some(h)
    ensures Fed(Get(b, h), Get(Step(b, e), h))
  {
    StepKeeps(b, e);
    if e.Connection? {
      AcceptKeeps(b);
    } else if Subject(e).None? {
      FedEvolves(b, Step(b, e), h);
    } else {
      assert Fed(Get(b, h), Get(Step(b, e), h));
    }
  }

  /** A step that leaves the connection does to it what can be observed. */
  lemma StepObserved(b: Broker, e: Event, h: nat)
    requires Inv(b) && Has(b, h) && Get(b, h).state != TcpConnected && Has(Step(b, e), h) && !Halted(Step(b, e))
    ensures var c, c' := Get(b, h), Get(Step(b, e), h);
            && c'.keepalive == c.keepalive && c'.state == c.state
            && WatchOf(c') == Observe(WatchOf(c), e, h, Window(c))
            && (e.Timer? && e.h == h ==> 0 < c.connTimeout)
  {
    if Subject(e) != Some(h) {
      OthersFeed(b, e, h);
    } else {
      StepKeeps(b, e);
      match e
      case Chunk(_, chunk, inputs) => ChunkRenews(b, h, chunk, inputs);
      case Gone(_, mem) => DeleteKeeps(b, h, mem);
      case Timer(_, mem) => TickWatched(b, h, mem);
      case Task(_, room, mem) => TaskWatched(b, h, room, mem);
    }
  }

  /** A connection that is there in the end was there after the first step, and nothing has stopped the broker. */
  lemma ThereAllAlong(b: Broker, e: Event, es: seq<Event>, h: nat)
    requires Inv(b) && Has(b, h) && Has(Run(Step(b, e), es), h) && !Halted(Run(Step(b, e), es))
    ensures Inv(Step(b, e)) && Has(Step(b, e), h) && !Halted(Step(b, e))
  {
    StepKeeps(b, e);
    if Halted(Step(b, e)) {
      HaltedStays(Step(b, e), es);
    }
    if !Has(Step(b, e), h) {
      NeverBack(Step(b, e), es, h);
    }
  }

  /**
   * Over any run that leaves a connection, its timeout past CONNECT is what its own chunks and
   * ticks tell, and it has been punctual.
   */
  lemma {:induction false} RunObserved(b: Broker, es: seq<Event>, h: nat)
    requires Inv(b) && Has(b, h) && Get(b, h).state != TcpConnected && Has(Run(b, es), h) && !Halted(Run(b, es))
    ensures var c, c' := Get(b, h), Get(Run(b, es), h);
            && WatchOf(c') == ObserveAll(WatchOf(c), es, h, Window(c))
            && Punctual(WatchOf(c), es, h, Window(c))
    decreases |es|
  {
    if es != [] {
      ThereAllAlong(b, es[0], es[1..], h);
      StepObserved(b, es[0], h);
      RunObserved(Step(b, es[0]), es[1..], h);
    }
  }

  /** After any such run the next tick removes the connection if and only if no tick is left. */
  lemma TimerRemovesExactly(b: Broker, es: seq<Event>, h: nat, mem: Mem)
    requires Inv(b) && Has(b, h) && Get(b, h).state != TcpConnected && Has(Run(b, es), h) && !Halted(Run(b, es))
    ensures var b1 := Run(b, es);
            !Has(Step(b1, Timer(h, mem)), h) <==> ObserveAll(WatchOf(Get(b, h)), es, h, 2 * Get(b, h).keepalive + 10).left == 0
  {
    RunKeeps(b, es);
    NextTick(Run(b, es), h, mem);
    RunObserved(b, es, h);
  }

  lemma NextTick(b: Broker, h: nat, mem: Mem)
    requires Inv(b) && Has(b, h) && !Halted(b)
    ensures !Has(Step(b, Timer(h, mem)), h) <==> WatchOf(Get(b, h)).left == 0
  {
    OneTick(b, h, mem);
  }

  /** Some tick of the run removes the connection. */
  predicate TimedOut(b: Broker, es: seq<Event>, h: nat)
    decreases |es|
  {
    es != [] &&
    ((es[0].Timer? && es[0].h == h && Has(b, h) && !Has(Step(b, es[0]), h)) || TimedOut(Step(b, es[0]), es[1..], h))
  }

  lemma {:induction false} GoneIsGone(b: Broker, es: seq<Event>, h: nat)
    requires Inv(b) && ((!Has(b, h) && h < b.next) || Halted(b))
    ensures !TimedOut(b, es, h)
    decreases |es|
  {
    if es != [] {
      StepKeeps(b, es[0]);
      if !Halted(b) {
        NeverBack(b, [es[0]], h);
        assert [es[0]][1..] == [] && Run(b, [es[0]]) == Run(Step(b, es[0]), []);
      }
      GoneIsGone(Step(b, es[0]), es[1..], h);
    }
  }

  lemma TickLeaves(b: Broker, e: Event, h: nat)
    requires Inv(b) && Has(b, h) && !Halted(b)
    ensures Inv(Step(b, e)) && h < Step(b, e).next
    ensures e.Timer? && e.h == h && 0 < Get(b, h).connTimeout ==> Has(Step(b, e), h)
  {
    StepKeeps(b, e);
    assert b.clients[At(b.clients, h)].h < b.next;
    if e.Timer? && e.h == h {
      OneTick(b, h, e.mem);
    }
  }

  /**
   * A connection past CONNECT whose packets are completed at most twice the keep-alive and ten
   * ticks apart is never removed by its timer, whatever else happens.
   */
  lemma {:induction false} PunctualStays(b: Broker, es: seq<Event>, h: nat)
    requires Inv(b) && Has(b, h) && Get(b, h).state != TcpConnected
    requires Punctual(WatchOf(Get(b, h)), es, h, 2 * Get(b, h).keepalive + 10)
    ensures !TimedOut(b, es, h)
    decreases |es|
  {
    if Halted(b) {
      GoneIsGone(b, es, h);
    } else if es != [] {
      TickLeaves(b, es[0], h);
      if Has(Step(b, es[0]), h) && !Halted(Step(b, es[0])) {
        StepObserved(b, es[0], h);
        PunctualStays(Step(b, es[0]), es[1..], h);
      } else {
        GoneIsGone(Step(b, es[0]), es[1..], h);
      }
    }
  }
}
