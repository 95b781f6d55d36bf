/** What MQTT_ServerTask writes to a client, and what it loses. */
module Sending {
  import opened Bytes
  import opened MessageQueue
  import opened Retained
  import opened Broker
  import opened BrokerInvariant
  import opened BrokerQueues
  import opened Streams

  /** The message that is tried next: none while the queue holds none, or during the pause after a loss. */
  function Due(c: Client): Option<seq<byte>> {
    if Messages(c.ring) == [] || c.sendTimeout > 0 then None else Some(Messages(c.ring)[0])
  }

  /** From `c` to `c'` by one attempt with `room` bytes of room. */
  ghost predicate Tried(c: Client, c': Client, room: nat) {
    && c' == c.(ring := c'.ring, taken := c'.taken, sent := c'.sent, sendTimeout := c'.sendTimeout)
    && ClientOk(c')
    && (match Due(c)
        case None => c'.sent == c.sent && c'.sendTimeout == c.sendTimeout && Messages(c'.ring) == Messages(c.ring)
        case Some(m) =>
          && Messages(c.ring) == [m] + Messages(c'.ring)
          && c'.sent == (if |m| < room then c.sent + [m] else c.sent)
          && c'.sendTimeout == (if |m| < room then 0 else 5))
  }

  lemma TakeExactly(c: Client)
    requires ClientOk(c)
    ensures var (c1, m) := Take(c);
            var ms := Messages(c.ring);
            && c1 == c.(ring := c1.ring, taken := c1.taken) && ClientOk(c1)
            && (if ms == [] then m == None && Messages(c1.ring) == []
                else m == Some(ms[0]) && ms == [ms[0]] + Messages(c1.ring) && ClientOk(c1.(sent := c1.sent + [ms[0]])))
  {
    TakeKeeps(c);
    assert Messages([]) == [];
    if Messages(c.ring) != [] {
      assert Messages(c.ring)[0] == c.queued[|c.taken|];
    }
    GetsWhole(c.ring);
  }

  /** The message due is written if and only if it is smaller than the room; otherwise it is lost, and a pause begins. */
  lemma AttemptExactly(c: Client, room: nat)
    requires ClientOk(c)
    ensures Tried(c, Attempt(c, room).0, room)
    ensures Attempt(c, room).1 <==> Due(c).None? || |Due(c).value| < room
  {
    TakeExactly(c);
    assert Messages([]) == [];
  }

  /**
   * One run of MQTT_ServerTask: before CONNECT it does nothing. A connection that awaits its end
   * is removed if and only if no message was tried, or the one tried was written.
   */
  lemma TaskExactly(b: Broker, h: nat, room: nat, mem: Mem)
    requires Inv(b) && QueuesOk(b) && !Halted(b) && Has(b, h)
    ensures var c, b' := Get(b, h), Step(b, Task(h, room, mem));
            if c.state == TcpConnected then b' == b
            else
              && (Has(b', h) <==> c.state == MqttData || (Due(c).Some? && room <= |Due(c).value|))
              && (Has(b', h) ==> Tried(c, Get(b', h), room) && b' == Put(b, h, Get(b', h)))
  {
    var c := Get(b, h);
    assert ClientOk(c);
    AttemptExactly(c, room);
    PutOrGone(b, h, Attempt(c, room).0, mem);
  }

  /** One run of the task for each of these amounts of room. */
  function Tasks(h: nat, rooms: seq<nat>, mem: Mem): seq<Event> {
    if rooms == [] then [] else [Task(h, rooms[0], mem)] + Tasks(h, rooms[1..], mem)
  }

  /** With enough room the first message is written. */
  lemma OneWritten(b: Broker, h: nat, room: nat, mem: Mem)
    requires Inv(b) && QueuesOk(b) && !Halted(b) && Has(b, h)
    requires Get(b, h).state == MqttData && Get(b, h).sendTimeout == 0
    requires Messages(Get(b, h).ring) != [] && |Messages(Get(b, h).ring)[0]| < room
    ensures var c, b' := Get(b, h), Step(b, Task(h, room, mem));
            && Inv(b') && QueuesOk(b') && !Halted(b') && Has(b', h) && b' == Put(b, h, Get(b', h))
            && Get(b', h).state == MqttData && Get(b', h).sendTimeout == 0
            && Get(b', h).sent == c.sent + [Messages(c.ring)[0]]
            && Messages(c.ring) == [Messages(c.ring)[0]] + Messages(Get(b', h).ring)
  {
    TaskExactly(b, h, room, mem);
    StepKeeps(b, Task(h, room, mem));
    StepQ(b, Task(h, room, mem));
  }

  lemma PutTwice(b: Broker, h: nat, c: Client, d: Client)
    requires Has(b, h) && c.h == h
    ensures Has(Put(b, h, c), h) && Put(Put(b, h, c), h, d) == Put(b, h, d)
    ensures Put(b, h, Get(b, h)) == b
  {
    PutGet(b, h, c);
  }

  /** The first of `ms` first, and then the first `n` of the others. */
  lemma FirstOnes<T>(sent: seq<T>, ms: seq<T>, later: seq<T>, n: nat)
    requires n < |ms| && ms == [ms[0]] + later
    ensures sent + [ms[0]] + later[..n] == sent + ms[..n + 1] && later[n..] == ms[n + 1..]
  {
  }

  /** There is a message for each amount of room, and it is smaller. */
  predicate AllFit(ms: seq<seq<byte>>, rooms: seq<nat>) {
    rooms == [] || (ms != [] && |ms[0]| < rooms[0] && AllFit(ms[1..], rooms[1..]))
  }

  lemma {:induction false} FitsMeansThere(ms: seq<seq<byte>>, rooms: seq<nat>)
    requires AllFit(ms, rooms)
    ensures |rooms| <= |ms|
  {
    if rooms != [] {
      FitsMeansThere(ms[1..], rooms[1..]);
    }
  }

  /** With enough room each time, as many messages are written as the task runs, in order. */
  lemma {:induction false} TasksWriteInOrder(b: Broker, h: nat, rooms: seq<nat>, mem: Mem)
    requires Inv(b) && QueuesOk(b) && !Halted(b) && Has(b, h)
    requires Get(b, h).state == MqttData && Get(b, h).sendTimeout == 0
    requires AllFit(Messages(Get(b, h).ring), rooms)
    ensures |rooms| <= |Messages(Get(b, h).ring)|
    ensures var c, b', n := Get(b, h), Run(b, Tasks(h, rooms, mem)), |rooms|;
            && Has(b', h) && !Halted(b') && b' == Put(b, h, Get(b', h))
            && Get(b', h).sent == c.sent + Messages(c.ring)[..n]
            && Messages(Get(b', h).ring) == Messages(c.ring)[n..]
    decreases |rooms|
  {
    var c := Get(b, h);
    var ms := Messages(c.ring);
    FitsMeansThere(ms, rooms);
    if rooms == [] {
      PutTwice(b, h, c, c);
      assert c.sent + ms[..0] == c.sent;
    } else {
      OneWritten(b, h, rooms[0], mem);
      var b1 := Step(b, Task(h, rooms[0], mem));
      var c1 := Get(b1, h);
      var later := Messages(c1.ring);
      assert Tasks(h, rooms, mem)[1..] == Tasks(h, rooms[1..], mem);
      assert later == ms[1..];
      TasksWriteInOrder(b1, h, rooms[1..], mem);
      FirstOnes(c.sent, ms, later, |rooms| - 1);
      PutTwice(b, h, c1, Get(Run(b1, Tasks(h, rooms[1..], mem)), h));
    }
  }

  /** In the pause after a loss every tick takes one off, so that it ends with the fifth. */
  lemma {:induction false} PauseEnds(b: Broker, h: nat, mem: Mem, n: nat)
    requires Inv(b) && !Halted(b) && Has(b, h) && n <= Get(b, h).connTimeout
    ensures var b' := Run(b, Ticks(h, mem, n));
            && Has(b', h) && !Halted(b')
            && Get(b', h) == Get(b, h).(sendTimeout := if n <= Get(b, h).sendTimeout then Get(b, h).sendTimeout - n else 0,
                                       connTimeout := Get(b, h).connTimeout - n)
    decreases n
  {
    if n > 0 {
      assert Ticks(h, mem, n)[1..] == Ticks(h, mem, n - 1);
      OneTick(b, h, mem);
      var c := Countdown(Get(b, h));
      PutGet(b, h, c.(connTimeout := c.connTimeout - 1));
      PauseEnds(Tick(b, h, mem), h, mem, n - 1);
    }
  }
}
