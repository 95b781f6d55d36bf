/**
 * The outbound message queue of src/queue.c: variable-length messages, framed, in a ring.
 *
 * A put that runs out of room leaves a torn frame behind. The queue is nevertheless a FIFO
 * of exactly the messages whose put succeeded.
 */
module MessageQueue {
  import opened Bytes
  import opened Ring
  import opened Proto

  // ---------------------------------------------------------------- the ring's contents

  /** What PROTO_ParseRb makes of a stretch of ring up to an end byte, whatever the size. */
  function Decode(chunk: seq<byte>): seq<byte> {
    Feed(ParserState(true, false, []), |chunk|, chunk).out
  }

  /** The messages in the ring: one for each end byte. */
  function Messages(c: seq<byte>): seq<seq<byte>>
    decreases |c|
  {
    var k := IndexOf(c, END);
    if k == |c| then [] else [Decode(c[..k])] + Messages(c[k + 1..])
  }

  /** The ring starts with a start byte, and so does what follows each end byte. */
  ghost predicate Aligned(c: seq<byte>) {
    && (c != [] ==> c[0] == START)
    && forall i :: 0 < i < |c| && c[i - 1] == END ==> c[i] == START
  }

  /** What a put of `m` writes when `free` bytes are free. */
  function Written(m: seq<byte>, free: nat): seq<byte> {
    Frame(m)[..Min(free, |Frame(m)|)]
  }

  predicate Fits(c: seq<byte>, size: nat, m: seq<byte>) {
    |c| + |Frame(m)| <= size
  }

  function PutContents(c: seq<byte>, size: nat, m: seq<byte>): seq<byte>
    requires |c| <= size
  {
    c + Written(m, size - |c|)
  }

  /** Capping the parser's buffer only cuts its output. */
  lemma {:induction false} FeedCut(p: ParserState, q: ParserState, cap: nat, big: nat, s: seq<byte>)
    requires cap <= big && p == q.(out := q.out[..Min(cap, |q.out|)])
    requires |q.out| + |s| <= big
    ensures var r := Feed(q, big, s);
            |r.out| <= |q.out| + |s| && Feed(p, cap, s) == r.(out := r.out[..Min(cap, |r.out|)])
    decreases |s|
  {
    if s != [] {
      var q' := ParseStep(q, big, s[0]);
      var p' := ParseStep(p, cap, s[0]);
      assert p'.out == q'.out[..Min(cap, |q'.out|)];
      FeedCut(p', q', cap, big, s[1..]);
    }
  }

  /** The parser never holds more than it was fed, so a big enough buffer makes no difference. */
  lemma FeedUncut(p: ParserState, a: nat, b: nat, s: seq<byte>)
    requires |p.out| + |s| <= a && |p.out| + |s| <= b
    ensures Feed(p, a, s) == Feed(p, b, s)
  {
    if a <= b {
      FeedCut(p, p, a, b, s);
      var r := Feed(p, b, s);
      assert r.out[..|r.out|] == r.out;
    } else {
      FeedUncut(p, b, a, s);
    }
  }

  /** Whatever precedes it, a whole frame decodes to its own message. */
  lemma DecodeEndsWithFrame(c: seq<byte>, m: seq<byte>)
    ensures Decode(c + [START] + Stuff(m)) == m
  {
    var chunk := c + [START] + Stuff(m);
    var p := ParserState(true, false, []);
    assert chunk == c + ([START] + Stuff(m));
    FeedConcat(p, |chunk|, c, [START] + Stuff(m));
    FeedConcat(Feed(p, |chunk|, c), |chunk|, [START], Stuff(m));
    StuffIsClean(m);
    FeedStuff(p, |chunk|, m);
    assert [] + m == m && m[..Min(|chunk|, |m|)] == m;
  }

  /** What follows the last end byte. */
  function Tail(c: seq<byte>): (r: seq<byte>)
    ensures END !in r
    decreases |c|
  {
    var k := IndexOf(c, END);
    if k == |c| then c else Tail(c[k + 1..])
  }

  lemma NoMessage(x: seq<byte>)
    requires END !in x
    ensures Messages(x) == []
  {
    IndexOfIs(x, END, |x|);
  }

  /** What is added at the end does not touch the messages before. */
  lemma {:induction false} MessagesAppend(c: seq<byte>, t: seq<byte>)
    ensures Messages(c + t) == Messages(c) + Messages(Tail(c) + t)
    decreases |c|
  {
    var k := IndexOf(c, END);
    if k == |c| {
      NoMessage(c);
      assert [] + Messages(c + t) == Messages(c + t);
    } else {
      FirstMessage(c, k, t);
      MessagesAppend(c[k + 1..], t);
      Associate([Decode(c[..k])], Messages(c[k + 1..]), Messages(Tail(c[k + 1..]) + t));
    }
  }

  lemma FirstMessage(c: seq<byte>, k: nat, t: seq<byte>)
    requires k < |c| && k == IndexOf(c, END)
    ensures Messages(c + t) == [Decode(c[..k])] + Messages(c[k + 1..] + t)
  {
    var d := c + t;
    IndexOfIs(d, END, k);
    assert d[..k] == c[..k];
    assert d[k + 1..] == c[k + 1..] + t;
  }

  lemma OneMessage(x: seq<byte>)
    requires END !in x
    ensures Messages(x + [END]) == [Decode(x)]
  {
    IndexOfIs(x + [END], END, |x|);
    assert (x + [END])[..|x|] == x && (x + [END])[|x| + 1..] == [];
    NoMessage([]);
  }

  /** A put that succeeds appends its message, even behind a frame torn in mid-escape. */
  lemma WholeFrameAppends(c: seq<byte>, m: seq<byte>)
    ensures Messages(c + Frame(m)) == Messages(c) + [m]
  {
    var x := Tail(c) + [START] + Stuff(m);
    MessagesAppend(c, Frame(m));
    StuffIsClean(m);
    Associate(Tail(c), [START] + Stuff(m), [END]);
    Associate(Tail(c), [START], Stuff(m));
    OneMessage(x);
    DecodeEndsWithFrame(Tail(c), m);
  }

  /** Bytes without an end byte are not a message. */
  lemma TornFrameAddsNothing(c: seq<byte>, t: seq<byte>)
    requires END !in t
    ensures Messages(c + t) == Messages(c)
  {
    MessagesAppend(c, t);
    NoMessage(Tail(c) + t);
  }

  /** Only the last byte of a frame is an end byte, so a torn frame has none. */
  lemma WrittenShape(m: seq<byte>, free: nat)
    ensures var w := Written(m, free);
            && (w != [] ==> w[0] == START)
            && (forall i :: 0 <= i < |w| && w[i] == END ==> i == |Frame(m)| - 1)
  {
    StuffIsClean(m);
  }

  lemma PutKeepsAligned(c: seq<byte>, size: nat, m: seq<byte>)
    requires Aligned(c) && |c| <= size
    ensures Aligned(PutContents(c, size, m))
  {
    var w := Written(m, size - |c|);
    WrittenShape(m, size - |c|);
    forall i | 0 < i < |c + w| && (c + w)[i - 1] == END
      ensures (c + w)[i] == START
    {
      if i < |c| {
        assert c[i - 1] == END;
      } else if i == |c| {
        assert w[0] == START;
      }
    }
  }

  /** A put keeps the ring aligned and appends its message exactly when the frame fits. */
  lemma PutAppendsOrTears(c: seq<byte>, size: nat, m: seq<byte>)
    requires Aligned(c) && |c| <= size
    ensures var d := PutContents(c, size, m);
            && Aligned(d) && |d| <= size
            && Messages(d) == (if Fits(c, size, m) then Messages(c) + [m] else Messages(c))
            && (!Fits(c, size, m) ==> |d| == size && END !in d[|c|..])
  {
    var w := Written(m, size - |c|);
    PutKeepsAligned(c, size, m);
    WrittenShape(m, size - |c|);
    assert (c + w)[|c|..] == w;
    if Fits(c, size, m) {
      assert w == Frame(m);
      WholeFrameAppends(c, m);
    } else {
      assert END !in w;
      TornFrameAddsNothing(c, w);
    }
  }

  /**
   * The uninitialised isBegin (`garbage`) is harmless, because an aligned ring starts with a
   * start byte; and a short buffer only cuts the message.
   */
  lemma DecodeFromAnyState(c: seq<byte>, k: nat, cap: nat, garbage: bool)
    requires k < |c| && c[k] == END && c[0] == START
    ensures var m := Decode(c[..k]);
            Feed(ParserState(garbage, false, []), cap, c[..k + 1]).out == m[..Min(cap, |m|)]
  {
    var chunk := c[..k];
    var g := ParserState(garbage, false, []);
    var p := ParserState(true, false, []);
    FeedOneMore(g, cap, c, k);
    assert chunk[0] == START && ParseStep(g, cap, START) == ParseStep(p, cap, START);
    assert Feed(g, cap, chunk) == Feed(p, cap, chunk);
    var big := if cap <= k then k else cap;
    FeedCut(p, p, cap, big, chunk);
    FeedUncut(p, big, k, chunk);
  }

  /** Taking the first message leaves the others, in an aligned ring. */
  lemma GetTakesFirst(c: seq<byte>, cap: nat, garbage: bool)
    requires Aligned(c) && IndexOf(c, END) < |c|
    ensures var k := IndexOf(c, END);
            && Messages(c) != [] && Messages(c[k + 1..]) == Messages(c)[1..] && Aligned(c[k + 1..])
            && Feed(ParserState(garbage, false, []), cap, c[..k + 1]).out == Messages(c)[0][..Min(cap, |Messages(c)[0]|)]
  {
    var k := IndexOf(c, END);
    DecodeFromAnyState(c, k, cap, garbage);
    var rest := c[k + 1..];
    assert rest != [] ==> c[k + 1 - 1] == END && rest[0] == c[k + 1];
    forall i | 0 < i < |rest| && rest[i - 1] == END
      ensures rest[i] == START
    {
      assert c[k + 1 + i - 1] == END;
    }
  }

  // ---------------------------------------------------------------- runs

  /** A call on the queue; `garbage` is the parser's isBegin before it is ever set. */
  datatype Op = Puts(m: seq<byte>) | Gets(maxLen: nat, garbage: bool)
  datatype Reply = Stored | Full | Got(m: seq<byte>) | Nothing

  /** One call on a ring of `size` bytes that holds `c`. */
  function Exec(c: seq<byte>, size: nat, op: Op): (seq<byte>, Reply)
    requires |c| <= size
  {
    match op
    case Puts(m) => (PutContents(c, size, m), if Fits(c, size, m) then Stored else Full)
    case Gets(maxLen, garbage) =>
      var k := IndexOf(c, END);
      if k == |c| then ([], Nothing)
      else (c[k + 1..], Got(Feed(ParserState(garbage, false, []), maxLen, c[..k + 1]).out))
  }

  /** What a FIFO that holds `q` may reply, and what it holds then. */
  ghost predicate FifoStep(q: seq<seq<byte>>, op: Op, r: Reply, q': seq<seq<byte>>) {
    match op
    case Puts(m) => (r == Stored && q' == q + [m]) || (r == Full && q' == q)
    case Gets(maxLen, _) =>
      if q == [] then r == Nothing && q' == q
      else r == Got(q[0][..Min(maxLen, |q[0]|)]) && q' == q[1..]
  }

  lemma ExecIsFifoStep(c: seq<byte>, size: nat, op: Op)
    requires Aligned(c) && |c| <= size
    ensures var (d, r) := Exec(c, size, op);
            && Aligned(d) && |d| <= size
            && FifoStep(Messages(c), op, r, Messages(d))
            && (r == Nothing <==> op.Gets? && END !in c)
            && (r == Nothing ==> d == [])
            && (r == Full ==> |d| == size)
  {
    match op
    case Puts(m) => PutAppendsOrTears(c, size, m);
    case Gets(maxLen, garbage) =>
      if IndexOf(c, END) < |c| {
        GetTakesFirst(c, maxLen, garbage);
      }
  }

  lemma ExecGets(c: seq<byte>, size: nat, maxLen: nat, garbage: bool)
    requires Aligned(c) && |c| <= size
    ensures var (d, reply) := Exec(c, size, Op.Gets(maxLen, garbage));
            && Aligned(d)
            && (reply == Nothing <==> IndexOf(c, END) == |c|)
            && (reply == Nothing <==> Messages(c) == [])
            && (reply == Nothing ==> d == [])
            && (reply != Nothing ==> reply == Got(Messages(c)[0][..Min(maxLen, |Messages(c)[0]|)])
                                     && Messages(d) == Messages(c)[1..])
  {
    if IndexOf(c, END) < |c| {
      GetTakesFirst(c, maxLen, garbage);
    } else {
      NoMessage(c);
    }
  }

  /** The contents of the ring and the replies after a run of calls. */
  function RunOps(c: seq<byte>, size: nat, ops: seq<Op>): (r: (seq<byte>, seq<Reply>))
    requires |c| <= size
    ensures |r.0| <= size && |r.1| == |ops|
    decreases |ops|
  {
    if ops == [] then (c, [])
    else
      var (d, reply) := Exec(c, size, ops[0]);
      var (e, replies) := RunOps(d, size, ops[1..]);
      (e, [reply] + replies)
  }

  /** A FIFO that starts with `q` can give these replies and end with `q'`. */
  ghost predicate FifoRun(q: seq<seq<byte>>, ops: seq<Op>, replies: seq<Reply>, q': seq<seq<byte>>)
    requires |replies| == |ops|
    decreases |ops|
  {
    if ops == [] then q' == q
    else
      exists mid :: FifoStep(q, ops[0], replies[0], mid) && FifoRun(mid, ops[1..], replies[1..], q')
  }

  /** Every run of puts and gets, torn frames included, is a run of a FIFO of whole messages. */
  lemma {:induction false} RunRefinesFifo(c: seq<byte>, size: nat, ops: seq<Op>)
    requires Aligned(c) && |c| <= size
    ensures var (d, replies) := RunOps(c, size, ops);
            Aligned(d) && FifoRun(Messages(c), ops, replies, Messages(d))
    decreases |ops|
  {
    if ops != [] {
      ExecIsFifoStep(c, size, ops[0]);
      var (d, reply) := Exec(c, size, ops[0]);
      RunRefinesFifo(d, size, ops[1..]);
      var (e, replies) := RunOps(d, size, ops[1..]);
      assert ([reply] + replies)[1..] == replies;
      assert FifoStep(Messages(c), ops[0], reply, Messages(d));
    }
  }

  /** QUEUE_Init starts the run empty, so every queue refines a FIFO from the empty one. */
  lemma EmptyQueueRefinesFifo(size: nat, ops: seq<Op>)
    ensures var (d, replies) := RunOps([], size, ops);
            FifoRun([], ops, replies, Messages(d))
  {
    RunRefinesFifo([], size, ops);
    assert Messages([]) == [];
  }

  // ---------------------------------------------------------------- the class

  class Queue {
    const rb: RingBuf

    ghost predicate Valid()
      reads this, rb, rb.mem
    {
      rb.Valid() && Aligned(rb.Contents())
    }

    ghost function Pending(): seq<seq<byte>>
      requires Valid()
      reads this, rb, rb.mem
    {
      Messages(rb.Contents())
    }

    constructor (bufferSize: nat)
      requires 2 <= bufferSize
      ensures Valid() && fresh(rb) && fresh(rb.mem)
      ensures rb.mem.Length == bufferSize && rb.Contents() == [] && Pending() == []
    {
      rb := new RingBuf(bufferSize);
    }

    method Puts(m: seq<byte>) returns (r: int)
      requires Valid()
      modifies rb, rb.mem
      ensures Valid()
      ensures rb.Contents() == PutContents(old(rb.Contents()), rb.mem.Length, m)
      ensures r == if Fits(old(rb.Contents()), rb.mem.Length, m) then |Frame(m)| else -1
      ensures Pending() == if r == -1 then old(Pending()) else old(Pending()) + [m]
      ensures r == -1 ==> |rb.Contents()| == rb.mem.Length
    {
      PutAppendsOrTears(rb.Contents(), rb.mem.Length, m);
      r := AddRb(rb, m);
    }

    method Gets(buffer: array<byte>, maxLen: nat, garbage: bool) returns (r: int, len: nat)
      requires Valid() && buffer != rb.mem && maxLen <= buffer.Length
      modifies rb, buffer
      ensures Valid()
      ensures rb.Contents() == Exec(old(rb.Contents()), rb.mem.Length, Op.Gets(maxLen, garbage)).0
      ensures r == -1 || r == 0
      ensures r == -1 <==> old(Pending()) == []
      ensures r == -1 ==> rb.Contents() == []
      ensures r == 0 ==> Pending() == old(Pending())[1..]
                         && len <= maxLen && buffer[..len] == old(Pending())[0][..Min(maxLen, |old(Pending())[0]|)]
    {
      ghost var c := rb.Contents();
      ExecGets(c, rb.mem.Length, maxLen, garbage);
      r, len := ParseRb(rb, buffer, maxLen, garbage);
    }

    method IsEmpty() returns (empty: bool)
      requires Valid()
      ensures empty <==> rb.Contents() == []
    {
      empty := rb.fill <= 0;
    }
  }
}
