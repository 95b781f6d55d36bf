/** SUBSCRIBE and UNSUBSCRIBE: the index walks recover what was encoded (sections 3.8.3 and 3.9.3 of MQTT 3.1.1). */
module Subscribing {
  import opened Bytes
  import opened Packet
  import opened Reader
  import opened Reassembly
  import opened Topics
  import opened TopicList
  import opened Retained
  import opened Broker
  import opened BrokerInvariant
  import opened Publishing
  import opened MessageQueue
  import opened BrokerQueues

  datatype Request = Request(filter: seq<byte>, qos: byte)

  /** The payload of a SUBSCRIBE. */
  function EncodeRequests(rs: seq<Request>): seq<byte> {
    if rs == [] then [] else Str(rs[0].filter) + [rs[0].qos] + EncodeRequests(rs[1..])
  }

  /** The payload of an UNSUBSCRIBE. */
  function EncodeFilters(fs: seq<seq<byte>>): seq<byte> {
    if fs == [] then [] else Str(fs[0]) + EncodeFilters(fs[1..])
  }

  /** Storing the filters one after the other, and the return code for each. */
  function SubscribeAll(slots: seq<Slot>, h: nat, rs: seq<Request>): (seq<Slot>, seq<byte>)
    decreases |rs|
  {
    if rs == [] then (slots, [])
    else
      var (slots', ok) := Subscribe(slots, Con(h), rs[0].filter, 0);
      var (end, codes) := SubscribeAll(slots', h, rs[1..]);
      (end, [if ok then 0 else 0x80] + codes)
  }

  /** mqtt_get_str at a length-prefixed string, with `more` behind it in the packet. */
  lemma StrReadsBack(buf: InBuffer, at: nat, s: seq<byte>, more: seq<byte>)
    requires |Str(s) + more| < 0x1_0000 && at + |Str(s) + more| <= BUF
    requires buf[at..at + |Str(s) + more|] == Str(s) + more
    ensures StrAt(buf, at, |Str(s) + more|) == if s == [] && more == [] then None else Some(|s|)
    ensures buf[at + 2..at + 2 + |s|] == s
    ensures buf[at + 2 + |s|..at + |Str(s) + more|] == more
  {
    var w := Str(s) + more;
    var t := buf[at..at + |w|];
    Word16ReadsBack(|s|);
    assert w[0] == Word16(|s|)[0] && w[1] == Word16(|s|)[1];
    assert t[0] == buf[at] && t[1] == buf[at + 1];
    assert w[2..2 + |s|] == s && w[2 + |s|..] == more;
    Slice(buf, at, at + |w|, at + 2, at + 2 + |s|);
    Slice(buf, at, at + |w|, at + 2 + |s|, at + |w|);
  }

  lemma CStrOfPlain(s: seq<byte>)
    requires 0 !in s
    ensures CStr(s) == s
  {
  }

  /** The filters are C strings. */
  predicate AllPlain(rs: seq<Request>) {
    rs == [] || (0 !in rs[0].filter && AllPlain(rs[1..]))
  }

  /** The walk on the filters themselves instead of their encoding. */
  function WalkAlong(slots: seq<Slot>, h: nat, codes: seq<byte>, last: seq<byte>, rs: seq<Request>, len: Count): Walk
    decreases |rs|
  {
    if rs == [] then Walk(slots, codes, last, len, true)
    else
      var (slots', ok) := Subscribe(slots, Con(h), rs[0].filter, 0);
      WalkAlong(slots', h, codes + [if ok then 0 else 0x80], rs[0].filter, rs[1..], len)
  }

  lemma {:induction false} WalkAlongIs(slots: seq<Slot>, h: nat, codes: seq<byte>, last: seq<byte>, rs: seq<Request>, len: Count)
    ensures var (end, more) := SubscribeAll(slots, h, rs);
            WalkAlong(slots, h, codes, last, rs, len) ==
            Walk(end, codes + more, if rs == [] then last else rs[|rs| - 1].filter, len, true)
    decreases |rs|
  {
    if rs == [] {
      assert codes + [] == codes;
    } else {
      var (slots', ok) := Subscribe(slots, Con(h), rs[0].filter, 0);
      var code: byte := if ok then 0 else 0x80;
      WalkAlongIs(slots', h, codes + [code], rs[0].filter, rs[1..], len);
      Associate(codes, [code], SubscribeAll(slots', h, rs[1..]).1);
    }
  }

  lemma TakenReadsBack(buf: InBuffer, len: Count, at: nat, taken: seq<Request>, others: seq<Request>)
    requires at <= len && taken != [] && buf[at..len] == EncodeRequests(taken + others) && 0 !in taken[0].filter
    ensures var f := taken[0].filter;
            && at + 2 + |f| < len && StrAt(buf, at, len - at) == Some(|f|)
            && CStr(buf[at + 2..at + 2 + |f|]) == f
            && buf[at + 3 + |f|..len] == EncodeRequests(taken[1..] + others)
  {
    assert (taken + others)[1..] == taken[1..] + others;
    RequestReadsBack(buf, len, at, taken[0], EncodeRequests(taken[1..] + others));
  }

  /** The walk goes along `taken` and ends there if nothing else is left, or nothing else may be taken. */
  lemma {:induction false} WalkFollows(slots: seq<Slot>, h: nat, buf: InBuffer, len: Count, at: nat, codes: seq<byte>,
                                      last: seq<byte>, taken: seq<Request>, others: seq<Request>, end: Count)
    requires at <= len && buf[at..len] == EncodeRequests(taken + others) && end + |EncodeRequests(others)| == len
    requires |codes| + |taken| <= 16 && AllPlain(taken) && (others == [] || |codes| + |taken| == 16)
    ensures SubscribeWalk(slots, h, buf, len, at, codes, last) == WalkAlong(slots, h, codes, last, taken, end)
    decreases |taken|
  {
    if taken == [] {
      assert taken + others == others;
      WalkStops(slots, h, buf, len, at, codes, last);
    } else {
      var f := taken[0].filter;
      TakenReadsBack(buf, len, at, taken, others);
      var (slots', ok) := Subscribe(slots, Con(h), f, 0);
      var codes' := codes + [if ok then 0 else 0x80];
      var w := SubscribeWalk(slots', h, buf, len, at + 3 + |f|, codes', f);
      assert w == WalkAlong(slots', h, codes', f, taken[1..], end) by {
        WalkFollows(slots', h, buf, len, at + 3 + |f|, codes', f, taken[1..], others, end);
      }
      assert SubscribeWalk(slots, h, buf, len, at, codes, last) == w by {
        WalkStep(slots, h, buf, len, at, codes, last, f, codes', w);
      }
    }
  }

  lemma WalkStops(slots: seq<Slot>, h: nat, buf: InBuffer, len: Count, at: nat, codes: seq<byte>, last: seq<byte>)
    requires len <= at || 16 <= |codes|
    ensures SubscribeWalk(slots, h, buf, len, at, codes, last) == Walk(slots, codes, last, at, true)
  {
  }

  lemma WalkStep(slots: seq<Slot>, h: nat, buf: InBuffer, len: Count, at: nat, codes: seq<byte>, last: seq<byte>,
                 filter: seq<byte>, codes': seq<byte>, w: Walk)
    requires at < len && |codes| < MAX_SUBS && StrAt(buf, at, len - at) == Some(|filter|)
    requires at + 2 + |filter| < len && CStr(buf[at + 2..at + 2 + |filter|]) == filter
    requires var (slots', ok) := Subscribe(slots, Con(h), filter, 0);
             codes' == codes + [if ok then 0 else 0x80] && w == SubscribeWalk(slots', h, buf, len, at + 3 + |filter|, codes', filter)
    ensures SubscribeWalk(slots, h, buf, len, at, codes, last) == w
  {
  }

  /** What is taken from one SUBSCRIBE: sixteen filters at most. */
  function Taken(rs: seq<Request>): seq<Request> {
    if |rs| <= 16 then rs else rs[..16]
  }

  /** The filter whose retained messages are sent. */
  function LastTaken(rs: seq<Request>): seq<byte>
    requires rs != []
  {
    Taken(rs)[|Taken(rs)| - 1].filter
  }

  lemma {:induction false} TakenFirst(taken: seq<Request>, others: seq<Request>)
    ensures EncodeRequests(taken + others) == EncodeRequests(taken) + EncodeRequests(others)
  {
    if taken == [] {
      assert taken + others == others;
    } else {
      assert (taken + others)[1..] == taken[1..] + others;
      TakenFirst(taken[1..], others);
      Associate(Str(taken[0].filter) + [taken[0].qos], EncodeRequests(taken[1..]), EncodeRequests(others));
    }
  }

  lemma TakenEnds(slots: seq<Slot>, h: nat, buf: InBuffer, len: Count, at: nat, last: seq<byte>, rs: seq<Request>) returns (end: Count)
    requires at <= len && buf[at..len] == EncodeRequests(rs) && AllPlain(Taken(rs))
    ensures SubscribeWalk(slots, h, buf, len, at, [], last) == WalkAlong(slots, h, [], last, Taken(rs), end)
    ensures |rs| <= 16 ==> end == len
  {
    var taken, others := Taken(rs), rs[|Taken(rs)|..];
    assert taken + others == rs;
    TakenFirst(taken, others);
    end := len - |EncodeRequests(others)|;
    WalkFollows(slots, h, buf, len, at, [], last, taken, others, end);
  }

  /**
   * The SUBSCRIBE walk finds the encoded filters in order, up to the sixteenth; with no more
   * than that it ends at the end of the packet.
   */
  lemma WalkReadsRequests(slots: seq<Slot>, h: nat, buf: InBuffer, len: Count, at: nat, last: seq<byte>, rs: seq<Request>)
    requires at <= len && buf[at..len] == EncodeRequests(rs) && AllPlain(Taken(rs)) && rs != []
    ensures var w := SubscribeWalk(slots, h, buf, len, at, [], last);
            && w == Walk(SubscribeAll(slots, h, Taken(rs)).0, SubscribeAll(slots, h, Taken(rs)).1, LastTaken(rs), w.at, true)
            && (|rs| <= 16 ==> w.at == len)
  {
    var end := TakenEnds(slots, h, buf, len, at, last, rs);
    WalkEnds(slots, h, last, Taken(rs), end);
  }

  lemma WalkEnds(slots: seq<Slot>, h: nat, last: seq<byte>, taken: seq<Request>, end: Count)
    requires taken != []
    ensures WalkAlong(slots, h, [], last, taken, end) ==
            Walk(SubscribeAll(slots, h, taken).0, SubscribeAll(slots, h, taken).1, taken[|taken| - 1].filter, end, true)
  {
    WalkAlongIs(slots, h, [], last, taken, end);
    assert [] + SubscribeAll(slots, h, taken).1 == SubscribeAll(slots, h, taken).1;
  }

  lemma RequestReadsBack(buf: InBuffer, len: Count, at: nat, r: Request, rest: seq<byte>)
    requires at <= len && buf[at..len] == Str(r.filter) + [r.qos] + rest && 0 !in r.filter
    ensures var at' := at + 2 + |r.filter|;
            && at' < len && StrAt(buf, at, len - at) == Some(|r.filter|)
            && CStr(buf[at + 2..at']) == r.filter
            && buf[at' + 1..len] == rest
  {
    var more := [r.qos] + rest;
    Associate(Str(r.filter), [r.qos], rest);
    StrReadsBack(buf, at, r.filter, more);
    var at' := at + 2 + |r.filter|;
    Slice(buf, at', len, at' + 1, len);
    assert more[1..] == rest;
  }

  /** How many slots are free. */
  function FreeSlots(slots: seq<Slot>): nat {
    if slots == [] then 0 else (if slots[0].Free? then 1 else 0) + FreeSlots(slots[1..])
  }

  lemma {:induction false} FreeAfter(slots: seq<Slot>, k: nat, s: Slot)
    requires k < |slots| && slots[k].Free? && s.Sub?
    ensures FreeSlots(slots[k := s]) == FreeSlots(slots) - 1
  {
    if k > 0 {
      FreeAfter(slots[1..], k - 1, s);
      assert slots[k := s][1..] == slots[1..][k - 1 := s];
    } else {
      assert slots[0 := s][1..] == slots[1..];
    }
  }

  lemma {:induction false} FreeMeansRoom(slots: seq<Slot>)
    ensures FirstFree(slots) < |slots| <==> 0 < FreeSlots(slots)
  {
    if slots != [] {
      FreeMeansRoom(slots[1..]);
    }
  }

  function ValidCount(rs: seq<Request>): nat {
    if rs == [] then 0 else (if ValidName(rs[0].filter) then 1 else 0) + ValidCount(rs[1..])
  }

  /** The code for each filter, in order: 0 when it is valid and a slot is left for it, else 0x80. */
  lemma {:induction false} CodeOfEach(slots: seq<Slot>, h: nat, rs: seq<Request>, i: nat)
    requires i < |rs|
    ensures var codes := SubscribeAll(slots, h, rs).1;
            && |codes| == |rs|
            && codes[i] == (if ValidName(rs[i].filter) && ValidCount(rs[..i]) < FreeSlots(slots) then 0 else 0x80)
    decreases |rs|
  {
    var (slots', ok) := Subscribe(slots, Con(h), rs[0].filter, 0);
    CodesPerRequest(slots', h, rs[1..]);
    FreeMeansRoom(slots);
    if i > 0 {
      if ok {
        FreeAfter(slots, FirstFree(slots), Sub(Con(h), rs[0].filter, 0));
      }
      CodeOfEach(slots', h, rs[1..], i - 1);
      assert rs[..i][0] == rs[0] && rs[..i][1..] == rs[1..][..i - 1];
    }
  }

  lemma {:induction false} CodesPerRequest(slots: seq<Slot>, h: nat, rs: seq<Request>)
    ensures |SubscribeAll(slots, h, rs).1| == |rs|
    decreases |rs|
  {
    if rs != [] {
      CodesPerRequest(Subscribe(slots, Con(h), rs[0].filter, 0).0, h, rs[1..]);
    }
  }

  // ---------------------------------------------------------------- retained messages

  predicate RetainedHit(e: Entry, filter: seq<byte>) {
    e.topic.Some? && e.data.Some? && Matches(filter, true, e.topic.value)
  }

  /** The retained entries that match, in slot order. */
  function Matched(list: seq<Entry>, filter: seq<byte>): (r: seq<Entry>)
    ensures forall e :: e in r <==> e in list && RetainedHit(e, filter)
  {
    if list == [] then [] else (if RetainedHit(list[0], filter) then [list[0]] else []) + Matched(list[1..], filter)
  }

  /** A PUBLISH for each entry, with its QoS and the retain flag, and the id counter afterwards. */
  function RetainedMessages(es: seq<Entry>, counter: word): (seq<seq<byte>>, word)
    requires forall e :: e in es ==> e.topic.Some? && e.data.Some?
  {
    if es == [] then ([], counter)
    else
      var built := PublishMessage(BUF, es[0].topic.value, es[0].data.value, es[0].qos, 1, counter);
      var (later, end) := RetainedMessages(es[1..], built.counter);
      ([built.message] + later, end)
  }

  /** One attempt to queue each message, in order. */
  function EnqueueAll(c: Client, ms: seq<seq<byte>>): (r: Client)
    ensures r.h == c.h
    decreases |ms|
  {
    if ms == [] then c else EnqueueAll(Enqueue(c, ms[0]), ms[1..])
  }

  lemma {:induction false} CounterApart(c: Client, n: word, ms: seq<seq<byte>>)
    ensures EnqueueAll(c.(counter := n), ms) == EnqueueAll(c, ms).(counter := n)
    decreases |ms|
  {
    if ms != [] {
      CounterApart(Enqueue(c, ms[0]), n, ms[1..]);
    }
  }

  /** find_retainedtopic makes exactly one attempt for each matching entry, in slot order. */
  lemma {:induction false} SendRetainedExact(c: Client, list: seq<Entry>, filter: seq<byte>, k: nat)
    requires k <= |list|
    ensures var (ms, end) := RetainedMessages(Matched(list[k..], filter), c.counter);
            SendRetained(c, list, filter, k) == EnqueueAll(c, ms).(counter := end)
    decreases |list| - k
  {
    if k < |list| {
      var e := list[k];
      assert list[k..][0] == e && list[k..][1..] == list[k + 1..];
      if RetainedHit(e, filter) {
        var built := PublishMessage(BUF, e.topic.value, e.data.value, e.qos, 1, c.counter);
        var c1 := PublishTo(c, e.topic.value, e.data.value, e.qos, 1);
        SendRetainedExact(c1, list, filter, k + 1);
        var more := Matched(list[k + 1..], filter);
        assert ([e] + more)[1..] == more;
        var later := RetainedMessages(more, built.counter).0;
        assert ([built.message] + later)[1..] == later;
        CounterApart(Enqueue(c, built.message), built.counter, later);
      } else {
        SendRetainedExact(c, list, filter, k + 1);
        assert [] + Matched(list[k + 1..], filter) == Matched(list[k + 1..], filter);
      }
    }
  }

  /** Of the attempts, those that find room: each is queued whole, in order, behind what there was. */
  lemma {:induction false} AttemptsQueue(c: Client, ms: seq<seq<byte>>) returns (got: seq<seq<byte>>)
    requires Aligned(c.ring)
    ensures Subsequence(got, ms) && Grown(c, EnqueueAll(c, ms), got)
    decreases |ms|
  {
    if ms == [] {
      got := [];
      NothingGrown(c);
    } else {
      var m := ms[0];
      OneGrown(c, m);
      var more := AttemptsQueue(Enqueue(c, m), ms[1..]);
      assert ms == [m] + ms[1..];
      var first := if Fits(c.ring, QSIZE, m) then [m] else [];
      got := first + more;
      GrownTwice(c, Enqueue(c, m), EnqueueAll(c, ms), first, more);
      if Fits(c.ring, QSIZE, m) {
        SubsequenceKeeps(m, more, ms[1..]);
      } else {
        assert got == more;
        SubsequenceSkips(m, more, ms[1..]);
      }
    }
  }

  lemma {:induction false} SubsequenceKeeps(m: seq<byte>, a: seq<seq<byte>>, b: seq<seq<byte>>)
    requires Subsequence(a, b)
    ensures Subsequence([m] + a, [m] + b)
    decreases |b|
  {
    if b == [] {
      assert ([m] + a)[..0] == [] && ([m] + b)[..0] == [];
    } else {
      var last := |b| - 1;
      assert ([m] + b)[..|[m] + b| - 1] == [m] + b[..last];
      if Subsequence(a, b[..last]) {
        SubsequenceKeeps(m, a, b[..last]);
      } else {
        SubsequenceKeeps(m, a[..|a| - 1], b[..last]);
        assert ([m] + a)[..|[m] + a| - 1] == [m] + a[..|a| - 1];
      }
    }
  }

  lemma {:induction false} SubsequenceSkips(m: seq<byte>, a: seq<seq<byte>>, b: seq<seq<byte>>)
    requires Subsequence(a, b)
    ensures Subsequence(a, [m] + b)
    decreases |b|
  {
    if b == [] {
      assert ([m] + b)[..0] == [];
    } else {
      var last := |b| - 1;
      assert ([m] + b)[..|[m] + b| - 1] == [m] + b[..last];
      if Subsequence(a, b[..last]) {
        SubsequenceSkips(m, a, b[..last]);
      } else {
        SubsequenceSkips(m, a[..|a| - 1], b[..last]);
      }
    }
  }

  predicate SomeHit(e: Entry, rs: seq<Request>) {
    rs != [] && (RetainedHit(e, rs[0].filter) || SomeHit(e, rs[1..]))
  }

  /** The retained entries that any of the filters matches, in slot order. */
  function MatchedBySome(list: seq<Entry>, rs: seq<Request>): (r: seq<Entry>) {
    if list == [] then [] else (if SomeHit(list[0], rs) then [list[0]] else []) + MatchedBySome(list[1..], rs)
  }

  lemma {:induction false} LastIsOne(e: Entry, rs: seq<Request>)
    requires rs != [] && RetainedHit(e, rs[|rs| - 1].filter)
    ensures SomeHit(e, rs)
  {
    if |rs| > 1 {
      LastIsOne(e, rs[1..]);
    }
  }

  /**
   * Only the last filter's retained messages are sent. That is all of those due if and only if
   * each entry that some filter matches is matched by the last one.
   */
  lemma {:induction false} AllSentExactly(list: seq<Entry>, rs: seq<Request>)
    requires rs != []
    ensures Matched(list, rs[|rs| - 1].filter) == MatchedBySome(list, rs) <==>
            forall e :: e in list && SomeHit(e, rs) ==> RetainedHit(e, rs[|rs| - 1].filter)
    ensures |Matched(list, rs[|rs| - 1].filter)| <= |MatchedBySome(list, rs)|
  {
    if list != [] {
      var last := rs[|rs| - 1].filter;
      var e, rest := list[0], list[1..];
      assert list == [e] + rest;
      AllSentExactly(rest, rs);
      InList(e, rest, rs, last);
      var some := MatchedBySome(rest, rs);
      if RetainedHit(e, last) {
        LastIsOne(e, rs);
        SameTails(e, Matched(rest, last), some);
      } else if SomeHit(e, rs) {
        assert |Matched(list, last)| == |Matched(rest, last)| < |[e] + some|;
      } else {
        assert [] + Matched(rest, last) == Matched(rest, last) && [] + some == some;
      }
    }
  }

  lemma InList(e: Entry, rest: seq<Entry>, rs: seq<Request>, last: seq<byte>)
    ensures (forall x :: x in [e] + rest && SomeHit(x, rs) ==> RetainedHit(x, last)) <==>
            (SomeHit(e, rs) ==> RetainedHit(e, last)) && (forall x :: x in rest && SomeHit(x, rs) ==> RetainedHit(x, last))
  {
  }

  lemma SameTails<T>(x: T, a: seq<T>, b: seq<T>)
    ensures [x] + a == [x] + b <==> a == b
  {
    assert ([x] + a)[1..] == a && ([x] + b)[1..] == b;
  }

  /** With two plain filters, what is retained under the first is not sent. */
  lemma FirstFilterGetsNothing(first: seq<byte>, second: seq<byte>, data: payload, qos: byte)
    requires !HasWildcards(first) && !HasWildcards(second)
    requires !Matches(second, true, first)
    ensures var list := [Entry(Some(first), Some(data), |data|, 0)];
            var rs := [Request(first, qos), Request(second, qos)];
            MatchedBySome(list, rs) == list && Matched(list, second) == []
  {
    var list := [Entry(Some(first), Some(data), |data|, 0)];
    assert Matches(first, true, first);
    assert list[1..] == [] && [list[0]] + [] == list;
    assert MatchedBySome([], [Request(first, qos), Request(second, qos)]) == [];
    assert Matched([], second) == [];
  }

  /** A SUBSCRIBE with a one-byte Remaining Length. */
  function SubscribeRequest(id: word, rs: seq<Request>): seq<byte> {
    Build(SUBSCRIBE, 0, 1, 0, Word16(id) + EncodeRequests(rs))
  }

  lemma PayloadStarts(kind: int, id: word, payload: seq<byte>, buf: InBuffer)
    requires |payload| + 2 <= 127 && Build(kind, 0, 1, 0, Word16(id) + payload) <= buf
    ensures var len := |Build(kind, 0, 1, 0, Word16(id) + payload)|;
            len == 4 + |payload| && buf[4..len] == payload
  {
    var p := Build(kind, 0, 1, 0, Word16(id) + payload);
    assert p[4..] == payload;
    assert buf[..|p|] == p;
    assert buf[4..|p|] == buf[..|p|][4..];
  }

  /**
   * A SUBSCRIBE, whatever follows it in in_buffer: the first sixteen filters are stored in
   * order, and the SUBACK has the same id and one code for each of them, in order. Behind it,
   * one attempt is made for each retained entry that the last of them matches, whatever its
   * code.
   */
  lemma SubscribeIsAnswered(b: Broker, h: nat, id: word, rs: seq<Request>, inp: Input)
    requires Has(b, h) && id != 0 && rs != [] && AllPlain(Taken(rs))
    requires |EncodeRequests(rs)| + 2 <= 127
    requires SubscribeRequest(id, rs) <= Get(b, h).inBuf
    requires 8 <= |SubscribeRequest(id, rs)|
    ensures var c := Get(b, h);
            var (slots', codes) := SubscribeAll(b.slots, h, Taken(rs));
            var c1 := Enqueue(c, Build(SUBACK, 0, 0, 0, Word16(id) + codes));
            var (ms, end) := RetainedMessages(Matched(b.retained, LastTaken(rs)), c1.counter);
            && |SubscribeRequest(id, rs)| <= BUF
            && HandleSubscribe(b, h, |SubscribeRequest(id, rs)|, inp)
               == Continue(Put(b.(slots := slots'), h, EnqueueAll(c1, ms).(counter := end)))
  {
    var c := Get(b, h);
    var payload := EncodeRequests(rs);
    var len := |SubscribeRequest(id, rs)|;
    PayloadStarts(SUBSCRIBE, id, payload, c.inBuf);
    IdReadsBack(SUBSCRIBE, 1, id, payload, c.inBuf, BUF);
    WalkReadsRequests(b.slots, h, c.inBuf, len, 4, [], rs);
    assert b.retained[0..] == b.retained;
    SendRetainedExact(Ack(c, SUBACK, id, SubscribeAll(b.slots, h, Taken(rs)).1), b.retained, LastTaken(rs), 0);
  }

  /** A filter without a QoS byte behind it, at the end of the packet: the walk fails there. */
  lemma MissingQosFails(slots: seq<Slot>, h: nat, buf: InBuffer, len: Count, at: nat, codes: seq<byte>, last: seq<byte>, filter: seq<byte>)
    requires at <= len && buf[at..len] == Str(filter) && |codes| < 16
    ensures !SubscribeWalk(slots, h, buf, len, at, codes, last).ok
  {
    assert Str(filter) + [] == Str(filter);
    StrReadsBack(buf, at, filter, []);
  }

  /** Below eight bytes a SUBSCRIBE ends the connection: the request for the empty filter alone is the longest such. */
  lemma ShortSubscribeCloses(b: Broker, h: nat, len: Count, inp: Input)
    requires Inv(b) && Has(b, h) && len < 8
    ensures HandleSubscribe(b, h, len, inp).Closed? && !Has(HandleSubscribe(b, h, len, inp).b, h)
    ensures |SubscribeRequest(1, [Request([], 0)])| == 7
  {
    DeleteKeeps(b, h, inp.own);
    OneRequest([], 0);
  }

  /** The first bytes of a packet that starts with an id and a short string. */
  lemma StartBytes(first: byte, kind: int, qos: int, id: word, s: seq<byte>, more: seq<byte>)
    requires 4 + |s| + |more| <= 127 && first == FirstByte(kind, 0, qos, 0)
    ensures Build(kind, 0, qos, 0, Word16(id) + Str(s) + more) ==
            [first, 4 + |s| + |more|, id / 0x100, id % 0x100, 0, |s|] + s + more
  {
    var head := [id / 0x100, id % 0x100, 0, |s|];
    assert Word16(id) == [id / 0x100, id % 0x100] && Word16(|s|) == [0, |s|];
    Associate(Word16(id), Word16(|s|), s);
    assert Word16(id) + Word16(|s|) == head;
    var body := head + s + more;
    assert Build(kind, 0, qos, 0, body) == [first] + [|body|] + body;
    assert [first] + [|body|] + head == [first, |body|, head[0], head[1], head[2], head[3]];
    Associate([first] + [|body|], head + s, more);
    Associate([first] + [|body|], head, s);
  }

  lemma OneRequest(topic: seq<byte>, qos: byte)
    ensures EncodeRequests([Request(topic, qos)]) == Str(topic) + [qos]
    ensures EncodeFilters([topic]) == Str(topic)
  {
    assert [Request(topic, qos)][1..] == [] && [topic][1..] == [];
    assert Str(topic) + [qos] + [] == Str(topic) + [qos] && Str(topic) + [] == Str(topic);
  }

  /** A SUBSCRIBE of mqtt_msg_subscribe, byte for byte, is the request for that one filter. */
  lemma ClientRequests(size: nat, topic: seq<byte>, qos: byte, counter: word)
    requires topic != [] && |topic| <= 122 && 8 + |topic| <= size
    ensures var id := NextId(counter);
            var p := [0x82, 5 + |topic|, id / 0x100, id % 0x100, 0, |topic|] + topic + [qos];
            && SubscribeMessage(size, topic, qos, counter) == Built(p, id)
            && SubscribeRequest(id, [Request(topic, qos)]) == p
  {
    var id := NextId(counter);
    assert EncodeRequests([Request(topic, qos)]) == Str(topic) + [qos] by {
      OneRequest(topic, qos);
    }
    Associate(Word16(id), Str(topic), [qos]);
    StartBytes(0x82, SUBSCRIBE, 1, id, topic, [qos]);
  }

  /**
   * What this client asks for, at the head of this broker's in_buffer: the filter is stored for
   * the connection if it is valid and a slot is free, and the SUBACK says whether it was.
   */
  lemma ClientSubscribes(b: Broker, h: nat, size: nat, topic: seq<byte>, qos: byte, counter: word, inp: Input)
    requires Has(b, h) && topic != [] && 0 !in topic && |topic| <= 122 && 8 + |topic| <= size
    requires SubscribeMessage(size, topic, qos, counter).message <= Get(b, h).inBuf
    ensures var k, id := FirstFree(b.slots), NextId(counter);
            var ok := ValidName(topic) && k < |b.slots|;
            var slots' := if ok then b.slots[k := Sub(Con(h), topic, 0)] else b.slots;
            var c1 := Enqueue(Get(b, h), [0x90, 3, id / 0x100, id % 0x100, if ok then 0 else 0x80]);
            var (ms, end) := RetainedMessages(Matched(b.retained, topic), c1.counter);
            && 7 + |topic| <= BUF
            && HandleSubscribe(b, h, 7 + |topic|, inp)
               == Continue(Put(b.(slots := slots'), h, EnqueueAll(c1, ms).(counter := end)))
  {
    var rs, id := [Request(topic, qos)], NextId(counter);
    ClientRequests(size, topic, qos, counter);
    OneRequest(topic, qos);
    SubscribeIsAnswered(b, h, id, rs, inp);
    OneStored(b.slots, h, Request(topic, qos));
    SubackBytes(id, SubscribeAll(b.slots, h, rs).1);
  }

  lemma OneStored(slots: seq<Slot>, h: nat, r: Request)
    ensures var k := FirstFree(slots);
            var ok := ValidName(r.filter) && k < |slots|;
            SubscribeAll(slots, h, [r]) ==
            (if ok then slots[k := Sub(Con(h), r.filter, 0)] else slots, [if ok then 0 else 0x80])
  {
    var (slots', ok) := Subscribe(slots, Con(h), r.filter, 0);
    assert [r][1..] == [] && SubscribeAll(slots', h, []) == (slots', []);
    var code: byte := if ok then 0 else 0x80;
    assert [code] + [] == [code];
  }

  lemma SubackBytes(id: word, codes: seq<byte>)
    requires |codes| == 1
    ensures Build(SUBACK, 0, 0, 0, Word16(id) + codes) == [0x90, 3, id / 0x100, id % 0x100, codes[0]]
  {
    var body := Word16(id) + codes;
    assert body == [id / 0x100, id % 0x100, codes[0]];
    assert Build(SUBACK, 0, 0, 0, body) == [0x90] + [3] + body;
  }

  // ---------------------------------------------------------------- UNSUBSCRIBE

  /** What is left of the slots when connection `h` drops the filters `fs`. */
  ghost predicate Unsubscribed(slots: seq<Slot>, slots': seq<Slot>, h: nat, fs: seq<seq<byte>>) {
    && |slots'| == |slots|
    && forall k :: 0 <= k < |slots| ==>
         slots'[k] == if slots[k].Sub? && slots[k].owner == Con(h) && slots[k].filter in fs then Free else slots[k]
  }

  predicate PlainFilters(fs: seq<seq<byte>>) {
    fs == [] || (fs[0] != [] && 0 !in fs[0] && PlainFilters(fs[1..]))
  }

  function DropAll(slots: seq<Slot>, h: nat, fs: seq<seq<byte>>): seq<Slot>
    decreases |fs|
  {
    if fs == [] then slots else DropAll(Unsubscribe(slots, Some(Con(h)), Some(fs[0])), h, fs[1..])
  }

  lemma {:induction false} DropAllIs(slots: seq<Slot>, h: nat, fs: seq<seq<byte>>)
    ensures Unsubscribed(slots, DropAll(slots, h, fs), h, fs)
    decreases |fs|
  {
    if fs != [] {
      DropAllIs(Unsubscribe(slots, Some(Con(h)), Some(fs[0])), h, fs[1..]);
      assert forall x :: x in fs <==> x == fs[0] || x in fs[1..];
    }
  }

  lemma {:induction false} FiltersFollow(slots: seq<Slot>, h: nat, buf: InBuffer, len: Count, at: nat, fs: seq<seq<byte>>)
    requires at <= len && buf[at..len] == EncodeFilters(fs) && PlainFilters(fs)
    ensures UnsubscribeWalk(slots, h, buf, len, at) == Walk(DropAll(slots, h, fs), [], [], len, true)
    decreases |fs|
  {
    if fs == [] {
      assert at == len;
    } else {
      var f := fs[0];
      StrGoesOn(buf, len, at, f, EncodeFilters(fs[1..]));
      var slots1 := Unsubscribe(slots, Some(Con(h)), Some(f));
      FiltersFollow(slots1, h, buf, len, at + 2 + |f|, fs[1..]);
      FilterStep(slots, h, buf, len, at, f, Walk(DropAll(slots1, h, fs[1..]), [], [], len, true));
    }
  }

  /** The UNSUBSCRIBE walk finds the encoded filters, and removes exactly this client's slots for them. */
  lemma WalkReadsFilters(slots: seq<Slot>, h: nat, buf: InBuffer, len: Count, at: nat, fs: seq<seq<byte>>)
    requires at <= len && buf[at..len] == EncodeFilters(fs) && PlainFilters(fs)
    ensures var w := UnsubscribeWalk(slots, h, buf, len, at);
            w.ok && w.at == len && Unsubscribed(slots, w.slots, h, fs)
  {
    FiltersFollow(slots, h, buf, len, at, fs);
    DropAllIs(slots, h, fs);
  }

  lemma StrGoesOn(buf: InBuffer, len: Count, at: nat, s: seq<byte>, more: seq<byte>)
    requires at <= len && buf[at..len] == Str(s) + more && s != [] && 0 !in s
    ensures var at' := at + 2 + |s|;
            && at < at' <= len && StrAt(buf, at, len - at) == Some(|s|)
            && CStr(buf[at + 2..at']) == s && buf[at'..len] == more
  {
    StrReadsBack(buf, at, s, more);
  }

  lemma FilterStep(slots: seq<Slot>, h: nat, buf: InBuffer, len: Count, at: nat, f: seq<byte>, w: Walk)
    requires at < len && StrAt(buf, at, len - at) == Some(|f|) && CStr(buf[at + 2..at + 2 + |f|]) == f
    requires w == UnsubscribeWalk(Unsubscribe(slots, Some(Con(h)), Some(f)), h, buf, len, at + 2 + |f|)
    ensures UnsubscribeWalk(slots, h, buf, len, at) == w
  {
  }

  /** An empty filter at the end is not read: the walk fails there. */
  lemma EmptyLastFilterFails(slots: seq<Slot>, h: nat, buf: InBuffer, len: Count, at: nat)
    requires at + 2 == len && buf[at..len] == EncodeFilters([[]])
    ensures !UnsubscribeWalk(slots, h, buf, len, at).ok
  {
  }

  /** An UNSUBSCRIBE is answered with its id. */
  lemma UnsubscribeIsAnswered(b: Broker, h: nat, id: word, fs: seq<seq<byte>>, inp: Input)
    requires Has(b, h) && id != 0 && fs != [] && PlainFilters(fs)
    requires |EncodeFilters(fs)| + 2 <= 127
    requires Build(UNSUBSCRIBE, 0, 1, 0, Word16(id) + EncodeFilters(fs)) <= Get(b, h).inBuf
    ensures var c := Get(b, h);
            var len := |Build(UNSUBSCRIBE, 0, 1, 0, Word16(id) + EncodeFilters(fs))|;
            len <= BUF && (var r := HandleUnsubscribe(b, h, len, inp);
            && Unsubscribed(b.slots, r.b.slots, h, fs)
            && r == Continue(Put(b.(slots := r.b.slots), h, Enqueue(c, Build(UNSUBACK, 0, 0, 0, Word16(id) + [])))))
  {
    var c := Get(b, h);
    var payload := EncodeFilters(fs);
    PayloadStarts(UNSUBSCRIBE, id, payload, c.inBuf);
    IdReadsBack(UNSUBSCRIBE, 1, id, payload, c.inBuf, BUF);
    WalkReadsFilters(b.slots, h, c.inBuf, 4 + |payload|, 4, fs);
    assert |payload| == |Str(fs[0])| + |EncodeFilters(fs[1..])|;
  }

  /** An UNSUBSCRIBE of mqtt_msg_unsubscribe, byte for byte. */
  lemma ClientDrops(size: nat, topic: seq<byte>, counter: word)
    requires topic != [] && |topic| <= 123 && 7 + |topic| <= size
    ensures var id := NextId(counter);
            var p := [0xA2, 4 + |topic|, id / 0x100, id % 0x100, 0, |topic|] + topic;
            && UnsubscribeMessage(size, topic, counter) == Built(p, id)
            && Build(UNSUBSCRIBE, 0, 1, 0, Word16(id) + EncodeFilters([topic])) == p
  {
    var id := NextId(counter);
    assert EncodeFilters([topic]) == Str(topic) by {
      OneRequest(topic, 0);
    }
    StartBytes(0xA2, UNSUBSCRIBE, 1, id, topic, []);
    assert Word16(id) + Str(topic) + [] == Word16(id) + Str(topic);
    var p := [0xA2, 4 + |topic|, id / 0x100, id % 0x100, 0, |topic|] + topic;
    assert p + [] == p;
  }

  /**
   * What this client drops, at the head of this broker's in_buffer: exactly the connection's
   * slots for that topic are freed, and the UNSUBACK has the packet's id.
   */
  lemma ClientUnsubscribes(b: Broker, h: nat, size: nat, topic: seq<byte>, counter: word, inp: Input)
    requires Has(b, h) && topic != [] && 0 !in topic && |topic| <= 123 && 7 + |topic| <= size
    requires UnsubscribeMessage(size, topic, counter).message <= Get(b, h).inBuf
    ensures var id := NextId(counter);
            && Kind(Get(b, h).inBuf) == UNSUBSCRIBE && 6 + |topic| <= BUF
            && (var r := HandleUnsubscribe(b, h, 6 + |topic|, inp);
                && Unsubscribed(b.slots, r.b.slots, h, [topic])
                && r == Continue(Put(b.(slots := r.b.slots), h, Enqueue(Get(b, h), [0xB0, 2, id / 0x100, id % 0x100]))))
  {
    var fs, id := [topic], NextId(counter);
    ClientDrops(size, topic, counter);
    OneRequest(topic, 0);
    assert fs[1..] == [];
    UnsubscribeIsAnswered(b, h, id, fs, inp);
    assert Build(UNSUBACK, 0, 0, 0, Word16(id) + []) == [0xB0, 2, id / 0x100, id % 0x100];
    assert Get(b, h).inBuf[0] == 0xA2;
  }

  /** Dropping a filter that was subscribed to, and not before, leaves the slots as they were. */
  lemma DropUndoesSubscribe(slots: seq<Slot>, slots': seq<Slot>, h: nat, topic: seq<byte>)
    requires FirstFree(slots) < |slots|
    requires forall s :: s in slots && s.Sub? && s.owner == Con(h) ==> s.filter != topic
    requires Unsubscribed(slots[FirstFree(slots) := Sub(Con(h), topic, 0)], slots', h, [topic])
    ensures slots' == slots
  {
  }

  /**
   * The local client's subscriptions: a valid filter goes to the first free slot, and dropping it
   * frees exactly the local client's slots for it.
   */
  lemma LocalSlots(b: Broker, filter: seq<byte>)
    requires !Halted(b)
    ensures var k := FirstFree(b.slots);
            Step(b, LocalSubscribe(filter)) ==
            if ValidName(filter) && k < |b.slots| then b.(slots := b.slots[k := Sub(Local, filter, 0)]) else b
    ensures var b' := Step(b, LocalUnsubscribe(filter));
            && b' == b.(slots := b'.slots) && |b'.slots| == |b.slots|
            && forall i :: 0 <= i < |b.slots| ==>
                 b'.slots[i] == if b.slots[i].Sub? && b.slots[i].owner == Local && b.slots[i].filter == filter then Free else b.slots[i]
  {
  }
}
