/** The retained topics of src/mqtt_retainedlist.c. */
module Retained {
  import opened Bytes

  /** A slot; `topic` and `data` are None for null pointers. */
  datatype Entry = Entry(topic: Option<seq<byte>>, data: Option<seq<byte>>, dataLen: nat, qos: byte)

  /** What os_malloc does when a topic, or data, needs memory. */
  datatype Mem = Mem(topicOk: bool, dataOk: bool)

  const BLANK := Entry(None, None, 0, 0)

  /** The slot of `topic`, or |list|. With None: the first slot without a topic. */
  function Find(list: seq<Entry>, topic: Option<seq<byte>>): (k: nat)
    ensures k <= |list|
    ensures forall i :: 0 <= i < k ==> list[i].topic != topic
    ensures k < |list| ==> list[k].topic == topic
  {
    if list == [] || list[0].topic == topic then 0 else 1 + Find(list[1..], topic)
  }

  lemma FindIs(list: seq<Entry>, topic: Option<seq<byte>>, k: nat)
    requires k <= |list|
    requires forall i :: 0 <= i < k ==> list[i].topic != topic
    requires k < |list| ==> list[k].topic == topic
    ensures Find(list, topic) == k
  {
  }

  function Clear(e: Entry): Entry {
    e.(topic := None, data := None, dataLen := 0)
  }

  /** The last part of update_retainedtopic, for a slot that has the topic. */
  function Store(e: Entry, data: seq<byte>, qos: byte, mem: Mem): (Entry, bool) {
    if (e.data.None? || |data| != e.dataLen) && !mem.dataOk then (Clear(e), false)
    else (e.(data := Some(data), dataLen := |data|, qos := qos), true)
  }

  /** update_retainedtopic: the slots afterwards and the result. */
  function Update(list: seq<Entry>, topic: seq<byte>, data: payload, qos: byte, mem: Mem): (r: (seq<Entry>, bool))
    ensures |r.0| == |list|
  {
    var i := Find(list, Some(topic));
    if i < |list| then
      if data == [] then (list[i := Clear(list[i])], true)
      else
        var (e, ok) := Store(list[i], data, qos, mem);
        (list[i := e], ok)
    else if data == [] then (list, true)
    else
      var j := Find(list, None);
      if j == |list| || !mem.topicOk then (list, false)
      else
        var (e, ok) := Store(list[j].(topic := Some(topic)), data, qos, mem);
        (list[j := e], ok)
  }

  // ---------------------------------------------------------------- the bounded map

  predicate EntryOk(e: Entry) {
    if e.topic.Some? then e.data.Some? && e.dataLen == |e.data.value| && 0 < e.dataLen < 0x1_0000
    else e.data.None? && e.dataLen == 0
  }

  /** A slot is occupied exactly when it has data, of positive length; no topic has two slots. */
  ghost predicate ListOk(list: seq<Entry>) {
    && (forall i :: 0 <= i < |list| ==> EntryOk(list[i]))
    && (forall i, j :: 0 <= i < j < |list| && list[i].topic.Some? ==> list[i].topic != list[j].topic)
  }

  datatype Stored = Stored(data: seq<byte>, qos: byte)

  /** The map from topics that the slots stand for. */
  function Lookup(list: seq<Entry>, topic: seq<byte>): Option<Stored> {
    var i := Find(list, Some(topic));
    if i < |list| && list[i].data.Some? then Some(Stored(list[i].data.value, list[i].qos)) else None
  }

  /** Nothing to store, or memory and a slot for it: what put needs. */
  predicate CanStore(list: seq<Entry>, topic: seq<byte>, data: seq<byte>, mem: Mem) {
    match Lookup(list, topic)
    case Some(was) => |data| == |was.data| || mem.dataOk
    case None => Find(list, None) < |list| && mem.topicOk && mem.dataOk
  }

  lemma FindAfter(list: seq<Entry>, i: nat, e: Entry, t: seq<byte>)
    requires ListOk(list) && i < |list|
    requires list[i].topic == Some(t) ==> e.topic != Some(t)
    requires e.topic != Some(t)
    ensures Lookup(list[i := e], t) == if list[i].topic == Some(t) then None else Lookup(list, t)
  {
    var k := Find(list, Some(t));
    var after := list[i := e];
    if list[i].topic == Some(t) {
      assert forall j :: 0 <= j < |after| ==> after[j].topic != Some(t);
    } else {
      FindIs(after, Some(t), k);
    }
  }

  /**
   * Under any pattern of allocation failures, update_retainedtopic is a put or a delete on the
   * bounded map, or has no effect, except that a topic whose new data cannot be allocated is
   * dropped. Other topics keep what they have.
   */
  lemma UpdateRefinesMap(list: seq<Entry>, topic: seq<byte>, data: payload, qos: byte, mem: Mem)
    requires ListOk(list)
    ensures var (list', ok) := Update(list, topic, data, qos, mem);
            && ListOk(list') && |list'| == |list|
            && (ok <==> data == [] || CanStore(list, topic, data, mem))
            && Lookup(list', topic) == (if ok && data != [] then Some(Stored(data, qos)) else None)
            && (forall t :: t != topic ==> Lookup(list', t) == Lookup(list, t))
            && (!ok && Lookup(list, topic).None? ==> forall t :: Lookup(list', t) == Lookup(list, t))
            && (Find(list, Some(topic)) == |list| && Find(list, None) == |list| ==> list' == list)
  {
    var (list', ok) := Update(list, topic, data, qos, mem);
    var i := Find(list, Some(topic));
    var j := Find(list, None);
    if list' != list {
      var k := if i < |list| then i else j;
      var e := list'[k];
      assert list' == list[k := e];
      assert list[k].topic == Some(topic) || list[k].topic == None;
      assert e.topic == Some(topic) || e.topic == None;
      forall t | t != topic
        ensures Lookup(list', t) == Lookup(list, t)
      {
        FindAfter(list, k, e, t);
      }
      OneTopicChanged(list, k, e, topic);
    }
  }

  lemma OneTopicChanged(list: seq<Entry>, k: nat, e: Entry, topic: seq<byte>)
    requires ListOk(list) && k < |list| && EntryOk(e)
    requires e.topic == Some(topic) || e.topic == None
    requires k == if Find(list, Some(topic)) < |list| then Find(list, Some(topic)) else Find(list, None)
    ensures ListOk(list[k := e])
    ensures Lookup(list[k := e], topic) == if e.topic == None then None else Some(Stored(e.data.value, e.qos))
  {
    var after := list[k := e];
    forall a, b | 0 <= a < b < |after| && after[a].topic.Some?
      ensures after[a].topic != after[b].topic
    {
      if a == k {
        assert b != k;
      } else if b == k {
        assert after[a] == list[a];
      }
    }
    if e.topic.Some? {
      FindIs(after, Some(topic), k);
    } else {
      assert forall a :: 0 <= a < |after| ==> after[a].topic != Some(topic);
    }
  }

  // ---------------------------------------------------------------- serialization

  /** An occupied slot as serialize_retainedtopics writes it, and nothing for a free one. */
  function Record(e: Entry): seq<byte> {
    if e.topic.Some? && e.data.Some?
    then e.topic.value + [0, e.dataLen % 0x100, e.dataLen / 0x100 % 0x100] + e.data.value + [e.qos]
    else []
  }

  function Records(list: seq<Entry>): seq<byte> {
    if list == [] then [] else Record(list[0]) + Records(list[1..])
  }

  /** A record at the head of a buffer, and how long it is. */
  datatype Read = Read(topic: seq<byte>, data: payload, qos: byte, size: nat)

  /** One round of the cursor loop, up to the update; None when the record is cut short. */
  function ReadRecord(s: seq<byte>): (r: Option<Read>)
    requires s != [] && s[0] != 0
    ensures r.Some? ==> 0 < r.value.size <= |s| && r.value.topic != []
  {
    var k := IndexOf(s, 0);
    if |s| <= k + 2 then None
    else
      var dataLen := Word(s[k + 1], s[k + 2]);
      var pos := k + 3 + dataLen;
      if |s| <= pos then None else Some(Read(s[..k], s[k + 3..pos], s[pos], pos + 1))
  }

  function Word(lo: int, hi: int): int {
    lo + 0x100 * hi
  }

  /** deserialize_retainedtopics on the bytes from the cursor on. `mems` says what os_malloc does. */
  function Parse(list: seq<Entry>, s: seq<byte>, mems: seq<Mem>): (seq<Entry>, bool)
    decreases |s|
  {
    if s == [] || s[0] == 0 then (list, true)
    else
      match ReadRecord(s)
      case None => (list, false)
      case Some(r) =>
        var mem := if mems == [] then Mem(true, true) else mems[0];
        var (list', ok) := Update(list, r.topic, r.data, r.qos, mem);
        if ok then Parse(list', s[r.size..], if mems == [] then [] else mems[1..]) else (list', false)
  }

  /** The occupied slots, in order. */
  function Occupied(list: seq<Entry>): (r: seq<Entry>)
    ensures |r| <= |list|
  {
    if list == [] then [] else (if list[0].topic.Some? then [list[0]] else []) + Occupied(list[1..])
  }

  function Blanks(n: nat): (r: seq<Entry>)
    ensures |r| == n && forall i :: 0 <= i < n ==> r[i] == BLANK
  {
    if n == 0 then [] else [BLANK] + Blanks(n - 1)
  }

  lemma {:induction false} RecordsOfOccupied(list: seq<Entry>)
    requires forall i :: 0 <= i < |list| ==> EntryOk(list[i])
    ensures Records(list) == Records(Occupied(list))
  {
    if list != [] {
      RecordsOfOccupied(list[1..]);
      if list[0].topic.Some? {
        assert Occupied(list)[1..] == Occupied(list[1..]);
      } else {
        assert EntryOk(list[0]) && Occupied(list) == Occupied(list[1..]);
        assert [] + Records(list[1..]) == Records(list[1..]);
      }
    }
  }

  /** An occupied slot whose topic is a non-empty C string. */
  predicate Plain(e: Entry) {
    EntryOk(e) && e.topic.Some? && e.topic.value != [] && 0 !in e.topic.value
  }

  /** The cursor finds the fields of a record and its end. */
  lemma RecordReadsBack(e: Entry, rest: seq<byte>)
    requires Plain(e)
    ensures var s := Record(e) + rest;
            && s != [] && s[0] != 0
            && ReadRecord(s) == Some(Read(e.topic.value, e.data.value, e.qos, |Record(e)|))
  {
    var topic, data := e.topic.value, e.data.value;
    var s := Record(e) + rest;
    var k := |topic|;
    var pos := k + 3 + e.dataLen;
    assert s == topic + ([0, e.dataLen % 0x100, e.dataLen / 0x100] + data + [e.qos] + rest);
    assert s[..k] == topic;
    assert forall i :: 0 <= i < k ==> s[i] == topic[i];
    IndexOfIs(s, 0, k);
    assert Word(s[k + 1], s[k + 2]) == e.dataLen;
    assert s[k + 3..pos] == data && s[pos] == e.qos;
  }

  lemma StoreInBlank(done: seq<Entry>, e: Entry, blanks: nat)
    requires Fresh(done, e) && 0 < blanks
    ensures Update(done + Blanks(blanks), e.topic.value, e.data.value, e.qos, Mem(true, true))
            == (done + [e] + Blanks(blanks - 1), true)
  {
    var list := done + Blanks(blanks);
    FindIs(list, e.topic, |list|);
    FindIs(list, None, |done|);
    assert list[|done|] == BLANK;
    assert list[|done| := e] == done + [e] + Blanks(blanks - 1);
  }

  /** An entry that goes behind `done`, whose slots have other topics. */
  ghost predicate Fresh(done: seq<Entry>, e: Entry) {
    Plain(e) && forall i :: 0 <= i < |done| ==> done[i].topic.Some? && done[i].topic != e.topic
  }

  /** Entries that can go there one after the other. */
  ghost predicate Addable(done: seq<Entry>, todo: seq<Entry>)
    decreases |todo|
  {
    todo == [] || (Fresh(done, todo[0]) && Addable(done + [todo[0]], todo[1..]))
  }

  /** Reading one record back stores its entry in the first blank slot. */
  lemma ParseRecord(done: seq<Entry>, e: Entry, blanks: nat, rest: seq<byte>)
    requires Fresh(done, e) && 0 < blanks
    ensures Parse(done + Blanks(blanks), Record(e) + rest, []) == Parse(done + [e] + Blanks(blanks - 1), rest, [])
  {
    RecordReadsBack(e, rest);
    StoreInBlank(done, e, blanks);
    assert (Record(e) + rest)[|Record(e)|..] == rest;
  }

  ghost predicate AllPlain(list: seq<Entry>) {
    forall i :: 0 <= i < |list| ==> Plain(list[i])
  }

  ghost predicate DistinctTopics(list: seq<Entry>) {
    forall i, j :: 0 <= i < j < |list| ==> list[i].topic != list[j].topic
  }

  /** Plain entries with distinct topics can. */
  lemma {:induction false} DistinctAddable(done: seq<Entry>, todo: seq<Entry>)
    requires AllPlain(done) && AllPlain(todo) && DistinctTopics(done + todo)
    ensures Addable(done, todo)
    decreases |todo|
  {
    if todo != [] {
      assert (done + todo)[|done|] == todo[0];
      assert forall i :: 0 <= i < |done| ==> done[i] == (done + todo)[i];
      assert done + todo == done + [todo[0]] + todo[1..];
      DistinctAddable(done + [todo[0]], todo[1..]);
    }
  }

  /** The parser goes no further: the bytes end, or an empty topic is next. */
  predicate Stops(s: seq<byte>) {
    s == [] || s[0] == 0
  }

  /** A parser that stores one record after the other stores them all. */
  lemma {:induction false} OneByOne(parse: (seq<Entry>, seq<byte>) -> (seq<Entry>, bool), done: seq<Entry>, todo: seq<Entry>,
                                   blanks: nat, tail: seq<byte>, end: seq<Entry>)
    requires Addable(done, todo) && |todo| <= blanks && end == done + todo + Blanks(blanks - |todo|)
    requires forall list :: parse(list, tail) == (list, true)
    requires forall d: seq<Entry>, e: Entry, n: nat, r: seq<byte> :: Fresh(d, e) && 0 < n ==>
               parse(d + Blanks(n), Record(e) + r) == parse(d + [e] + Blanks(n - 1), r)
    ensures parse(done + Blanks(blanks), Records(todo) + tail) == (end, true)
    decreases |todo|
  {
    if todo == [] {
      assert done + [] == done && [] + tail == tail;
    } else {
      var e, rest := todo[0], todo[1..];
      assert todo == [e] + rest;
      SlotsJoin(done, e, rest, Blanks(blanks - |todo|));
      OneByOne(parse, done + [e], rest, blanks - 1, tail, end);
      Associate(Record(e), Records(rest), tail);
      assert Fresh(done, e);
    }
  }

  /** Reading the records of such entries into blank slots gives the entries themselves. */
  lemma ParseRecords(done: seq<Entry>, todo: seq<Entry>, blanks: nat, tail: seq<byte>)
    requires Addable(done, todo) && |todo| <= blanks && Stops(tail)
    ensures Parse(done + Blanks(blanks), Records(todo) + tail, []) == (done + todo + Blanks(blanks - |todo|), true)
  {
    var parse := (list: seq<Entry>, s: seq<byte>) => Parse(list, s, []);
    assert forall list :: parse(list, tail) == (list, true);
    forall d: seq<Entry>, e: Entry, n: nat, r: seq<byte> | Fresh(d, e) && 0 < n
      ensures parse(d + Blanks(n), Record(e) + r) == parse(d + [e] + Blanks(n - 1), r)
    {
      ParseRecord(d, e, n, r);
    }
    OneByOne(parse, done, todo, blanks, tail, done + todo + Blanks(blanks - |todo|));
  }

  lemma SlotsJoin(done: seq<Entry>, e: Entry, rest: seq<Entry>, blanks: seq<Entry>)
    ensures done + ([e] + rest) + blanks == done + [e] + rest + blanks
  {
  }

  // ---------------------------------------------------------------- the round trip

  lemma {:induction false} OccupiedKeeps(list: seq<Entry>)
    requires ListOk(list)
    ensures DistinctTopics(Occupied(list))
    ensures forall e :: e in Occupied(list) <==> e in list && e.topic.Some?
  {
    if list != [] {
      var rest := list[1..];
      assert ListOk(rest) by {
        assert forall i :: 0 <= i < |rest| ==> rest[i] == list[i + 1];
      }
      OccupiedKeeps(rest);
      var first: seq<Entry> := if list[0].topic.Some? then [list[0]] else [];
      assert list == [list[0]] + rest;
      forall i, j | 0 <= i < j < |Occupied(list)|
        ensures Occupied(list)[i].topic != Occupied(list)[j].topic
      {
        var k := |first|;
        assert Occupied(list)[j] == Occupied(rest)[j - k];
        if i < k {
          assert Occupied(rest)[j - k] in rest;
        } else {
          assert Occupied(list)[i] == Occupied(rest)[i - k];
        }
      }
    }
  }

  /** With distinct topics, looking a topic up finds its entry wherever that is. */
  lemma LookupIn(list: seq<Entry>, e: Entry, t: seq<byte>)
    requires ListOk(list) && e in list && e.topic == Some(t)
    ensures Lookup(list, t) == Some(Stored(e.data.value, e.qos))
  {
    var i :| 0 <= i < |list| && list[i] == e;
    FindIs(list, Some(t), i);
  }

  lemma LookupOut(list: seq<Entry>, t: seq<byte>)
    requires forall e :: e in list ==> e.topic != Some(t)
    ensures Lookup(list, t) == None
  {
    FindIs(list, Some(t), |list|);
  }

  /** Two lists with the same occupied entries stand for the same map. */
  lemma SameEntriesSameMap(a: seq<Entry>, b: seq<Entry>, t: seq<byte>)
    requires ListOk(a) && ListOk(b)
    requires forall e: Entry :: e.topic.Some? ==> (e in a <==> e in b)
    ensures Lookup(a, t) == Lookup(b, t)
  {
    if e :| e in a && e.topic == Some(t) {
      LookupIn(a, e, t);
      LookupIn(b, e, t);
    } else {
      LookupOut(a, t);
      LookupOut(b, t);
    }
  }

  lemma CompactionOk(list: seq<Entry>, n: nat)
    requires ListOk(list)
    ensures ListOk(Occupied(list) + Blanks(n))
    ensures forall t :: Lookup(Occupied(list) + Blanks(n), t) == Lookup(list, t)
  {
    var occ := Occupied(list);
    OccupiedKeeps(list);
    var c := occ + Blanks(n);
    forall i | 0 <= i < |c|
      ensures EntryOk(c[i])
    {
      if i < |occ| {
        assert occ[i] in occ;
      }
    }
    assert forall e: Entry :: e.topic.Some? ==> (e in c <==> e in occ);
    assert ListOk(c) by {
      forall i, j | 0 <= i < j < |c| && c[i].topic.Some?
        ensures c[i].topic != c[j].topic
      {
        assert i < |occ|;
      }
    }
    forall t
      ensures Lookup(c, t) == Lookup(list, t)
    {
      SameEntriesSameMap(c, list, t);
    }
  }

  lemma ParsesBack(occ: seq<Entry>, n: nat, tail: seq<byte>, s: seq<byte>)
    requires s == Records(occ) + tail && AllPlain(occ) && DistinctTopics(occ) && |occ| <= n && Stops(tail)
    ensures Parse(Blanks(n), s, []) == (occ + Blanks(n - |occ|), true)
  {
    assert [] + Blanks(n) == Blanks(n) && [] + occ == occ;
    DistinctAddable([], occ);
    ParseRecords([], occ, n, tail);
  }

  /** An occupied slot whose topic is a C string, perhaps the empty one. */
  predicate Named(e: Entry) {
    EntryOk(e) && e.topic.Some? && 0 !in e.topic.value
  }

  /** The entries before the first one with the empty topic. */
  function BeforeEmpty(occ: seq<Entry>): (r: seq<Entry>)
    ensures r <= occ
    ensures |r| < |occ| ==> occ[|r|].topic == Some([])
    ensures forall i :: 0 <= i < |r| ==> r[i].topic != Some([])
  {
    if occ == [] || occ[0].topic == Some([]) then [] else [occ[0]] + BeforeEmpty(occ[1..])
  }

  lemma {:induction false} RecordsJoin(a: seq<Entry>, b: seq<Entry>)
    ensures Records(a + b) == Records(a) + Records(b)
  {
    if a == [] {
      assert a + b == b && [] + Records(b) == Records(b);
    } else {
      assert (a + b)[1..] == a[1..] + b;
      RecordsJoin(a[1..], b);
      Associate(Record(a[0]), Records(a[1..]), Records(b));
    }
  }

  /** The records from the first empty topic on start with its zero byte. */
  lemma EmptyTopicStops(occ: seq<Entry>)
    requires forall i :: 0 <= i < |occ| ==> Named(occ[i])
    ensures var kept := BeforeEmpty(occ);
            && AllPlain(kept) && Stops(Records(occ[|kept|..]))
            && Records(occ) == Records(kept) + Records(occ[|kept|..])
  {
    var kept := BeforeEmpty(occ);
    var k := |kept|;
    assert occ == kept + occ[k..];
    RecordsJoin(kept, occ[k..]);
    if k < |occ| {
      var e := occ[k..][0];
      assert Named(e) && e == occ[k];
      assert Record(e)[0] == 0;
    }
  }

  /**
   * What was serialized, read into `n` blank slots, gives the occupied slots before the first
   * one with the empty topic, in their order. That is the same map if and only if no slot has
   * the empty topic.
   */
  lemma RoundTrip(list: seq<Entry>, n: nat)
    requires ListOk(list) && |Occupied(list)| <= n
    requires forall e :: e in list && e.topic.Some? ==> 0 !in e.topic.value
    ensures var kept := BeforeEmpty(Occupied(list));
            var list' := kept + Blanks(n - |kept|);
            && Parse(Blanks(n), Records(list), []) == (list', true)
            && ((forall t :: Lookup(list', t) == Lookup(list, t)) <==> (forall e :: e in list ==> e.topic != Some([])))
  {
    KeptIsParsed(list, n);
    SameMapExactly(list, n);
  }

  lemma KeptIsParsed(list: seq<Entry>, n: nat)
    requires ListOk(list) && |Occupied(list)| <= n
    requires forall e :: e in list && e.topic.Some? ==> 0 !in e.topic.value
    ensures var kept := BeforeEmpty(Occupied(list));
            Parse(Blanks(n), Records(list), []) == (kept + Blanks(n - |kept|), true)
  {
    var kept := BeforeEmpty(Occupied(list));
    var tail := KeptComesFirst(list);
    ParsesBack(kept, n, tail, Records(list));
  }

  lemma KeptComesFirst(list: seq<Entry>) returns (tail: seq<byte>)
    requires ListOk(list)
    requires forall e :: e in list && e.topic.Some? ==> 0 !in e.topic.value
    ensures var kept := BeforeEmpty(Occupied(list));
            AllPlain(kept) && DistinctTopics(kept) && Stops(tail) && Records(list) == Records(kept) + tail
  {
    var occ := Occupied(list);
    OccupiedNamed(list);
    RecordsOfOccupied(list);
    EmptyTopicStops(occ);
    tail := Records(occ[|BeforeEmpty(occ)|..]);
    OccupiedKeeps(list);
  }

  lemma OccupiedNamed(list: seq<Entry>)
    requires ListOk(list) && forall e :: e in list && e.topic.Some? ==> 0 !in e.topic.value
    ensures forall i :: 0 <= i < |Occupied(list)| ==> Named(Occupied(list)[i])
  {
    OccupiedKeeps(list);
    forall i | 0 <= i < |Occupied(list)|
      ensures Named(Occupied(list)[i])
    {
      assert Occupied(list)[i] in Occupied(list);
    }
  }

  lemma SameMapExactly(list: seq<Entry>, n: nat)
    requires ListOk(list) && |Occupied(list)| <= n
    ensures var kept := BeforeEmpty(Occupied(list));
            (forall t :: Lookup(kept + Blanks(n - |kept|), t) == Lookup(list, t)) <==>
            (forall e :: e in list ==> e.topic != Some([]))
  {
    var occ := Occupied(list);
    var kept := BeforeEmpty(occ);
    OccupiedKeeps(list);
    if |kept| == |occ| {
      assert kept == occ;
      assert forall e :: e in occ ==> e.topic != Some([]);
      CompactionOk(list, n - |kept|);
    } else {
      var e := occ[|kept|];
      assert e in occ;
      LookupIn(list, e, []);
      LookupOut(kept + Blanks(n - |kept|), []);
    }
  }

  /** The parser never stores an empty topic, so a retained empty topic does not come back. */
  lemma {:induction false} EmptyTopicIsLost(list: seq<Entry>, s: seq<byte>, mems: seq<Mem>)
    requires forall e :: e in list ==> e.topic != Some([])
    ensures Lookup(Parse(list, s, mems).0, []) == None
    decreases |s|
  {
    LookupOut(list, []);
    if s != [] && s[0] != 0 && ReadRecord(s).Some? {
      var r := ReadRecord(s).value;
      var mem := if mems == [] then Mem(true, true) else mems[0];
      var list' := Update(list, r.topic, r.data, r.qos, mem).0;
      NoEmptyTopicStored(list, r.topic, r.data, r.qos, mem);
      LookupOut(list', []);
      EmptyTopicIsLost(list', s[r.size..], if mems == [] then [] else mems[1..]);
    }
  }

  lemma NoEmptyTopicStored(list: seq<Entry>, topic: seq<byte>, data: payload, qos: byte, mem: Mem)
    requires topic != [] && forall e :: e in list ==> e.topic != Some([])
    ensures forall e :: e in Update(list, topic, data, qos, mem).0 ==> e.topic != Some([])
  {
  }
}
