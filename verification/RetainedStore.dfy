/** The slot array of src/mqtt_retainedlist.c, changed in place. */
module RetainedStore {
  import opened Bytes
  import opened Topics
  import opened Retained

  /** Where the record at `pos` in a buffer of `len` bytes is, when its topic ends at `k`. */
  lemma ReadRecordAt(buf: seq<byte>, len: nat, pos: nat, k: nat)
    requires pos < len <= |buf| && pos <= k <= len && buf[pos] != 0
    requires (forall i :: pos <= i < k ==> buf[i] != 0) && (k < len ==> buf[k] == 0)
    ensures var s := buf[pos..len];
            if len <= k + 2 then ReadRecord(s) == None
            else
              var at := k + 3 + Word(buf[k + 1], buf[k + 2]);
              && ReadRecord(s) == (if len <= at then None
                                   else Some(Read(buf[pos..k], buf[k + 3..at], buf[at], at + 1 - pos)))
              && (at < len ==> s[at + 1 - pos..] == buf[at + 1..len])
  {
    var s := buf[pos..len];
    IndexOfIs(s, 0, k - pos);
    assert s[..k - pos] == buf[pos..k] by {
      Slice(buf, pos, len, pos, k);
    }
    if k + 2 < len {
      assert s[k - pos + 1] == buf[k + 1] && s[k - pos + 2] == buf[k + 2];
      var at := k + 3 + Word(buf[k + 1], buf[k + 2]);
      if at < len {
        Slice(buf, pos, len, k + 3, at);
        assert s[k - pos + 3..at - pos] == buf[k + 3..at] && s[at - pos] == buf[at];
        Slice(buf, pos, len, at + 1, len);
      }
    }
  }

  class Store {
    const list: array<Entry>

    constructor (n: nat)
      ensures fresh(list) && list[..] == Blanks(n) && ListOk(list[..])
    {
      list := new Entry[n](_ => BLANK);
      new;
      assert list[..] == Blanks(n);
    }

    /** The two scans of update_retainedtopic. */
    method FindSlot(topic: Option<seq<byte>>) returns (i: nat)
      ensures i == Find(list[..], topic)
    {
      i := 0;
      while i < list.Length && list[i].topic != topic
        invariant i <= list.Length
        invariant forall j :: 0 <= j < i ==> list[j].topic != topic
      {
        i := i + 1;
      }
      FindIs(list[..], topic, i);
    }

    method UpdateTopic(topic: seq<byte>, data: payload, qos: byte, mem: Mem) returns (ok: bool)
      modifies list
      ensures (list[..], ok) == Update(old(list[..]), topic, data, qos, mem)
    {
      var i := FindSlot(Some(topic));
      if i >= list.Length {
        if data == [] {
          return true;
        }
        i := FindSlot(None);
        if i >= list.Length {
          return false;
        }
        if !mem.topicOk {
          return false;
        }
        list[i] := list[i].(topic := Some(topic));
      }
      if data == [] {
        list[i] := Clear(list[i]);
        return true;
      }
      var room := list[i].data.Some?;
      if !room || |data| != list[i].dataLen {
        room := mem.dataOk;
      }
      if !room {
        list[i] := Clear(list[i]);
        assert list[..] == old(list[..])[i := list[i]];
        return false;
      }
      list[i] := list[i].(data := Some(data), dataLen := |data|, qos := qos);
      assert list[..] == old(list[..])[i := list[i]];
      return true;
    }

    /** clear_retainedtopics: each slot is emptied through an update, while the list is walked. */
    method ClearTopics()
      requires ListOk(list[..])
      modifies list
      ensures ListOk(list[..])
      ensures forall i :: 0 <= i < list.Length ==> list[i] == Clear(old(list[i]))
      ensures forall t :: Lookup(list[..], t) == None
    {
      ghost var was := list[..];
      for i := 0 to list.Length
        invariant ListOk(list[..])
        invariant forall j :: 0 <= j < i ==> list[j] == Clear(was[j])
        invariant forall j :: i <= j < list.Length ==> list[j] == was[j]
      {
        assert list[..][i] == list[i] && EntryOk(list[..][i]);
        if list[i].topic.Some? {
          ghost var before := list[..];
          FindIs(before, list[i].topic, i);
          UpdateRefinesMap(before, list[i].topic.value, [], list[i].qos, Mem(true, true));
          var _ := UpdateTopic(list[i].topic.value, [], list[i].qos, Mem(true, true));
        }
      }
      forall t
        ensures Lookup(list[..], t) == None
      {
        LookupOut(list[..], t);
      }
    }

    /** Behind what is written up to `pos`, `s` is written. */
    method CopyTo(buf: array<byte>, pos: nat, s: seq<byte>) returns (next: nat)
      requires pos + |s| <= buf.Length
      modifies buf
      ensures next == pos + |s|
      ensures buf[..next] == old(buf[..pos]) + s
    {
      forall k | 0 <= k < |s| {
        buf[pos + k] := s[k];
      }
      return pos + |s|;
    }

    /** One record of serialize_retainedtopics, and the zero behind it. */
    method WriteRecord(buf: array<byte>, pos: nat, topic: seq<byte>, data: seq<byte>, qos: byte) returns (next: nat)
      requires |data| < 0x1_0000 && pos + |topic| + 4 + |data| < buf.Length
      modifies buf
      ensures next == pos + |topic| + 4 + |data| && buf[next] == 0
      ensures buf[..next] == old(buf[..pos]) + Record(Entry(Some(topic), Some(data), |data|, qos))
    {
      ghost var was := buf[..pos];
      next := CopyTo(buf, pos, topic);
      next := CopyTo(buf, next, [0]);
      next := CopyTo(buf, next, [|data| % 0x100]);
      next := CopyTo(buf, next, [|data| / 0x100 % 0x100]);
      next := CopyTo(buf, next, data);
      next := CopyTo(buf, next, [qos]);
      assert buf[..next] == was + topic + [0] + [|data| % 0x100] + [|data| / 0x100 % 0x100] + data + [qos];
      RecordJoins(was, topic, |data| % 0x100, |data| / 0x100 % 0x100, data, qos);
      ghost var all := buf[..next];
      buf[next] := 0;
      assert buf[..next] == all;
    }

    lemma RecordsFrom(was: seq<byte>, l: seq<Entry>, i: nat)
      requires i < |l|
      ensures was + Records(l[i..]) == was + Record(l[i]) + Records(l[i + 1..])
    {
      assert l[i..][0] == l[i] && l[i..][1..] == l[i + 1..];
    }

    lemma RecordJoins(was: seq<byte>, topic: seq<byte>, lo: byte, hi: byte, data: seq<byte>, qos: byte)
      ensures was + topic + [0] + [lo] + [hi] + data + [qos] == was + (topic + [0, lo, hi] + data + [qos])
    {
    }

    /**
     * serialize_retainedtopics. It succeeds exactly when the records leave at least three bytes
     * of the buffer free; an empty list gives a single zero byte. The `uint16_t` cursor is why
     * the buffer is below 64 KiB.
     */
    method Serialize(buf: array<byte>) returns (n: nat)
      requires 0 < buf.Length < 0x1_0000 && ListOk(list[..]) && list as object != buf
      modifies buf
      ensures var s := Records(list[..]);
              if s == [] then n == 1 && buf[0] == 0 && buf[1..] == old(buf[..])[1..]
              else if |s| <= buf.Length - 3 then n == |s| && buf[..n] == s && buf[n] == 0
              else n == 0
    {
      var pos: nat := 0;
      ghost var l := list[..];
      ghost var all := Records(l);
      assert l[0..] == l;
      for i := 0 to list.Length
        invariant pos <= buf.Length && (pos == 0 || (pos <= buf.Length - 3 && buf[pos] == 0))
        invariant all == buf[..pos] + Records(l[i..])
        invariant pos == 0 ==> buf[..] == old(buf[..])
      {
        var e := list[i];
        assert e == l[i] && EntryOk(e);
        RecordsFrom(buf[..pos], l, i);
        if e.topic.Some? {
          if pos + |e.topic.value| + 4 + e.dataLen + 1 >= buf.Length - 1 {
            return 0;
          }
          pos := WriteRecord(buf, pos, e.topic.value, e.data.value, e.qos);
        } else {
          assert buf[..pos] + [] == buf[..pos];
        }
      }
      if pos == 0 {
        buf[0] := 0;
        return 1;
      }
      return pos;
    }

    /** One round of the cursor loop: the record at `pos`, and where the next one starts. */
    method TakeRecord(buf: seq<byte>, len: nat, pos: nat, mem: Mem) returns (ok: bool, next: nat)
      requires pos < len <= |buf| && buf[pos] != 0
      modifies list
      ensures match ReadRecord(buf[pos..len])
              case None => !ok && list[..] == old(list[..])
              case Some(r) => (list[..], ok) == Update(old(list[..]), r.topic, r.data, r.qos, mem)
                              && next == pos + r.size && next <= len && buf[pos..len][r.size..] == buf[next..len]
    {
      var k := StrChr(buf[..len], 0, pos);
      ReadRecordAt(buf, len, pos, k);
      if k + 2 >= len {
        return false, pos;
      }
      next := k + 3 + Word(buf[k + 1], buf[k + 2]) + 1;
      if next - 1 >= len {
        return false, pos;
      }
      ok := UpdateTopic(buf[pos..k], buf[k + 3..next - 1], buf[next - 1], mem);
    }

    /** deserialize_retainedtopics on the first `len` bytes of `buf`. */
    method Deserialize(buf: seq<byte>, len: nat, mems: seq<Mem>) returns (ok: bool)
      requires len <= |buf|
      modifies list
      ensures (list[..], ok) == Parse(old(list[..]), buf[..len], mems)
    {
      var pos := 0;
      var left := mems;
      assert buf[..len] == buf[0..len];
      while pos < len && buf[pos] != 0
        invariant 0 <= pos <= len
        invariant Parse(list[..], buf[pos..len], left) == Parse(old(list[..]), buf[..len], mems)
      {
        ok, pos := TakeRecord(buf, len, pos, if left == [] then Mem(true, true) else left[0]);
        if !ok {
          return false;
        }
        left := if left == [] then [] else left[1..];
      }
      return true;
    }
  }
}
