/** The circular byte buffer of src/ringbuf_mqtt.c. */
module Ring {
  import opened Bytes

  /** The `fill` bytes from `pr` on, around the end. */
  function Around(mem: seq<byte>, pr: nat, fill: nat): (s: seq<byte>)
    requires pr < |mem| && fill <= |mem|
    ensures |s| == fill
  {
    if pr + fill <= |mem| then mem[pr..pr + fill] else mem[pr..] + mem[..pr + fill - |mem|]
  }

  function Next(pr: nat, size: nat): nat {
    if pr + 1 >= size then 0 else pr + 1
  }

  lemma TakeFirst(mem: seq<byte>, pr: nat, fill: nat)
    requires pr < |mem| && 0 < fill <= |mem|
    ensures Around(mem, pr, fill) == [mem[pr]] + Around(mem, Next(pr, |mem|), fill - 1)
  {
  }

  lemma PutLast(mem: seq<byte>, pr: nat, fill: nat, pw: nat, c: byte)
    requires pr < |mem| && fill < |mem| && pw == if pr + fill < |mem| then pr + fill else pr + fill - |mem|
    ensures Around(mem[pw := c], pr, fill + 1) == Around(mem, pr, fill) + [c]
  {
  }

  class RingBuf {
    const mem: array<byte> // p_o and size
    var pr: nat            // p_r, as an offset from p_o
    var pw: nat            // p_w, as an offset from p_o
    var fill: nat          // fill_cnt

    ghost predicate Valid()
      reads this
    {
      && 2 <= mem.Length
      && pr < mem.Length
      && fill <= mem.Length
      && pw == if pr + fill < mem.Length then pr + fill else pr + fill - mem.Length
    }

    /** The bytes put and not yet got, oldest first. */
    ghost function Contents(): (s: seq<byte>)
      requires Valid()
      reads this, mem
      ensures |s| == fill
    {
      Around(mem[..], pr, fill)
    }

    constructor (size: nat)
      requires 2 <= size
      ensures Valid() && fresh(mem)
      ensures mem.Length == size && Contents() == []
    {
      mem := new byte[size];
      pr, pw, fill := 0, 0, 0;
    }

    /** RINGBUF_Init refuses a buffer of fewer than two bytes. */
    static method Init(size: int) returns (r: RingBuf?)
      ensures r == null <==> size < 2
      ensures r != null ==> fresh(r) && fresh(r.mem) && r.Valid() && r.mem.Length == size && r.Contents() == []
    {
      r := null;
      if 2 <= size {
        r := new RingBuf(size);
      }
    }

    method Put(c: byte) returns (ok: bool)
      requires Valid()
      modifies this, mem
      ensures Valid()
      ensures ok == (old(fill) < mem.Length)
      ensures Contents() == if ok then old(Contents()) + [c] else old(Contents())
    {
      if fill >= mem.Length {
        return false;
      }
      PutLast(mem[..], pr, fill, pw, c);
      fill := fill + 1;
      mem[pw] := c;
      pw := pw + 1;
      if pw >= mem.Length {
        pw := 0;
      }
      return true;
    }

    method Get() returns (c: Option<byte>)
      requires Valid()
      modifies this
      ensures Valid()
      ensures c.None? <==> old(Contents()) == []
      ensures c.None? ==> Contents() == []
      ensures c.Some? ==> [c.value] + Contents() == old(Contents())
    {
      if fill <= 0 {
        return None;
      }
      TakeFirst(mem[..], pr, fill);
      fill := fill - 1;
      c := Some(mem[pr]);
      pr := pr + 1;
      if pr >= mem.Length {
        pr := 0;
      }
    }
  }
}
