/**
 * The retry loop of the client (src/mqtt.c): while a put fails, drop the oldest message.
 *
 * Each failed attempt fills the ring with one more torn frame, so the room for the next
 * attempt is exactly what the dropped message and the torn frames before it used up.
 */
module DropOldest {
  import opened Bytes
  import opened Proto
  import opened MessageQueue

  /** How many bytes each message frees when it is taken: its frame and the torn ones before it. */
  function Freed(c: seq<byte>): (r: seq<nat>)
    decreases |c|
  {
    var k := IndexOf(c, END);
    if k == |c| then [] else [k + 1] + Freed(c[k + 1..])
  }

  /** The first entry of at least `need`, or |f| when there is none. */
  function FirstEnough(f: seq<nat>, need: nat): (j: nat)
    ensures j <= |f|
    ensures forall i :: 0 <= i < j ==> f[i] < need
    ensures j < |f| ==> need <= f[j]
  {
    if f == [] || need <= f[0] then 0 else 1 + FirstEnough(f[1..], need)
  }

  lemma {:induction false} FreedPerMessage(c: seq<byte>)
    ensures |Freed(c)| == |Messages(c)|
    decreases |c|
  {
    var k := IndexOf(c, END);
    if k < |c| {
      FreedPerMessage(c[k + 1..]);
    }
  }

  lemma {:induction false} TornFreesNothing(c: seq<byte>, t: seq<byte>)
    requires END !in t
    ensures Freed(c + t) == Freed(c)
    decreases |c|
  {
    var k := IndexOf(c, END);
    var d := c + t;
    if k == |c| {
      IndexOfIs(d, END, |d|);
    } else {
      IndexOfIs(d, END, k);
      assert d[k + 1..] == c[k + 1..] + t;
      TornFreesNothing(c[k + 1..], t);
    }
  }

  /** One failed attempt and one drop; None when there is nothing to drop. */
  function FailAndDrop(c: seq<byte>, size: nat, m: seq<byte>): (r: Option<seq<byte>>)
    requires Aligned(c) && |c| <= size && !Fits(c, size, m)
    ensures r.None? <==> Messages(c) == []
    ensures r.Some? ==> Aligned(r.value) && |r.value| <= size && Messages(r.value) == Messages(c)[1..]
  {
    var full := PutContents(c, size, m);
    var k := IndexOf(full, END);
    PutAppendsOrTears(c, size, m);
    if k == |full| then None
    else
      GetTakesFirst(full, 0, false);
      Some(full[k + 1..])
  }

  /** The ring's contents after the loop, and what the loop returns. */
  function Retry(c: seq<byte>, size: nat, m: seq<byte>): (r: (seq<byte>, bool))
    requires Aligned(c) && |c| <= size
    decreases |Messages(c)|
  {
    if Fits(c, size, m) then (PutContents(c, size, m), true)
    else
      match FailAndDrop(c, size, m)
      case None => ([], false)
      case Some(d) => Retry(d, size, m)
  }

  lemma DropFrees(c: seq<byte>, size: nat, m: seq<byte>)
    requires Aligned(c) && |c| <= size && !Fits(c, size, m)
    requires FailAndDrop(c, size, m).Some?
    ensures var d := FailAndDrop(c, size, m).value;
            Freed(c) != [] && Freed(d) == Freed(c)[1..] && |d| + Freed(c)[0] == size
  {
    PutAppendsOrTears(c, size, m);
    var full := PutContents(c, size, m);
    assert full == c + full[|c|..];
    TornFreesNothing(c, full[|c|..]);
  }

  /**
   * The loop ends with `d` and `ok`, on a ring with the messages `ms` that free `freed`; `fits`
   * says that a frame of `need` bytes fits at once.
   */
  predicate Outcome(fits: bool, need: nat, freed: seq<nat>, ms: seq<seq<byte>>, m: seq<byte>, d: seq<byte>, ok: bool) {
    var j := FirstEnough(freed, need);
    && |freed| == |ms|
    && (ok <==> fits || j < |ms|)
    && (ok ==> Messages(d) == (if fits then ms else ms[j + 1..]) + [m])
    && (!ok ==> d == [])
  }

  lemma OutcomeBehind(need: nat, freed: seq<nat>, ms: seq<seq<byte>>, m: seq<byte>, d: seq<byte>, ok: bool)
    requires freed != [] && |ms| == |freed|
    requires Outcome(need <= freed[0], need, freed[1..], ms[1..], m, d, ok)
    ensures Outcome(false, need, freed, ms, m, d, ok)
  {
    if freed[0] < need {
      var j := FirstEnough(freed[1..], need);
      assert j < |ms| - 1 ==> ms[1..][j + 1..] == ms[1 + j + 1..];
    }
  }

  lemma {:induction false} RetryOutcome(c: seq<byte>, size: nat, m: seq<byte>)
    requires Aligned(c) && |c| <= size
    ensures var (d, ok) := Retry(c, size, m);
            && Aligned(d) && |d| <= size
            && Outcome(Fits(c, size, m), |Frame(m)|, Freed(c), Messages(c), m, d, ok)
    decreases |Messages(c)|
  {
    FreedPerMessage(c);
    if Fits(c, size, m) {
      PutAppendsOrTears(c, size, m);
    } else {
      match FailAndDrop(c, size, m)
      case None =>
      case Some(e) =>
        DropFrees(c, size, m);
        RetryOutcome(e, size, m);
        var (d, ok) := Retry(e, size, m);
        OutcomeBehind(|Frame(m)|, Freed(c), Messages(c), m, d, ok);
    }
  }

  /**
   * The loop succeeds exactly when the frame fits at once or some drop frees enough bytes by
   * itself; then it has dropped just the messages up to the first such one, and the new
   * message is last. Otherwise it has emptied the ring, even when the frame would now fit.
   */
  lemma RetryKeepsSuffix(c: seq<byte>, size: nat, m: seq<byte>)
    requires Aligned(c) && |c| <= size
    ensures var (d, ok) := Retry(c, size, m);
            var j := FirstEnough(Freed(c), |Frame(m)|);
            && Aligned(d) && |d| <= size && |Freed(c)| == |Messages(c)|
            && (ok <==> Fits(c, size, m) || j < |Messages(c)|)
            && (ok ==> Messages(d) == (if Fits(c, size, m) then Messages(c) else Messages(c)[j + 1..]) + [m])
            && (!ok ==> d == [] && Messages(d) == [])
  {
    RetryOutcome(c, size, m);
  }

  /** A message that is refused although the emptied ring has room for it. */
  lemma RefusedThoughItFits()
    ensures var c := Frame([1]);
            Aligned(c) && Retry(c, 6, [1, 2, 3, 4]) == ([], false) && Fits([], 6, [1, 2, 3, 4])
  {
    var c := Frame([1]);
    var m := [1, 2, 3, 4];
    assert Stuff([1]) == [1];
    assert c == [START, 1] + [END];
    IndexOfIs(c, END, 2);
    assert Freed(c) == [3] && Freed([]) == [];
    StuffIsClean(m);
    assert |Frame(m)| == 6;
    RetryKeepsSuffix(c, 6, m);
  }

  /** One round of the loop: a put and, when it fails, the drop of the oldest message. */
  method PutOrDrop(q: Queue, m: seq<byte>, dataBuffer: array<byte>) returns (done: bool, ok: bool)
    requires q.Valid() && dataBuffer != q.rb.mem
    modifies q.rb, q.rb.mem, dataBuffer
    ensures q.Valid()
    ensures done ==> (q.rb.Contents(), ok) == Retry(old(q.rb.Contents()), q.rb.mem.Length, m)
    ensures !done ==> |q.Pending()| < |old(q.Pending())|
    ensures !done ==> Retry(q.rb.Contents(), q.rb.mem.Length, m) == Retry(old(q.rb.Contents()), q.rb.mem.Length, m)
  {
    ghost var c := q.rb.Contents();
    var r := q.Puts(m);
    if r != -1 {
      return true, true;
    }
    var r', _ := q.Gets(dataBuffer, dataBuffer.Length, false);
    if r' == -1 {
      return true, false;
    }
    assert Some(q.rb.Contents()) == FailAndDrop(c, q.rb.mem.Length, m);
    return false, false;
  }

  /**
   * The loop shared by MQTT_Publish, MQTT_Subscribe, MQTT_UnSubscribe and MQTT_Ping.
   * `dataBuffer` receives the messages that are dropped.
   */
  method PutDroppingOldest(q: Queue, m: seq<byte>, dataBuffer: array<byte>) returns (ok: bool)
    requires q.Valid() && dataBuffer != q.rb.mem
    modifies q.rb, q.rb.mem, dataBuffer
    ensures q.Valid()
    ensures (q.rb.Contents(), ok) == Retry(old(q.rb.Contents()), q.rb.mem.Length, m)
  {
    ghost var goal := Retry(q.rb.Contents(), q.rb.mem.Length, m);
    var done := false;
    ok := false;
    while !done
      invariant q.Valid()
      invariant if done then (q.rb.Contents(), ok) == goal else Retry(q.rb.Contents(), q.rb.mem.Length, m) == goal
      decreases if done then 0 else 1 + |q.Pending()|
    {
      done, ok := PutOrDrop(q, m, dataBuffer);
    }
  }
}
