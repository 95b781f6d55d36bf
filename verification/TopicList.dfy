/** The subscription slots of src/mqtt_topiclist.cpp. */
module TopicList {
  import opened Bytes
  import opened Topics

  /** The `clientcon` of an occupied slot: LOCAL_MQTT_CLIENT or a connection. */
  datatype Owner = Local | Con(h: nat)
  datatype Slot = Free | Sub(owner: Owner, filter: seq<byte>, qos: byte)

  /** The first free slot, or |slots|. */
  function FirstFree(slots: seq<Slot>): (k: nat)
    ensures k <= |slots|
    ensures forall i :: 0 <= i < k ==> slots[i].Sub?
    ensures k < |slots| ==> slots[k].Free?
  {
    if slots == [] || slots[0].Free? then 0 else 1 + FirstFree(slots[1..])
  }

  lemma FirstFreeIs(slots: seq<Slot>, k: nat)
    requires k <= |slots|
    requires forall i :: 0 <= i < k ==> slots[i].Sub?
    requires k < |slots| ==> slots[k].Free?
    ensures FirstFree(slots) == k
  {
  }

  /** add_topic: a valid filter goes to the first free slot. */
  function Subscribe(slots: seq<Slot>, owner: Owner, filter: seq<byte>, qos: byte): (seq<Slot>, bool) {
    var k := FirstFree(slots);
    if ValidName(filter) && k < |slots| then (slots[k := Sub(owner, filter, qos)], true) else (slots, false)
  }

  /** What delete_topic removes: any owner's slots when `owner` is None, any filter's when that is. */
  predicate Doomed(slot: Slot, owner: Option<Owner>, filter: Option<seq<byte>>) {
    && slot.Sub?
    && (owner == None || owner == Some(slot.owner))
    && (filter == None || filter == Some(slot.filter))
  }

  /** delete_topic. */
  function Unsubscribe(slots: seq<Slot>, owner: Option<Owner>, filter: Option<seq<byte>>): (r: seq<Slot>)
    ensures |r| == |slots|
    ensures forall i :: 0 <= i < |slots| ==> r[i] == if Doomed(slots[i], owner, filter) then Free else slots[i]
  {
    seq(|slots|, i requires 0 <= i < |slots| => if Doomed(slots[i], owner, filter) then Free else slots[i])
  }

  class Subscriptions {
    const slots: array<Slot>

    constructor (n: nat)
      ensures fresh(slots) && slots.Length == n
      ensures forall i :: 0 <= i < n ==> slots[i] == Free
    {
      slots := new Slot[n](_ => Free);
    }

    method AddTopic(owner: Owner, filter: seq<byte>, qos: byte) returns (ok: bool)
      modifies slots
      ensures (slots[..], ok) == Subscribe(old(slots[..]), owner, filter, qos)
    {
      var valid := IsValidName(filter);
      if !valid {
        return false;
      }
      for i := 0 to slots.Length
        invariant slots[..] == old(slots[..])
        invariant forall j :: 0 <= j < i ==> slots[j].Sub?
      {
        if slots[i].Free? {
          FirstFreeIs(slots[..], i);
          slots[i] := Sub(owner, filter, qos);
          return true;
        }
      }
      FirstFreeIs(slots[..], slots.Length);
      return false;
    }

    method DeleteTopic(owner: Option<Owner>, filter: Option<seq<byte>>)
      modifies slots
      ensures slots[..] == Unsubscribe(old(slots[..]), owner, filter)
    {
      for i := 0 to slots.Length
        invariant forall j :: 0 <= j < i ==>
                    slots[j] == if Doomed(old(slots[j]), owner, filter) then Free else old(slots[j])
        invariant forall j :: i <= j < slots.Length ==> slots[j] == old(slots[j])
      {
        if slots[i].Sub? && (owner == None || owner == Some(slots[i].owner)) {
          if filter == None || filter == Some(slots[i].filter) {
            slots[i] := Free;
          }
        }
      }
    }
  }
}
