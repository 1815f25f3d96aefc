/** One direction of a shared-memory channel as it is mapped: slots written in place, a
    head and a tail. Calls here run undisturbed; ShmRing interleaves their steps. */
module ShmChannel {
  import opened Common
  import opened ShmRing

  /** Position k places behind head, around the end of the slot array. */
  function Place(head: nat, k: nat): (i: nat)
    requires head < SLOT_COUNT && k < SLOT_COUNT
    ensures i < SLOT_COUNT
  {
    if head + k < SLOT_COUNT then head + k else head + k - SLOT_COUNT
  }

  class Channel {
    const slots: array<Slot>
    var head: nat
    var tail: nat

    ghost function Count(): nat
      requires head < SLOT_COUNT && tail < SLOT_COUNT
      reads this
    {
      if head <= tail then tail - head else SLOT_COUNT - head + tail
    }

    /** A slot in flight is ready and holds its message; any other is not ready. */
    ghost predicate Valid()
      reads this, slots
    {
      && slots.Length == SLOT_COUNT && head < SLOT_COUNT && tail < SLOT_COUNT
      && (forall i :: 0 <= i < SLOT_COUNT ==> |slots[i].data| == SLOT_SIZE)
      && (forall k: nat :: k < SLOT_COUNT ==> slots[Place(head, k)].ready == (k < Count()))
      && (forall k: nat :: k < Count() ==> 0 < slots[Place(head, k)].len <= SLOT_SIZE)
    }

    ghost function Contents(): (s: seq<Bytes>)
      requires Valid()
      reads this, slots
      ensures |s| == Count()
      ensures forall k: nat :: k < Count() ==> s[k] == Payload(slots[Place(head, k)])
    {
      seq(Count(), k requires Valid() && 0 <= k < Count() reads this, slots => Payload(slots[Place(head, k)]))
    }

    /** ring_init. */
    constructor ()
      ensures Valid() && Contents() == [] && fresh(slots)
    {
      var blank: Bytes := seq(SLOT_SIZE, _ => 0);
      slots := new Slot[SLOT_COUNT](_ => Slot(false, 0, blank));
      head, tail := 0, 0;
    }

    /** nos_shm_channel_write: rejects bad lengths, reports a full ring, else appends. */
    method Write(data: Bytes) returns (s: Status)
      requires Valid()
      modifies this`tail, slots
      ensures Valid()
      ensures s == if |data| == 0 || |data| > SLOT_SIZE then Err
                   else if |old(Contents())| == SLOT_COUNT - 1 then Busy else Ok
      ensures Contents() == if s == Ok then old(Contents()) + [data] else old(Contents())
      ensures s != Ok ==> unchanged(this, slots)
    {
      if |data| == 0 || |data| > SLOT_SIZE { return Err; }
      var nextTail := (tail + 1) % SLOT_COUNT;
      if nextTail == head { return Busy; }
      assert tail == Place(head, Count());
      var slot := slots[tail];
      slot := slot.(data := Copied(slot.data, data));
      slot := slot.(len := |data|);
      slots[tail] := slot.(ready := true);
      assert Payload(slots[tail]) == data;
      tail := nextTail;
      s := Ok;
    }

    /** nos_shm_channel_drain: hands over everything, in order, until head meets tail;
        the result is the sequence of callback arguments. */
    method Drain() returns (delivered: seq<Bytes>)
      requires Valid()
      modifies this`head, slots
      ensures Valid() && delivered == old(Contents()) && Contents() == []
    {
      delivered := [];
      while head != tail
        invariant Valid() && delivered + Contents() == old(Contents())
        decreases Count()
      {
        var m := TakeOne();
        delivered := delivered + [m];
      }
    }

    /** One turn of the drain; the ready test cannot fail. */
    method TakeOne() returns (m: Bytes)
      requires Valid() && head != tail
      modifies this`head, slots
      ensures Valid() && old(Contents()) == [m] + Contents()
      ensures Count() == old(Count()) - 1
    {
      assert head == Place(head, 0);
      if !slots[head].ready {
        assert false;
      }
      ghost var h, n := head, Count();
      m := Payload(slots[head]);
      slots[head] := slots[head].(ready := false);
      head := (head + 1) % SLOT_COUNT;
      assert Count() == n - 1;
      forall k: nat | k < SLOT_COUNT
        ensures Place(head, k) == if k == SLOT_COUNT - 1 then h else Place(h, k + 1)
      {
      }
    }
  }
}
