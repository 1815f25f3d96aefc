/** The circular queues of the runtime: the message queue of a thread and the TX queue
    of a connection. One slot stays empty, so N slots hold at most N - 1 items. */
module RingQueue {
  import opened Common

  const MAX_QUEUE_SIZE: nat := 1024
  const TX_QUEUE_SIZE: nat := 1024

  // ----------------------------------------------------------------- filter

  function Not<T>(p: T -> bool): T -> bool {
    x => !p(x)
  }

  /** The items that satisfy p, in order. */
  function Keep<T>(s: seq<T>, p: T -> bool): (r: seq<T>)
    ensures |r| <= |s|
  {
    if s == [] then []
    else Keep(s[..|s| - 1], p) + (if p(s[|s| - 1]) then [s[|s| - 1]] else [])
  }

  /** The positions of those items. */
  function Positions<T>(s: seq<T>, p: T -> bool): (r: seq<nat>) {
    if s == [] then []
    else Positions(s[..|s| - 1], p) + (if p(s[|s| - 1]) then [|s| - 1] else [])
  }

  /** Keep is a stable filter: it reads off, left to right, exactly the positions
      where p holds. */
  lemma KeepIsStable<T>(s: seq<T>, p: T -> bool)
    ensures |Keep(s, p)| == |Positions(s, p)|
    ensures forall k :: 0 <= k < |Keep(s, p)| ==>
              Positions(s, p)[k] < |s| && Keep(s, p)[k] == s[Positions(s, p)[k]]
    ensures forall j, k :: 0 <= j < k < |Positions(s, p)| ==> Positions(s, p)[j] < Positions(s, p)[k]
    ensures forall i: nat | i in Positions(s, p) :: i < |s| && p(s[i])
    ensures forall i: nat | i < |s| && p(s[i]) :: i in Positions(s, p)
  {
    PositionsAre(s, p);
    KeepReadsPositions(s, p);
  }

  /** The positions are those where p holds, in order. */
  lemma {:induction false} PositionsAre<T>(s: seq<T>, p: T -> bool)
    ensures forall j, k :: 0 <= j < k < |Positions(s, p)| ==> Positions(s, p)[j] < Positions(s, p)[k]
    ensures forall i: nat | i in Positions(s, p) :: i < |s| && p(s[i])
    ensures forall i: nat | i < |s| && p(s[i]) :: i in Positions(s, p)
  {
    if s != [] {
      var t := s[..|s| - 1];
      PositionsAre(t, p);
      var q := Positions(t, p);
      assert forall k :: 0 <= k < |q| ==> q[k] in q;
      assert forall i: nat | i < |t| :: t[i] == s[i];
    }
  }

  lemma {:induction false} KeepReadsPositions<T>(s: seq<T>, p: T -> bool)
    ensures |Keep(s, p)| == |Positions(s, p)|
    ensures forall k :: 0 <= k < |Keep(s, p)| ==>
              Positions(s, p)[k] < |s| && Keep(s, p)[k] == s[Positions(s, p)[k]]
  {
    if s != [] {
      KeepReadsPositions(s[..|s| - 1], p);
    }
  }

  /** Every item is either kept or dropped, as often as it occurs. */
  lemma {:induction false} KeepPartitions<T>(s: seq<T>, p: T -> bool)
    ensures multiset(Keep(s, p)) + multiset(Keep(s, Not(p))) == multiset(s)
  {
    if s != [] {
      KeepPartitions(s[..|s| - 1], p);
      assert s == s[..|s| - 1] + [s[|s| - 1]];
    }
  }

  lemma KeepNone<T>(p: T -> bool)
    ensures Keep([], p) == []
  {
  }

  lemma KeepNext<T>(s: seq<T>, n: nat, p: T -> bool)
    requires n < |s|
    ensures Keep(s[..n + 1], p) == Keep(s[..n], p) + (if p(s[n]) then [s[n]] else [])
  {
    assert s[..n + 1][..n] == s[..n];
  }

  // ------------------------------------------------------------------ queue

  /** (i + 1) % n for an index below n. */
  function Advance(i: nat, n: nat): (r: nat)
    requires i < n
    ensures r == if i + 1 == n then 0 else i + 1
  {
    (i + 1) % n
  }

  class Queue<T(0)> {
    const slots: array<T>
    var head: nat
    var tail: nat

    ghost predicate Valid()
      reads this
    {
      head < slots.Length && tail < slots.Length
    }

    /** The items from head up to tail, around the wrap. */
    ghost function Contents(): (s: seq<T>)
      requires Valid()
      reads this, slots
    {
      if head <= tail then slots[head..tail] else slots[head..] + slots[..tail]
    }

    constructor (n: nat)
      requires n > 0
      ensures Valid() && Contents() == [] && slots.Length == n && fresh(slots)
    {
      slots := new T[n];
      head, tail := 0, 0;
    }

    /** ipc_queue_len. */
    method Len() returns (n: nat)
      requires Valid()
      ensures n == |Contents()| < slots.Length
    {
      if tail >= head { return tail - head; }
      n := slots.Length - head + tail;
    }

    method IsEmpty() returns (e: bool)
      requires Valid()
      ensures e == (Contents() == [])
    {
      e := head == tail;
    }

    /** The guarded enqueue of nos_transport_local_send and nos_ipc_send_enqueue. */
    method Push(x: T) returns (s: Status)
      requires Valid()
      modifies this`tail, slots
      ensures Valid()
      ensures s == if |old(Contents())| < slots.Length - 1 then Ok else Busy
      ensures s == Ok ==> Contents() == old(Contents()) + [x]
      ensures s != Ok ==> unchanged(this, slots)
    {
      hide Advance;
      var next := Advance(tail, slots.Length);
      if next == head { return Busy; }
      slots[tail] := x;
      tail := next;
      s := Ok;
    }

    method Peek() returns (x: T)
      requires Valid() && Contents() != []
      ensures x == Contents()[0]
    {
      x := slots[head];
    }

    method Pop() returns (x: T)
      requires Valid() && Contents() != []
      modifies this`head
      ensures Valid() && x == old(Contents())[0] && Contents() == old(Contents())[1..]
    {
      hide Advance;
      x := slots[head];
      head := Advance(head, slots.Length);
    }

    /** The copy back: the whole scratch array becomes the queue, starting at 0. */
    method Install(newQueue: array<T>, newTail: nat)
      requires Valid() && newQueue.Length == slots.Length && newTail < slots.Length && newQueue != slots
      modifies this, slots
      ensures Valid() && head == 0 && tail == newTail
      ensures Contents() == newQueue[..newTail]
    {
      forall i | 0 <= i < slots.Length { slots[i] := newQueue[i]; }
      head, tail := 0, newTail;
    }

    /** The drain of the queue into the scratch array. */
    method Sift(targets: T -> bool, newQueue: array<T>) returns (newTail: nat, released: seq<T>)
      requires Valid() && newQueue.Length == slots.Length && newQueue != slots
      modifies this`head, newQueue
      ensures Valid() && newTail < slots.Length
      ensures newQueue[..newTail] == Keep(old(Contents()), Not(targets))
      ensures released == Keep(old(Contents()), targets)
    {
      hide Advance, Keep;
      ghost var all := Contents();
      ghost var done: nat := 0;
      KeepNone(targets);
      KeepNone(Not(targets));
      assert all[..0] == [];
      newTail, released := 0, [];
      while head != tail
        invariant Valid() && newTail <= done <= |all| < slots.Length
        invariant Contents() == all[done..]
        invariant newQueue[..newTail] == Keep(all[..done], Not(targets))
        invariant released == Keep(all[..done], targets)
        decreases |all| - done
      {
        var x := Pop();
        assert x == all[done];
        KeepNext(all, done, targets);
        KeepNext(all, done, Not(targets));
        done := done + 1;
        if targets(x) {
          released := released + [x];
          continue;
        }
        newQueue[newTail] := x;
        newTail := Advance(newTail, slots.Length);
        assert newQueue[..newTail] == newQueue[..newTail - 1] + [x];
      }
      assert all[..done] == all;
    }

    /** nos_scheduler_drop_messages_for_provider: rebuild the queue without the
        targeted messages, which are released. When the scratch queue cannot be
        allocated nothing happens. */
    method Drop(targets: T -> bool, scratch: bool) returns (released: seq<T>)
      requires Valid()
      modifies this, slots
      ensures Valid()
      ensures !scratch ==> unchanged(this, slots) && released == []
      ensures scratch ==> Contents() == Keep(old(Contents()), Not(targets))
      ensures scratch ==> released == Keep(old(Contents()), targets)
      ensures scratch ==> head == 0 && tail == |Contents()|
    {
      if !scratch { return []; }
      var newQueue := new T[slots.Length];
      var newTail;
      newTail, released := Sift(targets, newQueue);
      Install(newQueue, newTail);
    }
  }
}
