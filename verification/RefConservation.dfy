/** Reference conservation: the count of every buffer equals the references its owners
    hold plus its occurrences in all message and TX queues. */
module RefConservation {
  import opened Common
  import opened RingQueue
  import opened BufferPool

  /** Every occurrence in every queue. */
  ghost function Held(qs: seq<seq<BufId>>): multiset<BufId> {
    if qs == [] then multiset{} else Held(qs[..|qs| - 1]) + multiset(qs[|qs| - 1])
  }

  lemma {:induction false} HeldUpdate(qs: seq<seq<BufId>>, i: nat, q: seq<BufId>)
    requires i < |qs|
    ensures Held(qs[i := q]) + multiset(qs[i]) == Held(qs) + multiset(q)
  {
    var n := |qs| - 1;
    if i < n {
      HeldUpdate(qs[..n], i, q);
      assert qs[i := q][..n] == qs[..n][i := q];
      var a, b, x := Held(qs[..n][i := q]), Held(qs[..n]), multiset(qs[n]);
      assert Held(qs[i := q]) == a + x && Held(qs) == b + x;
      assert a + multiset(qs[i]) == b + multiset(q);
      assert (a + x) + multiset(qs[i]) == (a + multiset(qs[i])) + x;
    } else {
      assert qs[i := q][..n] == qs[..n];
    }
  }

  lemma {:induction false} HeldZeroIff(qs: seq<seq<BufId>>, b: BufId)
    ensures Held(qs)[b] == 0 <==> forall q | q in qs :: b !in q
  {
    if qs != [] {
      var r, x := qs[..|qs| - 1], qs[|qs| - 1];
      HeldZeroIff(r, b);
      assert qs == r + [x];
      assert b in x <==> multiset(x)[b] > 0;
      assert forall q | q in qs :: q in r || q == x;
    }
  }

  /** h held before, k after one queue went from q to q minus the items of out. */
  lemma QueueLost<T>(h: multiset<T>, k: multiset<T>, before: multiset<T>, after: multiset<T>, out: multiset<T>)
    requires k + before == h + after && before == after + out
    ensures k + out == h
  {
    assert (k + out) + after == h + after;
    assert k + out == (k + out) + after - after == h + after - after == h;
  }

  lemma QueueGained<T>(h: multiset<T>, k: multiset<T>, before: multiset<T>, after: multiset<T>, x: T)
    requires k + before == h + after && after == before + multiset{x}
    ensures k == h + multiset{x}
  {
    assert k + before == (h + multiset{x}) + before;
    assert k == k + before - before == (h + multiset{x}) + before - before == h + multiset{x};
  }

  lemma OneMoreOwner<T>(owners: multiset<T>, held: multiset<T>, x: T)
    ensures (owners + multiset{x}) + held + multiset{} == (owners + held + multiset{}) + multiset{x}
  {
  }

  ghost predicate AllSeparate(queues: seq<Queue<BufId>>) {
    forall i, j :: 0 <= i < j < |queues| ==> queues[i] != queues[j] && queues[i].slots != queues[j].slots
  }

  lemma {:induction false} HeldEmpty(qs: seq<seq<BufId>>)
    requires forall i :: 0 <= i < |qs| ==> qs[i] == []
    ensures Held(qs) == multiset{}
  {
    if qs != [] {
      HeldEmpty(qs[..|qs| - 1]);
    }
  }

  ghost function QueueObjects(queues: seq<Queue<BufId>>): (r: set<object>)
    ensures forall q | q in queues :: q in r && q.slots in r
    ensures forall i :: 0 <= i < |queues| ==> queues[i] in r && queues[i].slots in r
  {
    var r := (set q | q in queues :: q as object) + (set q | q in queues :: q.slots as object);
    assert forall q | q in queues :: q in r && q.slots in r;
    r
  }

  /** The pool, the queues buffers travel through, and who owns what besides. */
  class Transport {
    const pool: Pool
    const queues: seq<Queue<BufId>>
    ghost var owners: multiset<BufId>

    ghost predicate Separate() {
      && this !in pool.Repr() && this !in QueueRepr() && QueueRepr() !! pool.Repr()
      && AllSeparate(queues)
    }

    ghost function QueueRepr(): set<object> {
      QueueObjects(queues)
    }

    ghost predicate QueuesValid()
      reads QueueRepr()
    {
      forall i :: 0 <= i < |queues| ==> queues[i].Valid()
    }

    ghost function Contents(): (r: seq<seq<BufId>>)
      requires QueuesValid()
      reads QueueRepr()
      ensures |r| == |queues| && forall i :: 0 <= i < |r| ==> r[i] == queues[i].Contents()
    {
      seq(|queues|, i requires 0 <= i < |queues| && QueuesValid() reads QueueRepr() => queues[i].Contents())
    }

    /** Owner references plus queue occurrences. */
    ghost function Total(): multiset<BufId>
      requires QueuesValid()
      reads this, QueueRepr()
    {
      owners + Held(Contents())
    }

    /** Counts equal totals, up to a surplus of references about to be given back. */
    ghost predicate Balanced(surplus: multiset<BufId>)
      reads this, QueueRepr(), pool.Repr()
    {
      Separate() && QueuesValid() && Counts(pool, Total() + surplus)
    }

    ghost predicate Valid()
      reads this, QueueRepr(), pool.Repr()
    {
      Balanced(multiset{})
    }

    /** The count is the total, and a buffer is on its bin's free stack exactly when
        nobody refers to it. */
    lemma FreeIffNoReference(b: BufId)
      requires Valid() && pool.Has(b)
      ensures pool.RefOf(b) == owners[b] + Held(Contents())[b]
      ensures pool.IsFree(b) <==> b !in owners && forall q | q in queues :: b !in q.Contents()
    {
      hide Bin.Valid, Queue.Contents, Pool.IsFree;
      pool.FreeIffUnreferenced(b);
      HeldZeroIff(Contents(), b);
      assert (Total() + multiset{})[b] == owners[b] + Held(Contents())[b];
      forall q | q in queues ensures q.Contents() in Contents() {
        var i :| 0 <= i < |queues| && queues[i] == q;
        assert Contents()[i] == q.Contents();
      }
    }

    /** Changing no queue. */
    twostate lemma NoQueue()
      requires old(QueuesValid()) && unchanged(QueueRepr())
      ensures QueuesValid() && Contents() == old(Contents())
    {
      forall i | 0 <= i < |queues| ensures queues[i].Valid() && queues[i].Contents() == old(queues[i].Contents()) {
        assert unchanged(queues[i], queues[i].slots);
      }
    }

    /** Changing queue i alone. */
    twostate lemma OneQueue(i: nat)
      requires i < |queues| && Separate() && old(QueuesValid()) && queues[i].Valid()
      requires forall j :: 0 <= j < |queues| && j != i ==> unchanged(queues[j], queues[j].slots)
      ensures QueuesValid()
      ensures Contents() == old(Contents())[i := queues[i].Contents()]
      ensures Held(Contents()) + multiset(old(queues[i].Contents())) ==
              old(Held(Contents())) + multiset(queues[i].Contents())
    {
      HeldUpdate(old(Contents()), i, queues[i].Contents());
      assert Contents() == old(Contents())[i := queues[i].Contents()];
    }

    /** A started node: every buffer free, every queue empty. */
    constructor (pool: Pool, queues: seq<Queue<BufId>>)
      requires Counts(pool, multiset{})
      requires forall q | q in queues :: q.Valid() && q.Contents() == []
      requires QueueObjects(queues) !! pool.Repr()
      requires AllSeparate(queues)
      ensures Valid() && this.pool == pool && this.queues == queues && owners == multiset{}
    {
      this.pool, this.queues, this.owners := pool, queues, multiset{};
      new;
      hide Counts, Queue.Contents, AllSeparate;
      assert Separate();
      StartsBalanced();
    }

    lemma StartsBalanced()
      requires Separate() && Counts(pool, multiset{}) && owners == multiset{}
      requires forall q | q in queues :: q.Valid() && q.Contents() == []
      ensures Valid()
    {
      hide Counts, Queue.Contents, Contents, Held, Separate;
      forall i | 0 <= i < |queues| ensures queues[i].Valid() && queues[i].Contents() == [] {
        assert queues[i] in queues;
      }
      HeldEmpty(Contents());
      assert Total() + multiset{} == multiset{};
    }

    /** One more owner for a reference that is counted already. */
    ghost method AddOwner(b: BufId, c: multiset<BufId>)
      requires Separate() && QueuesValid() && c == Total() + multiset{} && Counts(pool, c + multiset{b})
      modifies this`owners
      ensures Valid() && owners == old(owners) + multiset{b}
    {
      hide Counts, Held, Contents, Queue.Contents, AllSeparate;
      OneMoreOwner(owners, Held(Contents()), b);
      owners := owners + multiset{b};
      NoQueue();
    }

    /** A component allocates: it becomes the one owner. */
    method Alloc(size: nat, headroom: nat) returns (r: Option<BufId>)
      requires Valid()
      modifies this`owners, pool.Repr()
      ensures Valid()
      ensures r.None? ==> owners == old(owners) && unchanged(pool.Repr())
      ensures r.Some? ==> old(Total())[r.value] == 0 && owners == old(owners) + multiset{r.value}
    {
      hide Counts, Held, Contents, Queue.Contents, AllSeparate;
      ghost var c := Total() + multiset{};
      r := CountedAlloc(pool, size, headroom, c);
      NoQueue();
      if r.Some? {
        AddOwner(r.value, c);
      }
    }

    method Retain(b: BufId)
      requires Valid() && b in owners
      modifies this`owners, pool.Repr()
      ensures Valid() && owners == old(owners) + multiset{b}
    {
      hide Counts, Held, Contents;
      ghost var c := Total() + multiset{};
      CountedRetain(pool, b, c);
      NoQueue();
      AddOwner(b, c);
    }

    /** Giving back one reference that is still counted. */
    method GiveBack(b: BufId, ghost rest: multiset<BufId>)
      requires Balanced(multiset{b} + rest)
      modifies pool.Repr()
      ensures Balanced(rest)
    {
      hide Counts, Held, Contents;
      ghost var c := Total() + (multiset{b} + rest);
      CountedRelease(pool, b, c);
      NoQueue();
      assert c - multiset{b} == Total() + rest;
    }

    method Release(b: BufId)
      requires Valid() && b in owners
      modifies this`owners, pool.Repr()
      ensures Valid() && owners == old(owners) - multiset{b}
    {
      hide Counts, Held, Contents;
      ghost var c := Total() + multiset{};
      owners := owners - multiset{b};
      NoQueue();
      assert Total() + (multiset{b} + multiset{}) == c;
      GiveBack(b, multiset{});
    }

    /** Queue i gained b at its end, the others are as they were. */
    twostate predicate Appended(i: nat, b: BufId)
      requires i < |queues| && old(QueuesValid()) && QueuesValid()
      reads QueueRepr()
    {
      Contents() == old(Contents())[i := old(queues[i].Contents()) + [b]]
    }

    /** nos_transport_local_send, and the enqueue half of nos_ipc_send_enqueue and
        nos_ipc_send_reply: retain on success, change nothing when the queue is full. */
    method Send(b: BufId, i: nat) returns (s: Status)
      requires Valid() && b in owners && i < |queues|
      modifies pool.Repr(), queues[i], queues[i].slots
      ensures Valid() && owners == old(owners)
      ensures s == if |old(queues[i].Contents())| < queues[i].slots.Length - 1 then Ok else Busy
      ensures s == Ok ==> Appended(i, b)
      ensures s == Busy ==> unchanged(pool.Repr(), queues[i], queues[i].slots)
    {
      hide Counts, Held, Queue.Contents, Contents;
      ghost var c := Total() + multiset{};
      s := queues[i].Push(b);
      if s == Ok {
        OneQueue(i);
        ghost var q := old(queues[i].Contents());
        QueueGained(old(Held(Contents())), Held(Contents()), multiset(q), multiset(q + [b]), b);
        label sent:
        CountedRetain(pool, b, c);
        NoQueue@sent();
        assert Total() + multiset{} == c + multiset{b};
      }
    }

    /** Taking the head of a queue: the queue's reference passes to the taker. */
    method Take(i: nat) returns (b: BufId)
      requires Valid() && i < |queues| && queues[i].Contents() != []
      modifies this`owners, queues[i]
      ensures Valid() && b == old(queues[i].Contents())[0]
      ensures owners == old(owners) + multiset{b}
      ensures Contents() == old(Contents())[i := old(queues[i].Contents())[1..]]
    {
      hide Counts, Held, Queue.Contents, Contents;
      ghost var c := Total() + multiset{};
      b := queues[i].Pop();
      OneQueue(i);
      ghost var q := queues[i].Contents();
      assert old(queues[i].Contents()) == [b] + q;
      QueueLost(old(Held(Contents())), Held(Contents()), multiset([b] + q), multiset(q), multiset{b});
      label taken:
      owners := owners + multiset{b};
      NoQueue@taken();
      assert Total() + multiset{} == c;
    }

    /** One turn of process_thread_messages or of the TX loop: dispatch or transmit the
        head, then drop the queue's reference. */
    method Consume(i: nat) returns (b: BufId)
      requires Valid() && i < |queues| && queues[i].Contents() != []
      modifies this`owners, pool.Repr(), queues[i]
      ensures Valid() && b == old(queues[i].Contents())[0] && owners == old(owners)
      ensures Contents() == old(Contents())[i := old(queues[i].Contents())[1..]]
    {
      hide Counts, Held, Queue.Contents, Contents;
      b := Take(i);
      Release(b);
    }

    /** nos_scheduler_drop_messages_for_provider: every dropped message is released
        once, so the balance is kept. */
    method Drop(i: nat, targets: BufId -> bool, scratch: bool)
      requires Valid() && i < |queues|
      modifies pool.Repr(), queues[i], queues[i].slots
      ensures Valid() && owners == old(owners)
      ensures Contents() == old(Contents())[i := if scratch then Keep(old(queues[i].Contents()), Not(targets))
                                                 else old(queues[i].Contents())]
    {
      hide Counts, Held, Keep, Queue.Contents, Contents;
      var released := DropMessages(i, targets, scratch);
      ReleaseAll(released);
    }

    method DropMessages(i: nat, targets: BufId -> bool, scratch: bool) returns (released: seq<BufId>)
      requires Valid() && i < |queues|
      modifies queues[i], queues[i].slots
      ensures Balanced(multiset(released))
      ensures Contents() == old(Contents())[i := if scratch then Keep(old(queues[i].Contents()), Not(targets))
                                                 else old(queues[i].Contents())]
    {
      hide Counts, Held, Queue.Contents, Keep, Contents;
      ghost var c := Total() + multiset{};
      released := queues[i].Drop(targets, scratch);
      OneQueue(i);
      ghost var before, after := old(queues[i].Contents()), queues[i].Contents();
      KeepPartitions(before, targets);
      QueueLost(old(Held(Contents())), Held(Contents()), multiset(before), multiset(after), multiset(released));
      assert Total() + multiset(released) == c;
    }

    method ReleaseAll(released: seq<BufId>)
      requires Balanced(multiset(released))
      modifies pool.Repr()
      ensures Valid()
    {
      hide Balanced, Counts, Held, Contents, Queue.Contents, Separate, QueuesValid;
      assert released[0..] == released && released[|released|..] == [];
      for k := 0 to |released|
        invariant Balanced(multiset(released[k..]))
      {
        assert released[k..] == [released[k]] + released[k + 1..];
        assert multiset(released[k..]) == multiset{released[k]} + multiset(released[k + 1..]);
        GiveBack(released[k], multiset(released[k + 1..]));
      }
    }
  }
}
