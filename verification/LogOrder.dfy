/** The log ring with a single logging thread: without drops, lines come out in call order
    and the consumer leaves nothing behind. One drop is enough to lose both. */
module LogOrder {
  import opened LogRing

  ghost predicate NoDrops(s: State) {
    |s.producers| == 1 && s.dropped == 0 && !s.producers[0].PDrop?
  }

  /** How many messages are published while nothing was dropped. */
  function Published(s: State): int
    requires |s.producers| == 1
  {
    if InCall(s.producers[0]) then s.writeIdx - 1 else s.writeIdx
  }

  ghost predicate Ordered(s: State)
    requires |s.producers| == 1
  {
    && (forall k :: 0 <= k < |s.printed| ==> s.printed[k].ticket == k)
    && (forall t: nat :: t in s.accepted <==> t < Published(s))
    && (InCall(s.producers[0]) ==> s.producers[0].ticket == s.writeIdx - 1)
    && |s.printed| == s.readIdx + if s.consumer.CFree? || s.consumer.CAdvance? then 1 else 0
  }

  lemma DropsStay(s: State, s': State)
    requires Next(s, s') && NoDrops(s')
    ensures NoDrops(s)
  {
    hide ProducerStep, ConsumerStep;
    if ConsumerStep(s, s') {
      ConsumerDrops(s, s');
    } else if i: nat :| i < |s.producers| && ProducerStep(s, s', i) {
      ProducerDrops(s, s', i);
    }
  }

  lemma ConsumerDrops(s: State, s': State)
    requires |s.slots| == N && ConsumerStep(s, s')
    ensures s'.producers == s.producers && s'.dropped == s.dropped
  {
  }

  lemma ProducerDrops(s: State, s': State, i: nat)
    requires |s.slots| == N && i < |s.producers| && ProducerStep(s, s', i)
    ensures |s'.producers| == |s.producers| && s'.dropped == s.dropped + if s.producers[i].PDrop? then 1 else 0
  {
  }

  lemma PrintedTickets(s: State)
    requires |s.producers| == 1 && Ordered(s)
    ensures forall t: nat :: t in Tickets(s.printed) <==> t < |s.printed|
  {
    forall t: nat | t < |s.printed| ensures t in Tickets(s.printed) {
      assert s.printed[t] in s.printed;
    }
  }

  /** Without drops, a ready slot at the read index holds the next message in call order;
      and if there is a next message, that slot is ready. */
  lemma NextInLine(s: State)
    requires Inv(s) && NoDrops(s) && Ordered(s) && !s.consumer.CFree? && !s.consumer.CAdvance?
    ensures s.readIdx == |s.printed| <= Published(s)
    ensures s.slots[Ix(s.readIdx)].ready == READY <==> s.readIdx < Published(s)
    ensures s.readIdx < Published(s) ==> s.slots[Ix(s.readIdx)].owner == s.readIdx
  {
    PrintedTickets(s);
    var x := Ix(s.readIdx);
    assert SlotOk(s, x);
    if |s.printed| > 0 { assert s.printed[|s.printed| - 1].ticket in s.accepted; }
    if s.slots[x].ready == READY {
      // its owner is not printed, so it is not before the read index
      var o := s.slots[x].owner;
      assert o >= s.readIdx && o < Published(s);
    }
    hide Tickets;
    assert Kept(s);
  }

  lemma StepOrdered(s: State, s': State)
    requires Inv(s) && Next(s, s') && NoDrops(s') && NoDrops(s) && Ordered(s)
    ensures Ordered(s')
  {
    hide Inv, Ordered;
    assert Shape(s) by { InvHasShape(s); }
    if ConsumerStep(s, s') {
      if s.consumer.CRead? { InvHasReader(s); NextInLine(s); }
      ConsumerOrdered(s, s');
    } else if s' == s.(keep := false) {
      SameOrder(s, s');
    } else {
      assert ProducerStep(s, s', 0);
      ProducerOrdered(s, s');
    }
  }

  lemma InvHasShape(s: State)
    requires Inv(s)
    ensures Shape(s)
  {
  }

  lemma InvHasReader(s: State)
    requires Inv(s) && s.consumer.CRead?
    ensures |s.slots| == N && s.slots[Ix(s.readIdx)].ready == READY
  {
  }

  lemma SameOrder(s: State, s': State)
    requires |s.producers| == 1 && Ordered(s) && s' == s.(keep := false)
    ensures Ordered(s')
  {
  }

  lemma ConsumerOrdered(s: State, s': State)
    requires Shape(s) && |s.producers| == 1 && Ordered(s) && ConsumerStep(s, s')
    requires s.consumer.CRead? ==> s.slots[Ix(s.readIdx)].owner == s.readIdx
    ensures Ordered(s')
  {
  }

  lemma ProducerOrdered(s: State, s': State)
    requires |s.slots| == N && NoDrops(s) && NoDrops(s') && Ordered(s) && ProducerStep(s, s', 0)
    ensures Ordered(s')
  {
  }

  /** The k-th line printed is the message of the k-th call. */
  lemma {:induction false} PrintsInCallOrder(r: seq<State>)
    requires Run(r) && NoDrops(r[|r| - 1])
    ensures var s := r[|r| - 1];
            && Ordered(s) && |s.printed| <= s.writeIdx
            && forall k :: 0 <= k < |s.printed| ==> k in s.accepted && s.printed[k] == Line(k, s.accepted[k])
  {
    hide Inv, Next, Init, Ordered;
    var s := r[|r| - 1];
    AlwaysInv(r);
    if |r| == 1 {
      StartOrdered(s);
    } else {
      var q := r[..|r| - 1];
      assert Next(q[|q| - 1], s);
      DropsStay(q[|q| - 1], s);
      PrintsInCallOrder(q);
      AlwaysInv(q);
      StepOrdered(q[|q| - 1], s);
    }
    InOrder(s);
  }

  lemma StartOrdered(s: State)
    requires Init(s) && |s.producers| == 1
    ensures Ordered(s)
  {
  }

  lemma InOrder(s: State)
    requires Inv(s) && NoDrops(s) && Ordered(s)
    ensures |s.printed| <= s.writeIdx
    ensures forall k :: 0 <= k < |s.printed| ==> k in s.accepted && s.printed[k] == Line(k, s.accepted[k])
  {
    assert PrintedOk(s);
    hide Inv;
    if |s.printed| > 0 { assert s.printed[|s.printed| - 1].ticket in s.accepted; }
  }

  /** When the consumer exits, every message published by then has been printed. */
  lemma ExitsDrained(r: seq<State>, s': State)
    requires Run(r) && NoDrops(r[|r| - 1])
    requires |r[|r| - 1].slots| == N && ConsumerStep(r[|r| - 1], s') && s'.consumer == CExited
    ensures |s'.printed| == |s'.accepted| && forall t :: t in s'.accepted ==> t in Tickets(s'.printed)
  {
    var s := r[|r| - 1];
    hide Inv, Run, Ordered, Tickets, NoDrops, ConsumerStep;
    PrintsInCallOrder(r);
    AlwaysInv(r);
    ExitState(s, s');
  }

  lemma ExitState(s: State, s': State)
    requires |s.slots| == N && Inv(s) && NoDrops(s) && Ordered(s) && ConsumerStep(s, s') && s'.consumer == CExited
    ensures |s'.printed| == |s'.accepted| && forall t :: t in s'.accepted ==> t in Tickets(s'.printed)
  {
    hide Inv, Ordered, Tickets;
    NextInLine(s);
    AllPrinted(s);
  }

  lemma AllPrinted(s: State)
    requires |s.producers| == 1 && Ordered(s) && |s.printed| == Published(s)
    ensures |s.printed| == |s.accepted| && forall t :: t in s.accepted ==> t in Tickets(s.printed)
  {
    PrintedTickets(s);
    hide Tickets;
    FirstKeys(s.accepted, |s.printed|);
  }

  lemma {:induction false} FirstKeys(a: map<nat, Msg>, n: nat)
    requires forall t: nat :: t in a <==> t < n
    ensures |a| == n
  {
    assert |a.Keys| == |a|;
    if n == 0 {
      assert a.Keys == {};
    } else {
      var b := a - {n - 1};
      FirstKeys(b, n - 1);
      assert a.Keys == b.Keys + {n - 1};
      assert |b.Keys| == |b|;
    }
  }
}
