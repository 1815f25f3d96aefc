/** Whether the messages in the shared-memory ring are announced: the NOTIFY that goes with
    each is sent without looking at the result, and thrown away by a receiver that has no
    buffer for it or no ring attached. */
module ShmNotify {
  import opened ShmRing

  /** The producer is between a tail store and the NOTIFY for it. */
  predicate Announcing(p: Producer) {
    p.PPackets? || p.PBytes? || p.PNotify?
  }

  /** NOTIFYs in the socket and about to be sent. */
  function Announcements(s: State): nat {
    s.notes + if Announcing(s.producer) then 1 else 0
  }

  /** While the ring holds messages a NOTIFY is in the socket or about to be sent, or the
      consumer is in a drain. */
  ghost predicate Announced(s: State) {
    s.taken < |s.written| ==> Announcements(s) > 0 || s.consumer != CIdle
  }

  /** A NOTIFY fails to be sent, or is received and thrown away. */
  ghost predicate Loses(s: State, s': State) {
    || (s.producer == PNotify && s' == s.(producer := PIdle))
    || (s.consumer == CIdle && s.notes > 0 && s' == s.(notes := s.notes - 1))
  }

  /** The step loses the only announcement of a ring that holds messages, with no drain
      under way. */
  ghost predicate Strands(s: State, s': State) {
    Loses(s, s') && s.taken < |s.written| && s.consumer == CIdle && Announcements(s) == 1
  }

  lemma ProducerAnnounces(s: State, s': State)
    requires Inv(s) && ProducerStep(s, s')
    ensures Announced(s) ==> (Announced(s') <==> !Strands(s, s'))
    ensures !Announced(s) ==> !Strands(s, s') && (Announced(s') <==> s.producer.PPublish?)
    ensures !Announced(s) ==> s'.delivered == s.delivered
  {
    hide Ix, Slots, ProducerAt, ConsumerAt, Histories, TxCounters, RxCounters;
  }

  lemma ConsumerAnnounces(s: State, s': State)
    requires Inv(s) && ConsumerStep(s, s')
    ensures Announced(s) && (Announced(s') <==> !Strands(s, s'))
  {
    if s.consumer.CTail? { EmptyIff(s); }
    if s.consumer.CReady? { InHand(s); }
    hide Ix, Slots, ProducerAt, Payload, Histories, TxCounters, RxCounters;
  }

  /** A message becomes stranded exactly by such a step, and in no other way; there it
      stays, undelivered, exactly until the producer publishes another. */
  lemma StrandsIff(s: State, s': State)
    requires Inv(s) && Next(s, s')
    ensures Announced(s) ==> (Announced(s') <==> !Strands(s, s'))
    ensures !Announced(s) ==> s'.delivered == s.delivered && (Announced(s') <==> s.producer.PPublish?)
  {
    assert |s.slots| == SLOT_COUNT;
    hide ProducerStep, ConsumerStep, Inv;
    if ProducerStep(s, s') { ProducerAnnounces(s, s'); } else { ConsumerAnnounces(s, s'); }
  }

  ghost predicate Strandless(r: seq<State>) {
    forall i :: 0 <= i < |r| - 1 ==> !Strands(r[i], r[i + 1])
  }

  lemma RunPrefix(r: seq<State>, n: nat)
    requires Run(r) && 0 < n <= |r|
    ensures Run(r[..n])
  {
    hide Next;
  }

  lemma RunInvAt(r: seq<State>, i: nat)
    requires Run(r) && i < |r|
    ensures Inv(r[i])
  {
    RunPrefix(r, i + 1);
    RunInv(r[..i + 1]);
    hide Inv, Run;
  }

  lemma {:induction false} StrandlessAnnounced(r: seq<State>, i: nat)
    requires Run(r) && Strandless(r) && i < |r|
    ensures Announced(r[i])
  {
    hide Inv, Strands, Announced, Run, Next, Init;
    if i == 0 {
      StartsAnnounced(r);
    } else {
      StrandlessAnnounced(r, i - 1);
      RunStep(r, i - 1);
      StrandsIff(r[i - 1], r[i]);
    }
  }

  lemma StartsAnnounced(r: seq<State>)
    requires Run(r)
    ensures Announced(r[0])
  {
  }

  lemma RunStep(r: seq<State>, i: nat)
    requires Run(r) && i < |r| - 1
    ensures Inv(r[i]) && |r[i].slots| == SLOT_COUNT && Next(r[i], r[i + 1])
  {
    RunInvAt(r, i);
    hide Inv, Init, Next;
  }

  /** Over a whole run: messages in the ring are announced at every moment if and only if
      no step loses the only announcement of a ring nobody is draining. */
  lemma AnnouncedIff(r: seq<State>)
    requires Run(r)
    ensures (forall i :: 0 <= i < |r| ==> Announced(r[i])) <==> Strandless(r)
  {
    if Strandless(r) {
      forall i | 0 <= i < |r| ensures Announced(r[i]) { StrandlessAnnounced(r, i); }
    }
    forall i | 0 <= i < |r| - 1 && Strands(r[i], r[i + 1]) ensures !Announced(r[i + 1]) {
      RunStep(r, i);
      hide Run, Next, Inv;
      StrandsIff(r[i], r[i + 1]);
    }
  }

  /** No NOTIFY is lost in the run. */
  ghost predicate NoLoss(r: seq<State>) {
    forall i :: 0 <= i < |r| - 1 ==> !Loses(r[i], r[i + 1])
  }

  /** No stranded message: in a run without a lost NOTIFY, while the ring holds messages a
      NOTIFY is in the socket, or the producer is between its tail store and its NOTIFY, or
      the consumer is in a drain, which it only leaves after reading the tail of an empty
      ring. */
  lemma NoStrandedMessage(r: seq<State>)
    requires Run(r) && NoLoss(r)
    ensures var s := r[|r| - 1];
            s.taken < |s.written| ==> s.notes > 0 || Announcing(s.producer) || s.consumer != CIdle
    ensures var s := r[|r| - 1]; s.consumer.CTail? ==> (s.consumer.h == s.tail <==> s.taken == |s.written|)
  {
    StrandlessAnnounced(r, |r| - 1);
    RunInv(r);
    EmptyIff(r[|r| - 1]);
  }

  // ------------------------------------------------------- runs that strand

  lemma Extend(r: seq<State>, s': State) returns (q: seq<State>)
    requires Run(r) && Next(r[|r| - 1], s') && |s'.slots| == SLOT_COUNT
    ensures q == r + [s'] && Run(q)
  {
    q := r + [s'];
    forall i | 0 <= i < |q| - 1 ensures Next(q[i], q[i + 1]) {
      if i < |r| - 1 { assert Next(r[i], r[i + 1]); }
    }
  }

  lemma Produces(r: seq<State>, s': State) returns (q: seq<State>)
    requires Run(r) && ProducerStep(r[|r| - 1], s') && |s'.slots| == SLOT_COUNT
    ensures q == r + [s'] && Run(q)
  {
    q := Extend(r, s');
  }

  /** The first message is copied into its slot. */
  lemma CopiesFirst(start: State, m: Bytes) returns (r: seq<State>)
    requires Init(start) && 0 < |m| <= SLOT_SIZE
    ensures Run(r) && r[0] == start
    ensures var s := r[|r| - 1];
            s.producer == PLen(m, 0) && |s.slots| == SLOT_COUNT && s == start.(slots := s.slots, producer := s.producer)
  {
    r := [start];
    hide Run, Total, Inv;
    r := Produces(r, start.(producer := PHead(m)));
    r := Produces(r, start.(producer := PTail(m, 0, 0)));
    r := Produces(r, start.(producer := PCopy(m, 0)));
    var slot := start.slots[0].(data := Copied(start.slots[0].data, m));
    r := Produces(r, Store(start, 0, slot).(producer := PLen(m, 0)));
  }

  /** The first message is in the ring and its NOTIFY about to be sent. */
  lemma WritesFirst(start: State, m: Bytes) returns (r: seq<State>)
    requires Init(start) && 0 < |m| <= SLOT_SIZE
    ensures Run(r) && r[0] == start
    ensures var s := r[|r| - 1];
            && s.producer == PNotify && s.consumer == CIdle && s.notes == 0
            && s.written == [m] && s.delivered == [] && s.taken == 0 && |s.slots| == SLOT_COUNT
  {
    r := CopiesFirst(start, m);
    hide Run, Total, Inv;
    var a := r[|r| - 1];
    var b := Store(a, 0, a.slots[0].(len := |m|)).(producer := PReady(m, 0));
    r := Produces(r, b);
    var c := Store(b, 0, b.slots[0].(ready := true)).(producer := PPublish(m, 0));
    r := Produces(r, c);
    var d := c.(tail := 1, written := [m], producer := PPackets(m));
    r := Produces(r, d);
    r := Produces(r, d.(txPackets := 1, producer := PBytes(m)));
    r := Produces(r, d.(txPackets := 1, txBytes := |m|, producer := PNotify));
  }

  /** A message that nothing announces, with both sides idle. */
  ghost predicate Stranded(s: State, m: Bytes) {
    s.written == [m] && s.delivered == [] && s.taken == 0 &&
    s.producer == PIdle && s.consumer == CIdle && s.notes == 0
  }

  /** The NOTIFY fails to be sent. */
  lemma UnsentNotifyStrands(start: State, m: Bytes) returns (r: seq<State>)
    requires Init(start) && 0 < |m| <= SLOT_SIZE
    ensures Run(r) && r[0] == start && Stranded(r[|r| - 1], m) && !Announced(r[|r| - 1])
  {
    r := WritesFirst(start, m);
    r := Produces(r, r[|r| - 1].(producer := PIdle));
  }

  /** The NOTIFY is sent and received, and thrown away. */
  lemma DiscardedNotifyStrands(start: State, m: Bytes) returns (r: seq<State>)
    requires Init(start) && 0 < |m| <= SLOT_SIZE
    ensures Run(r) && r[0] == start && Stranded(r[|r| - 1], m) && !Announced(r[|r| - 1])
  {
    r := WritesFirst(start, m);
    r := Produces(r, r[|r| - 1].(producer := PIdle, notes := 1));
    r := Extend(r, r[|r| - 1].(notes := 0));
  }
}
