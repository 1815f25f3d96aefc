/** The lock-free ring in shared memory, one producer and one consumer, with every atomic
    load and store of nos_shm_channel_write and nos_shm_channel_drain as a step of its
    own, together with the NOTIFY messages that pair with it on the socket. A NOTIFY may
    fail to be sent, and one that arrives may be thrown away. */
module ShmRing {

  const SLOT_COUNT: nat := 256
  const SLOT_SIZE: nat := 8192

  type Bytes = seq<bv8>

  datatype Slot = Slot(ready: bool, len: nat, data: Bytes)

  /** The producer: about to load head, to load tail, to copy, to store len, ready and
      tail, to count, to send the NOTIFY. The full test happens with the tail load.
      seen is the number of slots the consumer had given back at the head load. */
  datatype Producer =
    | PIdle | PHead(m: Bytes) | PTail(m: Bytes, h: nat, seen: nat)
    | PCopy(m: Bytes, t: nat) | PLen(m: Bytes, t: nat) | PReady(m: Bytes, t: nat) | PPublish(m: Bytes, t: nat)
    | PPackets(m: Bytes) | PBytes(m: Bytes) | PNotify

  /** The consumer: about to load head, tail, ready, in the callback, about to clear
      ready, to store head, to count packets, to read slot->len again for the bytes. */
  datatype Consumer =
    | CIdle | CHead | CTail(h: nat) | CReady(h: nat) | CDeliver(h: nat)
    | CClear(h: nat) | CAdvance(h: nat) | CPackets(h: nat) | CBytes(h: nat)

  /** written and delivered are the histories; taken counts the head stores; broke says
      whether the drain ever left its loop on an unready slot. */
  datatype State = State(
    head: nat, tail: nat, slots: seq<Slot>, producer: Producer, consumer: Consumer,
    txPackets: nat, txBytes: nat, rxPackets: nat, rxBytes: nat, notes: nat,
    written: seq<Bytes>, delivered: seq<Bytes>, taken: nat, broke: bool)

  /** The slot an absolute position falls into. */
  function Ix(k: nat): (i: nat)
    ensures i < SLOT_COUNT
  {
    k % SLOT_COUNT
  }

  lemma IxDiffers(a: nat, b: nat)
    requires a < b < a + SLOT_COUNT
    ensures Ix(a) != Ix(b)
  {
  }

  lemma IxNext(a: nat)
    ensures Ix(a + 1) == (Ix(a) + 1) % SLOT_COUNT
    ensures Ix(a + SLOT_COUNT) == Ix(a)
  {
  }

  ghost predicate Init(s: State) {
    && s.head == 0 && s.tail == 0 && |s.slots| == SLOT_COUNT
    && (forall i :: 0 <= i < SLOT_COUNT ==> s.slots[i].len == 0 && !s.slots[i].ready && |s.slots[i].data| == SLOT_SIZE)
    && s.producer == PIdle && s.consumer == CIdle
    && s.txPackets == s.txBytes == s.rxPackets == s.rxBytes == s.notes == s.taken == 0
    && s.written == [] && s.delivered == [] && !s.broke
  }

  // ------------------------------------------------------------------ steps

  function Store(s: State, i: nat, slot: Slot): State
    requires i < |s.slots|
  {
    s.(slots := s.slots[i := slot])
  }

  /** memcpy of m over the start of the slot's data. */
  function Copied(data: Bytes, m: Bytes): Bytes
    requires |m| <= |data|
  {
    m + data[|m|..]
  }

  ghost predicate ProducerStep(s: State, s': State)
    requires |s.slots| == SLOT_COUNT
  {
    match s.producer
    case PIdle =>
      // a call with a length out of range returns an error and does nothing
      exists m: Bytes :: 0 < |m| <= SLOT_SIZE && s' == s.(producer := PHead(m))
    case PHead(m) => s' == s.(producer := PTail(m, s.head, s.taken))
    case PTail(m, h, _) =>
      s' == s.(producer := if (s.tail + 1) % SLOT_COUNT == h then PIdle else PCopy(m, s.tail))
    case PCopy(m, t) =>
      // bytes may land in any order; when memcpy returns they are all there
      && t < SLOT_COUNT
      && ((exists junk: Bytes :: |junk| == SLOT_SIZE && s' == Store(s, t, s.slots[t].(data := junk)))
          || (|m| <= |s.slots[t].data| &&
              s' == Store(s, t, s.slots[t].(data := Copied(s.slots[t].data, m))).(producer := PLen(m, t))))
    case PLen(m, t) =>
      t < SLOT_COUNT && s' == Store(s, t, s.slots[t].(len := |m|)).(producer := PReady(m, t))
    case PReady(m, t) =>
      t < SLOT_COUNT && s' == Store(s, t, s.slots[t].(ready := true)).(producer := PPublish(m, t))
    case PPublish(m, t) =>
      s' == s.(tail := (t + 1) % SLOT_COUNT, written := s.written + [m], producer := PPackets(m))
    case PPackets(m) => s' == s.(txPackets := s.txPackets + 1, producer := PBytes(m))
    case PBytes(m) => s' == s.(txBytes := s.txBytes + |m|, producer := PNotify)
    case PNotify =>
      // the result of the send is not looked at
      s' == s.(notes := s.notes + 1, producer := PIdle) || s' == s.(producer := PIdle)
  }

  /** What the callback is handed. */
  function Payload(slot: Slot): Bytes {
    if slot.len <= |slot.data| then slot.data[..slot.len] else slot.data
  }

  ghost predicate ConsumerStep(s: State, s': State)
    requires |s.slots| == SLOT_COUNT
  {
    match s.consumer
    case CIdle =>
      // a NOTIFY is received; without a buffer for it, or a ring to drain, it is discarded
      s.notes > 0 && (s' == s.(notes := s.notes - 1, consumer := CHead) || s' == s.(notes := s.notes - 1))
    case CHead => s' == s.(consumer := CTail(s.head))
    case CTail(h) => s' == s.(consumer := if h == s.tail then CIdle else CReady(h))
    case CReady(h) =>
      h < SLOT_COUNT &&
      s' == if s.slots[h].ready then s.(consumer := CDeliver(h)) else s.(consumer := CIdle, broke := true)
    case CDeliver(h) =>
      h < SLOT_COUNT && s' == s.(delivered := s.delivered + [Payload(s.slots[h])], consumer := CClear(h))
    case CClear(h) =>
      h < SLOT_COUNT && s' == Store(s, h, s.slots[h].(ready := false)).(consumer := CAdvance(h))
    case CAdvance(h) =>
      s' == s.(head := (h + 1) % SLOT_COUNT, taken := s.taken + 1, consumer := CPackets(h))
    case CPackets(h) => s' == s.(rxPackets := s.rxPackets + 1, consumer := CBytes(h))
    case CBytes(h) =>
      h < SLOT_COUNT && s' == s.(rxBytes := s.rxBytes + s.slots[h].len, consumer := CHead)
  }

  ghost predicate Next(s: State, s': State)
    requires |s.slots| == SLOT_COUNT
  {
    ProducerStep(s, s') || ConsumerStep(s, s')
  }

  // -------------------------------------------------------------- invariant

  ghost predicate Holds(slot: Slot, m: Bytes) {
    slot.len == |m| && |m| <= |slot.data| && slot.data[..|m|] == m
  }

  function Total(ms: seq<Bytes>): nat {
    if ms == [] then 0 else Total(ms[..|ms| - 1]) + |ms[|ms| - 1]|
  }

  /** Head, tail and the histories: at most 255 messages are in flight. */
  ghost predicate Indices(s: State) {
    && |s.slots| == SLOT_COUNT
    && (forall i :: 0 <= i < SLOT_COUNT ==> |s.slots[i].data| == SLOT_SIZE)
    && s.taken <= |s.written| < s.taken + SLOT_COUNT
    && s.head == Ix(s.taken) && s.tail == Ix(|s.written|)
    && (forall k :: 0 <= k < |s.written| ==> |s.written[k]| <= SLOT_SIZE)
  }

  /** Slots in flight hold their message and are ready; free slots are not ready. The
      exceptions are the slot just published or just cleared. */
  ghost predicate Slots(s: State)
    requires Indices(s)
  {
    && (forall k: nat :: s.taken <= k < |s.written| ==> Holds(s.slots[Ix(k)], s.written[k]))
    && (forall k: nat :: s.taken <= k < |s.written| ==>
          s.slots[Ix(k)].ready == !(k == s.taken && s.consumer.CAdvance?))
    && (forall k: nat :: |s.written| <= k < s.taken + SLOT_COUNT ==>
          s.slots[Ix(k)].ready == (k == |s.written| && s.producer.PPublish?))
  }

  ghost predicate ProducerAt(s: State)
    requires Indices(s)
  {
    match s.producer
    case PHead(m) => 0 < |m| <= SLOT_SIZE
    case PTail(m, h, seen) => 0 < |m| <= SLOT_SIZE && h == Ix(seen) && seen <= s.taken && |s.written| < seen + SLOT_COUNT
    case PCopy(m, t) => Writing(s, m, t)
    case PLen(m, t) => Writing(s, m, t) && s.slots[t].data[..|m|] == m
    case PReady(m, t) => Writing(s, m, t) && Holds(s.slots[t], m)
    case PPublish(m, t) => Writing(s, m, t) && Holds(s.slots[t], m)
    case _ => true
  }

  /** The producer owns slot t: there is room for it and the gap slot behind it. */
  ghost predicate Writing(s: State, m: Bytes, t: nat) {
    0 < |m| <= SLOT_SIZE && t == Ix(|s.written|) && |s.written| + 1 < s.taken + SLOT_COUNT
  }

  ghost predicate ConsumerAt(s: State)
    requires Indices(s)
  {
    match s.consumer
    case CTail(h) => h == Ix(s.taken)
    case CReady(h) => h == Ix(s.taken) && s.taken < |s.written|
    case CDeliver(h) => h == Ix(s.taken) && s.taken < |s.written|
    case CClear(h) => h == Ix(s.taken) && s.taken < |s.written|
    case CAdvance(h) => h == Ix(s.taken) && s.taken < |s.written|
    case CPackets(h) => Gap(s, h)
    case CBytes(h) => Gap(s, h)
    case _ => true
  }

  /** The slot given back last still has the length of its message. */
  ghost predicate Gap(s: State, h: nat)
    requires Indices(s)
  {
    s.taken > 0 && h == Ix(s.taken - 1) && s.slots[h].len == |s.written[s.taken - 1]|
  }

  /** Deliveries so far: everything given back, and the message in hand. */
  function Handed(s: State): nat {
    s.taken + if s.consumer.CClear? || s.consumer.CAdvance? then 1 else 0
  }

  ghost predicate Histories(s: State)
    requires Indices(s)
  {
    && Handed(s) <= |s.written| && s.delivered == s.written[..Handed(s)]
    && !s.broke
  }

  /** The statistics lag behind by the message being counted. */
  ghost predicate TxCounters(s: State) {
    var sent := |s.written|;
    match s.producer
    case PPackets(m) =>
      sent > 0 && m == s.written[sent - 1] && s.txPackets == sent - 1 && s.txBytes == Total(s.written[..sent - 1])
    case PBytes(m) =>
      sent > 0 && m == s.written[sent - 1] && s.txPackets == sent && s.txBytes == Total(s.written[..sent - 1])
    case _ => s.txPackets == sent && s.txBytes == Total(s.written[..sent])
  }

  ghost predicate RxCounters(s: State)
    requires s.taken <= |s.written|
  {
    match s.consumer
    case CPackets(_) => s.taken > 0 && s.rxPackets == s.taken - 1 && s.rxBytes == Total(s.written[..s.taken - 1])
    case CBytes(_) => s.taken > 0 && s.rxPackets == s.taken && s.rxBytes == Total(s.written[..s.taken - 1])
    case _ => s.rxPackets == s.taken && s.rxBytes == Total(s.written[..s.taken])
  }

  ghost predicate Core(s: State) {
    Indices(s) && Slots(s) && ProducerAt(s) && ConsumerAt(s)
  }

  ghost predicate Book(s: State)
    requires Indices(s)
  {
    Histories(s) && TxCounters(s) && RxCounters(s)
  }

  ghost predicate Inv(s: State) {
    Core(s) && Book(s)
  }

  lemma InitInv(s: State)
    requires Init(s)
    ensures Inv(s)
  {
  }

  // ------------------------------------------------ the ring and the places

  /** A slot store at position j leaves the other positions of the window alone. */
  lemma StoreElsewhere(s: State, j: nat, slot: Slot)
    requires |s.slots| == SLOT_COUNT
    ensures forall k: nat :: k < j < k + SLOT_COUNT || j < k < j + SLOT_COUNT ==>
              Store(s, Ix(j), slot).slots[Ix(k)] == s.slots[Ix(k)]
  {
    forall k: nat | k < j < k + SLOT_COUNT || j < k < j + SLOT_COUNT
      ensures Store(s, Ix(j), slot).slots[Ix(k)] == s.slots[Ix(k)]
    {
      if k < j { IxDiffers(k, j); } else { IxDiffers(j, k); }
    }
  }

  /** A move of the producer that stores nothing. */
  lemma MoveProducer(s: State, p: Producer)
    requires Core(s) && !s.producer.PPublish? && !p.PPublish? && ProducerAt(s.(producer := p))
    ensures Core(s.(producer := p))
  {
  }

  /** A store into the slot the producer owns, and its move. */
  lemma FillSlot(s: State, slot: Slot, p: Producer)
    requires Core(s) && !s.producer.PPublish? && |slot.data| == SLOT_SIZE
    requires |s.written| + 1 < s.taken + SLOT_COUNT && slot.ready == p.PPublish?
    requires ProducerAt(Store(s, Ix(|s.written|), slot).(producer := p))
    ensures Core(Store(s, Ix(|s.written|), slot).(producer := p))
  {
    StoreElsewhere(s, |s.written|, slot);
    var t := Store(s, Ix(|s.written|), slot).(producer := p);
    assert Slots(t) by { hide Ix, ConsumerAt, ProducerAt; }
    assert ConsumerAt(t) by { hide Ix, Slots, ProducerAt; }
  }

  lemma Publish(s: State)
    requires Core(s) && s.producer.PPublish?
    ensures Core(s.(tail := (s.tail + 1) % SLOT_COUNT, written := s.written + [s.producer.m], producer := PPackets(s.producer.m)))
  {
    IxNext(|s.written|);
    hide Ix;
  }

  lemma MoveConsumer(s: State, c: Consumer)
    requires Core(s) && !s.consumer.CAdvance? && !c.CAdvance? && ConsumerAt(s.(consumer := c))
    ensures Core(s.(consumer := c))
  {
  }

  lemma ClearSlot(s: State, slot: Slot)
    requires Core(s) && s.consumer.CClear? && slot == s.slots[s.consumer.h].(ready := false)
    ensures Core(Store(s, s.consumer.h, slot).(consumer := CAdvance(s.consumer.h)))
  {
    StoreElsewhere(s, s.taken, slot);
    var t := Store(s, Ix(s.taken), slot).(consumer := CAdvance(s.consumer.h));
    assert Slots(t) by { hide Ix, ConsumerAt, ProducerAt; }
    assert ProducerAt(t) by { hide Ix, Slots, ConsumerAt; }
  }

  lemma Advance(s: State)
    requires Core(s) && s.consumer.CAdvance?
    ensures Core(s.(head := (s.consumer.h + 1) % SLOT_COUNT, taken := s.taken + 1, consumer := CPackets(s.consumer.h)))
  {
    IxNext(s.taken);
    hide Ix;
    var t := s.(head := (s.consumer.h + 1) % SLOT_COUNT, taken := s.taken + 1, consumer := CPackets(s.consumer.h));
    assert Holds(s.slots[Ix(s.taken)], s.written[s.taken]);
    assert Slots(t) by { hide Ix, ConsumerAt, ProducerAt; }
    assert ProducerAt(t) by { hide Ix, Slots, ConsumerAt; }
  }

  /** Only the fields no part of the core looks at differ. */
  lemma CoreOnly(s: State, t: State)
    requires Core(s) && t == s.(txPackets := t.txPackets, txBytes := t.txBytes, rxPackets := t.rxPackets,
                                rxBytes := t.rxBytes, notes := t.notes, delivered := t.delivered, broke := t.broke)
    ensures Core(t)
  {
  }

  /** The full test is exact for the head that was loaded: it fails the write precisely
      when 255 messages had not been given back at that load. */
  lemma FullIff(s: State)
    requires Core(s) && s.producer.PTail?
    ensures (s.tail + 1) % SLOT_COUNT == s.producer.h <==> |s.written| == s.producer.seen + 255
  {
    hide Slots, ConsumerAt;
    IxNext(|s.written|);
    if |s.written| + 1 < s.producer.seen + SLOT_COUNT {
      IxDiffers(s.producer.seen, |s.written| + 1);
    } else {
      IxNext(s.producer.seen);
    }
  }

  lemma CopyKeepsCore(s: State, s': State)
    requires Core(s) && s.producer.PCopy? && ProducerStep(s, s')
    ensures Core(s')
  {
    var m, t, slot := s.producer.m, s.producer.t, s'.slots[s.producer.t];
    hide Slots, ConsumerAt;
    if s'.producer.PCopy? {
      assert s' == Store(s, t, slot);
      assert s' == Store(s, t, slot).(producer := s.producer);
      FillSlot(s, slot, s.producer);
    } else {
      assert Copied(s.slots[t].data, m)[..|m|] == m;
      FillSlot(s, slot, PLen(m, t));
    }
  }

  lemma LenReadyKeepCore(s: State, s': State)
    requires Core(s) && (s.producer.PLen? || s.producer.PReady?) && ProducerStep(s, s')
    ensures Core(s')
  {
    assert !s.slots[Ix(|s.written|)].ready;
    hide Slots, ConsumerAt;
    FillSlot(s, s'.slots[s.producer.t], s'.producer);
  }

  lemma PublishKeepsCore(s: State, s': State)
    requires Core(s) && s.producer.PPublish? && ProducerStep(s, s')
    ensures Core(s')
  {
    Publish(s);
  }

  lemma TailKeepsCore(s: State, s': State)
    requires Core(s) && (s.producer.PIdle? || s.producer.PHead? || s.producer.PTail?) && ProducerStep(s, s')
    ensures Core(s')
  {
    if s.producer.PTail? { FullIff(s); }
    hide Slots, ConsumerAt;
    MoveProducer(s, s'.producer);
  }

  lemma CountKeepsCore(s: State, s': State)
    requires Core(s) && (s.producer.PPackets? || s.producer.PBytes? || s.producer.PNotify?) && ProducerStep(s, s')
    ensures Core(s')
  {
    hide Slots, ConsumerAt;
    MoveProducer(s, s'.producer);
    CoreOnly(s.(producer := s'.producer), s');
  }

  lemma ProducerKeepsCore(s: State, s': State)
    requires Core(s) && ProducerStep(s, s')
    ensures Core(s')
  {
    hide ProducerStep, Slots, ProducerAt, ConsumerAt;
    match s.producer
    case PCopy(_, _) => CopyKeepsCore(s, s');
    case PLen(_, _) => LenReadyKeepCore(s, s');
    case PReady(_, _) => LenReadyKeepCore(s, s');
    case PPublish(_, _) => PublishKeepsCore(s, s');
    case PPackets(_) => CountKeepsCore(s, s');
    case PBytes(_) => CountKeepsCore(s, s');
    case PNotify => CountKeepsCore(s, s');
    case _ => TailKeepsCore(s, s');
  }

  /** At the equality test of the drain the ring is empty exactly when the loads agree. */
  lemma EmptyIff(s: State)
    requires Indices(s)
    ensures Ix(s.taken) == s.tail <==> s.taken == |s.written|
  {
    if s.taken < |s.written| { IxDiffers(s.taken, |s.written|); }
  }

  /** The message in hand is the next one written, and its slot is ready. */
  lemma InHand(s: State)
    requires Core(s) && (s.consumer.CReady? || s.consumer.CDeliver?)
    ensures s.taken < |s.written| && s.consumer.h == Ix(s.taken)
    ensures s.slots[s.consumer.h].ready && Payload(s.slots[s.consumer.h]) == s.written[s.taken]
  {
    assert Holds(s.slots[Ix(s.taken)], s.written[s.taken]);
  }

  lemma MoveKeepsCore(s: State, s': State)
    requires Core(s) && !s.consumer.CClear? && !s.consumer.CAdvance? && ConsumerStep(s, s')
    ensures Core(s')
  {
    if s.consumer.CTail? { EmptyIff(s); }
    if s.consumer.CReady? { InHand(s); }
    hide Slots, ProducerAt, Ix;
    MoveConsumer(s, s'.consumer);
    CoreOnly(s.(consumer := s'.consumer), s');
  }

  lemma ConsumerKeepsCore(s: State, s': State)
    requires Core(s) && ConsumerStep(s, s')
    ensures Core(s')
  {
    match s.consumer
    case CClear(h) => ClearSlot(s, s'.slots[h]);
    case CAdvance(_) => Advance(s);
    case _ => hide ConsumerStep, Slots, ProducerAt, ConsumerAt; MoveKeepsCore(s, s');
  }

  // -------------------------------------------------- histories and counters

  lemma TotalNext(ms: seq<Bytes>, n: nat)
    requires 0 < n <= |ms|
    ensures Total(ms[..n]) == Total(ms[..n - 1]) + |ms[n - 1]|
  {
    assert ms[..n][..n - 1] == ms[..n - 1];
  }

  /** Publishing is the one producer step that the histories see. */
  lemma ProducerKeepsHistories(s: State, s': State)
    requires Indices(s) && Indices(s') && Histories(s) && ProducerStep(s, s')
    ensures Histories(s')
  {
    assert s.producer.PPublish? ==> s'.written[..Handed(s)] == s.written[..Handed(s)];
    hide Ix;
  }

  lemma PublishKeepsCounters(s: State, s': State)
    requires TxCounters(s) && s.taken <= |s.written| && RxCounters(s) && s.producer.PPublish?
    requires |s.slots| == SLOT_COUNT && ProducerStep(s, s')
    ensures s'.taken <= |s'.written| && TxCounters(s') && RxCounters(s')
  {
    hide Total;
    assert s'.written[..|s'.written| - 1] == s.written[..|s.written|];
    assert s'.written[..s.taken] == s.written[..s.taken];
    assert s.taken > 0 ==> s'.written[..s.taken - 1] == s.written[..s.taken - 1];
  }

  lemma RxOnly(s: State, s': State)
    requires |s.slots| == SLOT_COUNT && ProducerStep(s, s') && !s.producer.PPublish?
    requires s.taken <= |s.written| && RxCounters(s)
    ensures s'.taken <= |s'.written| && RxCounters(s')
  {
    hide Total;
  }

  lemma TxCounted(s: State, s': State)
    requires |s.slots| == SLOT_COUNT && TxCounters(s) && !s.producer.PPublish? && ProducerStep(s, s')
    ensures TxCounters(s')
  {
    hide Total;
    if s.producer.PBytes? { TotalNext(s.written, |s.written|); }
  }

  lemma ProducerKeepsCounters(s: State, s': State)
    requires Indices(s) && TxCounters(s) && RxCounters(s) && ProducerStep(s, s')
    ensures s'.taken <= |s'.written| && TxCounters(s') && RxCounters(s')
  {
    hide ProducerStep, TxCounters, RxCounters;
    if s.producer.PPublish? {
      PublishKeepsCounters(s, s');
    } else {
      RxOnly(s, s');
      TxCounted(s, s');
    }
  }

  lemma ConsumerKeepsHistories(s: State, s': State)
    requires Core(s) && Histories(s) && ConsumerStep(s, s') && Indices(s')
    ensures Histories(s')
  {
    if s.consumer.CReady? || s.consumer.CDeliver? { InHand(s); }
    assert s.taken < |s.written| ==> s.written[..s.taken + 1] == s.written[..s.taken] + [s.written[s.taken]];
    assert s.consumer.CClear? || s.consumer.CAdvance? ==> s.taken < |s.written|;
    hide Ix, Slots, ProducerAt, ConsumerAt, Payload;
  }

  lemma TxOnly(s: State, s': State)
    requires |s.slots| == SLOT_COUNT && TxCounters(s) && ConsumerStep(s, s')
    ensures TxCounters(s')
  {
    hide Total;
  }

  lemma ConsumerKeepsCounters(s: State, s': State)
    requires Core(s) && TxCounters(s) && RxCounters(s) && ConsumerStep(s, s')
    requires s'.taken <= |s'.written|
    ensures TxCounters(s') && RxCounters(s')
  {
    hide Ix, Slots, ProducerAt, Payload, Total, TxCounters;
    assert TxCounters(s') by { TxOnly(s, s'); }
    if s.consumer.CBytes? { TotalNext(s.written, s.taken); }
    if s.consumer.CAdvance? { TotalNext(s.written, s.taken + 1); }
  }

  lemma NextKeepsInv(s: State, s': State)
    requires Inv(s) && Next(s, s')
    ensures Inv(s')
  {
    hide ProducerStep, ConsumerStep, Slots, ProducerAt, ConsumerAt, Histories, TxCounters, RxCounters, Ix;
    if ProducerStep(s, s') {
      ProducerKeepsCore(s, s');
      ProducerKeepsHistories(s, s');
      ProducerKeepsCounters(s, s');
    } else {
      ConsumerKeepsCore(s, s');
      ConsumerKeepsHistories(s, s');
      ConsumerKeepsCounters(s, s');
    }
  }

  // ------------------------------------------------------------------- runs

  ghost predicate Run(r: seq<State>) {
    && |r| > 0 && Init(r[0])
    && (forall i :: 0 <= i < |r| ==> |r[i].slots| == SLOT_COUNT)
    && (forall i :: 0 <= i < |r| - 1 ==> Next(r[i], r[i + 1]))
  }

  lemma {:induction false} RunInv(r: seq<State>)
    requires Run(r)
    ensures Inv(r[|r| - 1])
  {
    hide Init, Next, Inv;
    if |r| == 1 {
      InitInv(r[0]);
    } else {
      var q := r[..|r| - 1];
      assert forall i :: 0 <= i < |q| - 1 ==> Next(q[i], q[i + 1]);
      RunInv(q);
      NextKeepsInv(r[|r| - 2], r[|r| - 1]);
    }
  }

  /** The FIFO the ring stands for: written and not yet given back. */
  function Queue(s: State): seq<Bytes>
    requires s.taken <= |s.written|
  {
    s.written[s.taken..]
  }

  /** Under every interleaving the ring is a FIFO of at most 255 messages: what was
      delivered is a prefix of what was written, never shorter than what was given
      back, and the drain never leaves its loop on an unready slot. */
  lemma RingIsFifo(r: seq<State>)
    requires Run(r)
    ensures var s := r[|r| - 1];
            && s.taken <= |s.written| && |Queue(s)| <= SLOT_COUNT - 1
            && s.delivered <= s.written && s.taken <= |s.delivered| <= s.taken + 1
            && !s.broke
  {
    RunInv(r);
  }

  /** The step appends one message to a FIFO that had room. */
  ghost predicate Enqueues(s: State, s': State)
    requires s.taken <= |s.written| && s'.taken <= |s'.written|
  {
    && |Queue(s)| < SLOT_COUNT - 1 && |s'.written| == |s.written| + 1 && s.written <= s'.written
    && Queue(s') == Queue(s) + [s'.written[|s.written|]] && s'.delivered == s.delivered
  }

  /** The step takes the first message off, which has been delivered by then. */
  ghost predicate Dequeues(s: State, s': State)
    requires s.taken <= |s.written| && s'.taken <= |s'.written|
  {
    && Queue(s) != [] && Queue(s') == Queue(s)[1..]
    && |s.delivered| == s.taken + 1 && s.delivered[s.taken] == Queue(s)[0]
  }

  lemma ProducerRefines(s: State, s': State)
    requires Inv(s) && ProducerStep(s, s')
    ensures s'.taken <= |s'.written| && (Queue(s') == Queue(s) || Enqueues(s, s'))
  {
    hide Ix, Slots, ConsumerAt, TxCounters, RxCounters, Histories;
    if s.producer.PPublish? {
      assert s'.written[s.taken..] == s.written[s.taken..] + [s.producer.m];
    }
  }

  lemma ConsumerRefines(s: State, s': State)
    requires Inv(s) && ConsumerStep(s, s')
    ensures s'.taken <= |s'.written| && (Queue(s') == Queue(s) || Dequeues(s, s'))
  {
    hide Ix, Slots, ProducerAt, TxCounters, RxCounters;
    if s.consumer.CAdvance? {
      assert s.written[s.taken + 1..] == s.written[s.taken..][1..];
    }
  }

  /** Each step leaves the FIFO alone, enqueues or dequeues. */
  lemma StepRefinesFifo(s: State, s': State)
    requires Inv(s) && Next(s, s')
    ensures s'.taken <= |s'.written|
    ensures Queue(s') == Queue(s) || Enqueues(s, s') || Dequeues(s, s')
  {
    hide ProducerStep, ConsumerStep, Enqueues, Dequeues, Queue;
    if ProducerStep(s, s') {
      ProducerRefines(s, s');
    } else {
      ConsumerRefines(s, s');
    }
  }

  /** The slot index the consumer works on, from the ready test to its last read. */
  function ConsumerSlot(c: Consumer): int {
    match c
    case CReady(h) => h
    case CDeliver(h) => h
    case CClear(h) => h
    case CAdvance(h) => h
    case CPackets(h) => h
    case CBytes(h) => h
    case _ => -1
  }

  /** No producer step touches the slot being delivered, nor the gap slot behind it. */
  lemma ProducerLeavesSlotAlone(s: State, s': State)
    requires Inv(s) && ProducerStep(s, s') && ConsumerSlot(s.consumer) >= 0
    ensures var h := ConsumerSlot(s.consumer); h < SLOT_COUNT && s'.slots[h] == s.slots[h]
  {
    var h := ConsumerSlot(s.consumer);
    var k := if s.consumer.CPackets? || s.consumer.CBytes? then s.taken - 1 else s.taken;
    assert h == Ix(k);
    if s.producer.PCopy? || s.producer.PLen? || s.producer.PReady? {
      IxDiffers(k, |s.written|);
    }
    hide Ix, Slots;
  }

  /** Gap slot: the length read after head was published is still that of the message
      delivered last, and so the byte counts add up. */
  lemma LateLengthIsRight(r: seq<State>)
    requires Run(r)
    ensures var s := r[|r| - 1];
            && (s.consumer.CBytes? ==>
                  && |s.delivered| > 0 && s.consumer.h < SLOT_COUNT
                  && s.slots[s.consumer.h].len == |s.delivered[|s.delivered| - 1]|)
            && (s.consumer == CIdle || s.consumer == CHead ==>
                  s.rxPackets == |s.delivered| && s.rxBytes == Total(s.delivered))
            && (s.producer == PIdle ==> s.txPackets == |s.written| && s.txBytes == Total(s.written))
  {
    RunInv(r);
    var s := r[|r| - 1];
    assert s.written[..|s.written|] == s.written;
    hide Ix, Slots, ProducerAt, Total;
  }
}
