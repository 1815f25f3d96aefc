/** The log ring: any number of threads that log, one thread that prints. Slots go from
    empty (0) to being written (1) to ready (2); a slot is claimed by compare-and-swap.
    Steps are the atomic accesses and the writes and reads of single fields. */
module LogRing {

  const N: nat := 1024
  const FIELDS: nat := 4

  const EMPTY: nat := 0
  const WRITING: nat := 1
  const READY: nat := 2

  /** Level, component, time and text of one message. */
  type Msg = seq<string>

  /** owner is the ticket of the last claim. */
  datatype Slot = Slot(fields: Msg, ready: nat, owner: nat)

  /** A thread outside a call, with a ticket before its claim, after a lost claim, or
      with its first done fields written. */
  datatype Producer =
    | PIdle | PClaim(m: Msg, ticket: nat) | PDrop(ticket: nat) | PWrite(m: Msg, ticket: nat, done: nat)

  datatype Consumer = CLoop | CLast | CTest | CRead(got: Msg) | CFree | CAdvance | CExited

  datatype Line = Line(ticket: nat, text: Msg)

  /** accepted: the messages published, by ticket; printed: the lines printed. */
  datatype State = State(
    slots: seq<Slot>, writeIdx: nat, readIdx: nat, keep: bool, dropped: nat, finished: nat,
    producers: seq<Producer>, consumer: Consumer, accepted: map<nat, Msg>, printed: seq<Line>)

  function Ix(k: nat): (i: nat)
    ensures i < N
  {
    k % N
  }

  /** Both indices are 32 bits wide, which 1024 divides: coming round changes no slot. */
  lemma WrapKeepsTheSlot(k: nat)
    ensures Ix(k % 0x1_0000_0000) == Ix(k)
  {
    var q := k / 0x1_0000_0000;
    assert k == k % 0x1_0000_0000 + N * (q * 0x40_0000);
  }

  ghost predicate Init(s: State) {
    && |s.slots| == N && (forall i :: 0 <= i < N ==> s.slots[i].ready == EMPTY && |s.slots[i].fields| == FIELDS)
    && s.writeIdx == s.readIdx == s.dropped == s.finished == 0 && s.keep
    && (forall i :: 0 <= i < |s.producers| ==> s.producers[i] == PIdle)
    && s.consumer == CLoop && s.accepted == map[] && s.printed == []
  }

  function SetSlot(s: State, x: nat, slot: Slot): State
    requires x < |s.slots|
  {
    s.(slots := s.slots[x := slot])
  }

  function SetProducer(s: State, i: nat, p: Producer): State
    requires i < |s.producers|
  {
    s.(producers := s.producers[i := p])
  }

  // ------------------------------------------------------------------ steps

  ghost predicate ProducerStep(s: State, s': State, i: nat)
    requires |s.slots| == N && i < |s.producers|
  {
    match s.producers[i]
    case PIdle =>
      exists m: Msg :: |m| == FIELDS && s' == SetProducer(s, i, PClaim(m, s.writeIdx)).(writeIdx := s.writeIdx + 1)
    case PClaim(m, t) =>
      s' == if s.slots[Ix(t)].ready == EMPTY
            then SetSlot(SetProducer(s, i, PWrite(m, t, 0)), Ix(t), s.slots[Ix(t)].(ready := WRITING, owner := t))
            else SetProducer(s, i, PDrop(t))
    case PDrop(t) =>
      s' == SetProducer(s, i, PIdle).(dropped := s.dropped + 1, finished := s.finished + 1)
    case PWrite(m, t, k) =>
      if k < FIELDS && k < |s.slots[Ix(t)].fields| && k < |m| then
        || (exists junk: string :: s' == WriteField(s, Ix(t), k, junk))
        || s' == SetProducer(WriteField(s, Ix(t), k, m[k]), i, PWrite(m, t, k + 1))
      else
        s' == SetSlot(SetProducer(s, i, PIdle), Ix(t), s.slots[Ix(t)].(ready := READY))
                .(accepted := s.accepted[t := m], finished := s.finished + 1)
  }

  function WriteField(s: State, x: nat, k: nat, value: string): State
    requires x < |s.slots| && k < |s.slots[x].fields|
  {
    SetSlot(s, x, s.slots[x].(fields := s.slots[x].fields[k := value]))
  }

  ghost predicate ConsumerStep(s: State, s': State)
    requires |s.slots| == N
  {
    var x := Ix(s.readIdx);
    match s.consumer
    case CLoop => s' == s.(consumer := if s.keep then CTest else CLast)
    case CLast => s' == s.(consumer := if s.slots[x].ready == READY then CTest else CExited)
    case CTest => s' == s.(consumer := if s.slots[x].ready == READY then CRead([]) else CLoop)
    case CRead(got) =>
      if |got| < FIELDS && |got| < |s.slots[x].fields| then
        s' == s.(consumer := CRead(got + [s.slots[x].fields[|got|]]))
      else
        s' == s.(consumer := CFree, printed := s.printed + [Line(s.slots[x].owner, got)])
    case CFree => s' == SetSlot(s, x, s.slots[x].(ready := EMPTY)).(consumer := CAdvance)
    case CAdvance => s' == s.(consumer := CLoop, readIdx := s.readIdx + 1)
    case CExited => false
  }

  ghost predicate Next(s: State, s': State) {
    && |s.slots| == N
    && (ConsumerStep(s, s')
        || (exists i: nat :: i < |s.producers| && ProducerStep(s, s', i))
        || s' == s.(keep := false))
  }

  ghost predicate Run(r: seq<State>) {
    |r| > 0 && Init(r[0]) && forall i :: 0 <= i < |r| - 1 ==> Next(r[i], r[i + 1])
  }

  // -------------------------------------------------------------- invariant

  predicate InCall(p: Producer) { !p.PIdle? }

  function InCalls(ps: seq<Producer>): nat {
    if ps == [] then 0 else InCalls(ps[..|ps| - 1]) + (if InCall(ps[|ps| - 1]) then 1 else 0)
  }

  function Tickets(printed: seq<Line>): set<nat> {
    set l | l in printed :: l.ticket
  }

  ghost predicate Shape(s: State) {
    |s.slots| == N && forall i :: 0 <= i < N ==> |s.slots[i].fields| == FIELDS
  }

  /** Tickets in calls are drawn, different and not yet published. */
  ghost predicate TicketsOk(s: State) {
    && (forall i: nat :: i < |s.producers| && InCall(s.producers[i]) ==>
          s.producers[i].ticket < s.writeIdx && s.producers[i].ticket !in s.accepted)
    && (forall i: nat, j: nat :: i < j < |s.producers| && InCall(s.producers[i]) && InCall(s.producers[j]) ==>
          s.producers[i].ticket != s.producers[j].ticket)
    && (forall t :: t in s.accepted ==> t < s.writeIdx)
  }

  /** A ready slot holds a published message, which was printed exactly if the consumer
      is about to free the slot. */
  ghost predicate SlotOk(s: State, x: nat)
    requires x < |s.slots|
  {
    var o := s.slots[x];
    o.ready == READY ==>
      && o.owner in s.accepted && Ix(o.owner) == x && o.fields == s.accepted[o.owner]
      && (o.owner in Tickets(s.printed) <==> s.consumer == CFree && Ix(s.readIdx) == x)
  }

  /** A writing producer owns its slot and has written its first fields. */
  ghost predicate ProducerOk(s: State, i: nat)
    requires Shape(s) && i < |s.producers|
  {
    match s.producers[i]
    case PClaim(m, _) => |m| == FIELDS
    case PWrite(m, t, k) =>
      var o := s.slots[Ix(t)];
      |m| == FIELDS && k <= FIELDS && o.ready == WRITING && o.owner == t && o.fields[..k] == m[..k]
    case _ => true
  }

  ghost predicate ConsumerOk(s: State)
    requires Shape(s)
  {
    var o := s.slots[Ix(s.readIdx)];
    && (s.consumer.CRead? || s.consumer.CFree? ==> o.ready == READY)
    && (s.consumer.CRead? ==> s.consumer.got <= o.fields)
  }

  /** Printed lines are published messages, whole and each at most once. */
  ghost predicate PrintedOk(s: State) {
    && (forall k :: 0 <= k < |s.printed| ==>
          s.printed[k].ticket in s.accepted && s.printed[k].text == s.accepted[s.printed[k].ticket])
    && (forall j, k :: 0 <= j < k < |s.printed| ==> s.printed[j].ticket != s.printed[k].ticket)
  }

  /** A published message is printed or still in its slot. */
  ghost predicate Kept(s: State)
    requires Shape(s)
  {
    forall t :: t in s.accepted ==>
      t in Tickets(s.printed) || (s.slots[Ix(t)].ready == READY && s.slots[Ix(t)].owner == t)
  }

  ghost predicate Counted(s: State) {
    s.finished == |s.accepted| + s.dropped && s.writeIdx == s.finished + InCalls(s.producers)
  }

  ghost predicate Inv(s: State) {
    && Shape(s) && TicketsOk(s) && PrintedOk(s) && Kept(s) && ConsumerOk(s) && Counted(s)
    && (forall x: nat :: x < N ==> SlotOk(s, x))
    && (forall i: nat :: i < |s.producers| ==> ProducerOk(s, i))
  }

  lemma {:induction false} NoneInCalls(ps: seq<Producer>)
    requires forall i :: 0 <= i < |ps| ==> ps[i] == PIdle
    ensures InCalls(ps) == 0
  {
    if ps != [] { NoneInCalls(ps[..|ps| - 1]); }
  }

  lemma {:induction false} InCallsUpdate(ps: seq<Producer>, i: nat, p: Producer)
    requires i < |ps|
    ensures InCalls(ps[i := p]) + (if InCall(ps[i]) then 1 else 0) == InCalls(ps) + (if InCall(p) then 1 else 0)
  {
    var n := |ps| - 1;
    if i == n {
      assert ps[i := p][..n] == ps[..n];
    } else {
      InCallsUpdate(ps[..n], i, p);
      assert ps[i := p][..n] == ps[..n][i := p];
    }
  }

  lemma InitInv(s: State)
    requires Init(s)
    ensures Inv(s)
  {
    NoneInCalls(s.producers);
  }

  // ------------------------------------------------- what the consumer keeps

  lemma ConsumerMoves(s: State, s': State)
    requires Inv(s) && ConsumerStep(s, s') && !s.consumer.CFree? && !(s.consumer.CRead? && |s.consumer.got| == FIELDS)
    ensures Inv(s')
  {
    hide TicketsOk, PrintedOk, Counted, Tickets, InCalls;
    assert s'.slots == s.slots && s'.producers == s.producers && s'.printed == s.printed;
    forall x: nat | x < N ensures SlotOk(s', x) { assert SlotOk(s, x); }
    forall i: nat | i < |s.producers| ensures ProducerOk(s', i) { assert ProducerOk(s, i); }
    SameTickets(s, s');
    SamePrinted(s, s');
  }

  lemma SameTickets(s: State, s': State)
    requires s'.producers == s.producers && s'.accepted == s.accepted
    requires s'.writeIdx == s.writeIdx && s'.finished == s.finished && s'.dropped == s.dropped
    ensures TicketsOk(s) ==> TicketsOk(s')
    ensures Counted(s) ==> Counted(s')
  {
  }

  lemma SamePrinted(s: State, s': State)
    requires s'.accepted == s.accepted && s'.printed == s.printed && PrintedOk(s)
    ensures PrintedOk(s')
  {
  }

  lemma TicketsGrow(printed: seq<Line>, l: Line)
    ensures Tickets(printed + [l]) == Tickets(printed) + {l.ticket}
    ensures forall k :: 0 <= k < |printed| ==> printed[k].ticket in Tickets(printed)
  {
    assert forall x :: x in printed + [l] <==> x in printed || x == l;
  }

  lemma PrintOne(s: State, l: Line)
    requires PrintedOk(s) && l.ticket in s.accepted && l.text == s.accepted[l.ticket] && l.ticket !in Tickets(s.printed)
    ensures PrintedOk(s.(printed := s.printed + [l]))
  {
    TicketsGrow(s.printed, l);
  }

  lemma ConsumerPrints(s: State, s': State)
    requires Inv(s) && ConsumerStep(s, s') && s.consumer.CRead? && |s.consumer.got| == FIELDS
    ensures Inv(s')
  {
    hide Tickets, InCalls, PrintedOk, TicketsOk, Counted;
    var x := Ix(s.readIdx);
    var l := Line(s.slots[x].owner, s.consumer.got);
    assert SlotOk(s, x);
    TicketsGrow(s.printed, l);
    PrintOne(s, l);
    assert s' == s.(printed := s.printed + [l], consumer := CFree);
    forall y: nat | y < N ensures SlotOk(s', y) { assert SlotOk(s, y); }
    forall i: nat | i < |s.producers| ensures ProducerOk(s', i) { assert ProducerOk(s, i); }
    SamePrinted(s.(printed := s.printed + [l]), s');
    SameTickets(s, s');
  }

  lemma ConsumerFrees(s: State, s': State)
    requires Inv(s) && ConsumerStep(s, s') && s.consumer.CFree?
    ensures Inv(s')
  {
    hide Tickets, InCalls, PrintedOk, TicketsOk, Counted;
    var x := Ix(s.readIdx);
    assert SlotOk(s, x);
    forall y: nat | y < N ensures SlotOk(s', y) { assert SlotOk(s, y); }
    forall i: nat | i < |s.producers| ensures ProducerOk(s', i) { assert ProducerOk(s, i); }
    SameTickets(s, s');
    SamePrinted(s, s');
  }

  // ------------------------------------------------- what a producer keeps

  /** Producer i moves within or out of its call: the other tickets stay as they were. */
  lemma TicketsAfter(s: State, s': State, i: nat)
    requires TicketsOk(s) && i < |s.producers| && InCall(s.producers[i])
    requires |s'.producers| == |s.producers| && s'.writeIdx == s.writeIdx && s'.accepted == s.accepted
    requires forall j :: 0 <= j < |s.producers| && j != i ==> s'.producers[j] == s.producers[j]
    requires InCall(s'.producers[i]) ==> s'.producers[i].ticket == s.producers[i].ticket
    ensures TicketsOk(s')
  {
  }

  lemma StartKeeps(s: State, s': State, i: nat)
    requires Inv(s) && i < |s.producers| && s.producers[i].PIdle? && ProducerStep(s, s', i)
    ensures Inv(s')
  {
    hide Tickets, InCalls, PrintedOk, Counted, ConsumerOk;
    var p := s'.producers[i];
    assert s'.producers == s.producers[i := p] && p.PClaim? && |p.m| == FIELDS;
    forall y: nat | y < N ensures SlotOk(s', y) { assert SlotOk(s, y); }
    forall j: nat | j < |s'.producers| ensures ProducerOk(s', j) { assert j != i ==> ProducerOk(s, j); }
    SamePrinted(s, s');
    InCallsUpdate(s.producers, i, p);
    assert ConsumerOk(s') && Counted(s') by { assert ConsumerOk(s) && Counted(s); StartCounts(s, s', i); }
  }

  lemma StartCounts(s: State, s': State, i: nat)
    requires Shape(s) && i < |s.producers| && s'.slots == s.slots && s'.readIdx == s.readIdx && s'.consumer == s.consumer
    requires s'.accepted == s.accepted && s'.dropped == s.dropped && s'.finished == s.finished
    requires s'.writeIdx + InCalls(s.producers) == s.writeIdx + InCalls(s'.producers)
    ensures ConsumerOk(s) ==> ConsumerOk(s')
    ensures Counted(s) ==> Counted(s')
  {
    hide InCalls;
  }

  /** The claim: won, the empty slot becomes ours; lost, nothing changes. */
  lemma ClaimKeeps(s: State, s': State, i: nat)
    requires Inv(s) && i < |s.producers| && s.producers[i].PClaim? && ProducerStep(s, s', i)
    ensures Inv(s')
  {
    hide Tickets, InCalls, PrintedOk, Counted, TicketsOk;
    var p, x := s'.producers[i], Ix(s.producers[i].ticket);
    assert s'.producers == s.producers[i := p];
    forall y: nat | y < N ensures SlotOk(s', y) { assert SlotOk(s, y); }
    assert ProducerOk(s, i);
    forall j: nat | j < |s'.producers| ensures ProducerOk(s', j) { assert j != i ==> ProducerOk(s, j); }
    SamePrinted(s, s');
    InCallsUpdate(s.producers, i, p);
    TicketsAfter(s, s', i);
    StillCounted(s, s');
  }

  lemma StillCounted(s: State, s': State)
    requires Counted(s) && s'.accepted == s.accepted && InCalls(s'.producers) == InCalls(s.producers)
    requires s'.writeIdx == s.writeIdx && s'.finished == s.finished && s'.dropped == s.dropped
    ensures Counted(s')
  {
  }

  lemma DropKeeps(s: State, s': State, i: nat)
    requires Inv(s) && i < |s.producers| && s.producers[i].PDrop? && ProducerStep(s, s', i)
    ensures Inv(s')
  {
    hide Tickets, InCalls, PrintedOk, TicketsOk;
    assert s'.producers == s.producers[i := PIdle];
    forall y: nat | y < N ensures SlotOk(s', y) { assert SlotOk(s, y); }
    forall j: nat | j < |s'.producers| ensures ProducerOk(s', j) { assert j != i ==> ProducerOk(s, j); }
    SamePrinted(s, s');
    InCallsUpdate(s.producers, i, PIdle);
    TicketsAfter(s, s', i);
  }

  /** A slot being written has one writer and no reader. */
  lemma OneOwner(s: State, i: nat)
    requires Inv(s) && i < |s.producers| && s.producers[i].PWrite?
    ensures forall j: nat :: j < |s.producers| && j != i && s.producers[j].PWrite? ==>
              Ix(s.producers[j].ticket) != Ix(s.producers[i].ticket)
    ensures s.consumer.CRead? || s.consumer.CFree? ==> Ix(s.readIdx) != Ix(s.producers[i].ticket)
  {
    assert ProducerOk(s, i);
    forall j: nat | j < |s.producers| && j != i && s.producers[j].PWrite?
      ensures Ix(s.producers[j].ticket) != Ix(s.producers[i].ticket)
    {
      assert ProducerOk(s, j);
    }
  }

  /** Writing a field of one's own slot. */
  lemma WriteKeeps(s: State, s': State, i: nat)
    requires Inv(s) && i < |s.producers| && s.producers[i].PWrite? && s.producers[i].done < FIELDS && ProducerStep(s, s', i)
    ensures Inv(s')
  {
    hide Tickets, InCalls, PrintedOk, Counted, TicketsOk, Kept;
    var x := Ix(s.producers[i].ticket);
    OneOwner(s, i);
    assert ProducerOk(s, i);
    WrittenSlot(s, s', i);
    forall y: nat | y < N ensures SlotOk(s', y) { assert SlotOk(s, y); }
    forall j: nat | j < |s'.producers| && j != i ensures ProducerOk(s', j) { assert ProducerOk(s, j); }
    SamePrinted(s, s');
    InCallsUpdate(s.producers, i, s'.producers[i]);
    TicketsAfter(s, s', i);
    StillCounted(s, s');
    KeptElsewhere(s, s', x);
  }

  lemma WrittenSlot(s: State, s': State, i: nat)
    requires Shape(s) && i < |s.producers| && s.producers[i].PWrite? && s.producers[i].done < FIELDS
    requires ProducerStep(s, s', i) && ProducerOk(s, i)
    ensures s'.producers == s.producers[i := s'.producers[i]] && Shape(s') && ProducerOk(s', i)
    ensures s'.slots == s.slots[Ix(s.producers[i].ticket) := s'.slots[Ix(s.producers[i].ticket)]]
  {
    var m, t, k := s.producers[i].m, s.producers[i].ticket, s.producers[i].done;
    var f, g := s.slots[Ix(t)].fields, s'.slots[Ix(t)].fields;
    assert g[..k] == f[..k];
    if s'.producers[i].done == k + 1 { assert g[..k + 1] == f[..k] + [m[k]] == m[..k + 1]; }
  }

  lemma KeptElsewhere(s: State, s': State, x: nat)
    requires Shape(s) && Kept(s) && x < N && s.slots[x].ready != READY && Shape(s')
    requires s'.accepted == s.accepted && s'.printed == s.printed && s'.slots == s.slots[x := s'.slots[x]]
    ensures Kept(s')
  {
    hide Tickets;
  }

  lemma PublishKeeps(s: State, s': State, i: nat)
    requires Inv(s) && i < |s.producers| && s.producers[i].PWrite? && s.producers[i].done >= FIELDS && ProducerStep(s, s', i)
    ensures Inv(s')
  {
    hide Tickets, InCalls, Counted, PrintedOk, TicketsOk, Kept;
    var m, t := s.producers[i].m, s.producers[i].ticket;
    assert ProducerOk(s, i);
    OneOwner(s, i);
    PublishSlots(s, s', i);
    PublishTickets(s, s', i);
    forall j: nat | j < |s'.producers| ensures ProducerOk(s', j) { if j != i { assert ProducerOk(s, j); } }
    InCallsUpdate(s.producers, i, PIdle);
    PublishCounts(s, s', t, m);
    PublishRest(s, s', t, m);
  }

  lemma PublishSlots(s: State, s': State, i: nat)
    requires Inv(s) && i < |s.producers| && s.producers[i].PWrite? && s.producers[i].done >= FIELDS && ProducerStep(s, s', i)
    ensures forall y: nat :: y < N ==> SlotOk(s', y)
    ensures s.producers[i].ticket !in s.accepted
  {
    hide Tickets, InCalls, Counted, Kept;
    var m, t := s.producers[i].m, s.producers[i].ticket;
    assert ProducerOk(s, i);
    assert m == m[..FIELDS] == s.slots[Ix(t)].fields[..FIELDS] == s.slots[Ix(t)].fields;
    OneOwner(s, i);
    NotPrinted(s, t);
    hide PrintedOk, TicketsOk;
    forall y: nat | y < N ensures SlotOk(s', y) { assert SlotOk(s, y); }
  }

  lemma PublishTickets(s: State, s': State, i: nat)
    requires TicketsOk(s) && i < |s.producers| && s.producers[i].PWrite?
    requires s'.producers == s.producers[i := PIdle] && s'.writeIdx == s.writeIdx
    requires s'.accepted == s.accepted[s.producers[i].ticket := s.producers[i].m]
    ensures TicketsOk(s')
  {
  }

  lemma PublishRest(s: State, s': State, t: nat, m: Msg)
    requires Shape(s) && PrintedOk(s) && Kept(s) && t !in s.accepted && s'.accepted == s.accepted[t := m]
    requires s'.printed == s.printed && Shape(s') && s.slots[Ix(t)].ready != READY
    requires s'.slots == s.slots[Ix(t) := s'.slots[Ix(t)]]
    requires s'.slots[Ix(t)].ready == READY && s'.slots[Ix(t)].owner == t
    ensures PrintedOk(s') && Kept(s')
  {
    hide Tickets;
  }

  lemma NotPrinted(s: State, t: nat)
    requires PrintedOk(s) && t !in s.accepted
    ensures t !in Tickets(s.printed)
  {
    forall l | l in s.printed ensures l.ticket != t {
      var k :| 0 <= k < |s.printed| && s.printed[k] == l;
    }
  }

  lemma PublishCounts(s: State, s': State, t: nat, m: Msg)
    requires Counted(s) && t !in s.accepted && s'.accepted == s.accepted[t := m]
    requires s'.writeIdx == s.writeIdx && s'.finished == s.finished + 1 && s'.dropped == s.dropped
    requires InCalls(s'.producers) + 1 == InCalls(s.producers)
    ensures Counted(s')
  {
    hide InCalls;
    assert s'.accepted.Keys == s.accepted.Keys + {t};
    assert |s.accepted.Keys| == |s.accepted| && |s'.accepted.Keys| == |s'.accepted|;
  }

  lemma ProducerKeeps(s: State, s': State, i: nat)
    requires Inv(s) && i < |s.producers| && ProducerStep(s, s', i)
    ensures Inv(s')
  {
    hide Inv, ProducerStep;
    match s.producers[i]
    case PIdle => StartKeeps(s, s', i);
    case PClaim(_, _) => ClaimKeeps(s, s', i);
    case PDrop(_) => DropKeeps(s, s', i);
    case PWrite(_, _, k) => if k < FIELDS { WriteKeeps(s, s', i); } else { PublishKeeps(s, s', i); }
  }

  lemma StopKeeps(s: State)
    requires Inv(s)
    ensures Inv(s.(keep := false))
  {
    var s' := s.(keep := false);
    hide Tickets, InCalls, PrintedOk, Counted, TicketsOk;
    forall y: nat | y < N ensures SlotOk(s', y) { assert SlotOk(s, y); }
    forall j: nat | j < |s'.producers| ensures ProducerOk(s', j) { assert ProducerOk(s, j); }
    SameTickets(s, s');
    SamePrinted(s, s');
  }

  lemma NextKeeps(s: State, s': State)
    requires Inv(s) && Next(s, s')
    ensures Inv(s')
  {
    hide Inv, ProducerStep, ConsumerStep;
    if ConsumerStep(s, s') {
      if s.consumer.CFree? { ConsumerFrees(s, s'); }
      else if s.consumer.CRead? && |s.consumer.got| == FIELDS { ConsumerPrints(s, s'); }
      else { ConsumerMoves(s, s'); }
    } else if s' == s.(keep := false) {
      StopKeeps(s);
    } else {
      var i: nat :| i < |s.producers| && ProducerStep(s, s', i);
      ProducerKeeps(s, s', i);
    }
  }

  lemma {:induction false} AlwaysInv(r: seq<State>)
    requires Run(r)
    ensures Inv(r[|r| - 1])
  {
    hide Inv, Next;
    if |r| == 1 {
      InitInv(r[0]);
    } else {
      var q := r[..|r| - 1];
      AlwaysInv(q);
      NextKeeps(q[|q| - 1], r[|r| - 1]);
    }
  }

  // ---------------------------------------------------------- main results

  /** In every reachable state, with any number of threads: a slot has at most one writer
      or reader; a call that ended either published or was counted as dropped; every
      printed line is a published message, whole, and no message is printed twice. */
  lemma LogIsSafe(r: seq<State>, i: nat)
    requires Run(r)
    ensures var s := r[|r| - 1];
            && s.finished == |s.accepted| + s.dropped
            && (forall k :: 0 <= k < |s.printed| ==>
                  s.printed[k].ticket in s.accepted && s.printed[k].text == s.accepted[s.printed[k].ticket])
            && (forall j, k :: 0 <= j < k < |s.printed| ==> s.printed[j].ticket != s.printed[k].ticket)
    ensures var s := r[|r| - 1];
            i < |s.producers| && s.producers[i].PWrite? ==>
              && (forall j: nat :: j < |s.producers| && j != i && s.producers[j].PWrite? ==>
                    Ix(s.producers[j].ticket) != Ix(s.producers[i].ticket))
              && (s.consumer.CRead? || s.consumer.CFree? ==> Ix(s.readIdx) != Ix(s.producers[i].ticket))
  {
    AlwaysInv(r);
    var s := r[|r| - 1];
    if i < |s.producers| && s.producers[i].PWrite? { OneOwner(s, i); }
  }

  /** When the consumer has exited, everything published was printed exactly if no slot
      is ready: messages are lost only where they sit in the ring. */
  lemma DrainedIff(r: seq<State>)
    requires Run(r) && r[|r| - 1].consumer == CExited
    ensures var s := r[|r| - 1];
            (forall t :: t in s.accepted ==> t in Tickets(s.printed)) <==>
              (forall x: nat :: x < |s.slots| ==> s.slots[x].ready != READY)
  {
    AlwaysInv(r);
    var s := r[|r| - 1];
    hide Tickets, PrintedOk, TicketsOk, Counted, InCalls;
    if x: nat :| x < N && s.slots[x].ready == READY {
      assert SlotOk(s, x);
    }
  }
}
