/** What one drop does to the log ring: a run of one logging thread in which a message is
    published, the logger is shut down, the consumer exits, and the message stays in the
    ring. The ticket counter moved past the slot of the dropped call, the read index did
    not, so the consumer waits at an empty slot. */
module LogLoss {
  import opened LogRing

  const Text: Msg := ["INFO", "0", "12:00:00", "text"]

  lemma Extend(r: seq<State>, s': State) returns (q: seq<State>)
    requires Run(r) && Next(r[|r| - 1], s')
    ensures q == r + [s'] && Run(q)
  {
    q := r + [s'];
    forall i | 0 <= i < |q| - 1 ensures Next(q[i], q[i + 1]) {
      if i == |r| - 1 { assert q[i] == r[i] && q[i + 1] == s'; }
    }
  }

  lemma Consume(r: seq<State>, s': State) returns (q: seq<State>)
    requires Run(r) && |r[|r| - 1].slots| == N && ConsumerStep(r[|r| - 1], s')
    ensures q == r + [s'] && Run(q)
  {
    q := Extend(r, s');
  }

  lemma Produce(r: seq<State>, s': State) returns (q: seq<State>)
    requires Run(r) && |r[|r| - 1].slots| == N && |r[|r| - 1].producers| == 1
    requires ProducerStep(r[|r| - 1], s', 0)
    ensures q == r + [s'] && Run(q)
  {
    q := Extend(r, s');
  }

  /** Between calls and prints, before shutdown. */
  ghost predicate Calm(s: State) {
    Shape(s) && s.producers == [PIdle] && s.consumer == CLoop && s.keep
  }

  function Logged(s: State): State
    requires |s.slots| == N
  {
    SetSlot(s, Ix(s.writeIdx), Slot(Text, READY, s.writeIdx))
      .(writeIdx := s.writeIdx + 1, finished := s.finished + 1, accepted := s.accepted[s.writeIdx := Text])
  }

  /** A call that finds its slot empty publishes. */
  lemma LogCall(r: seq<State>) returns (q: seq<State>)
    requires Run(r) && Calm(r[|r| - 1]) && r[|r| - 1].slots[Ix(r[|r| - 1].writeIdx)].ready == EMPTY
    ensures Run(q) && r <= q && Calm(q[|q| - 1]) && q[|q| - 1] == Logged(r[|r| - 1])
  {
    var s := r[|r| - 1];
    var t, x := s.writeIdx, Ix(s.writeIdx);
    hide Run;
    var a := SetProducer(s, 0, PClaim(Text, t)).(writeIdx := t + 1);
    q := Produce(r, a);
    var b := SetSlot(SetProducer(a, 0, PWrite(Text, t, 0)), x, a.slots[x].(ready := WRITING, owner := t));
    q := Produce(q, b);
    var c := WriteNext(b, 0);
    q := Produce(q, c);
    var d := WriteNext(c, 1);
    q := Produce(q, d);
    var e := WriteNext(d, 2);
    q := Produce(q, e);
    var f := WriteNext(e, 3);
    q := Produce(q, f);
    assert f.slots[x].fields == Text;
    q := Produce(q, Logged(s));
  }

  function WriteNext(s: State, k: nat): State
    requires Shape(s) && |s.producers| == 1 && s.producers[0].PWrite? && k < FIELDS
  {
    SetProducer(WriteField(s, Ix(s.producers[0].ticket), k, Text[k]), 0, PWrite(Text, s.producers[0].ticket, k + 1))
  }

  /** A call that finds its slot taken is dropped; its ticket is gone. */
  lemma DropCall(r: seq<State>) returns (q: seq<State>)
    requires Run(r) && Calm(r[|r| - 1]) && r[|r| - 1].slots[Ix(r[|r| - 1].writeIdx)].ready != EMPTY
    ensures Run(q) && r <= q && Calm(q[|q| - 1])
    ensures var s := r[|r| - 1];
            q[|q| - 1] == s.(writeIdx := s.writeIdx + 1, finished := s.finished + 1, dropped := s.dropped + 1)
  {
    var s := r[|r| - 1];
    var t := s.writeIdx;
    hide Run;
    var a := SetProducer(s, 0, PClaim(Text, t)).(writeIdx := t + 1);
    q := Produce(r, a);
    var b := SetProducer(a, 0, PDrop(t));
    q := Produce(q, b);
    var c := SetProducer(b, 0, PIdle).(dropped := s.dropped + 1, finished := s.finished + 1);
    q := Produce(q, c);
  }

  function Printed(s: State): State
    requires |s.slots| == N
  {
    var x := Ix(s.readIdx);
    SetSlot(s, x, s.slots[x].(ready := EMPTY))
      .(readIdx := s.readIdx + 1, printed := s.printed + [Line(s.slots[x].owner, s.slots[x].fields)])
  }

  /** The consumer prints the message at the read index. */
  lemma PrintCall(r: seq<State>) returns (q: seq<State>)
    requires Run(r) && Calm(r[|r| - 1]) && r[|r| - 1].slots[Ix(r[|r| - 1].readIdx)].ready == READY
    ensures Run(q) && r <= q && Calm(q[|q| - 1]) && q[|q| - 1] == Printed(r[|r| - 1])
  {
    var s := r[|r| - 1];
    var f := s.slots[Ix(s.readIdx)].fields;
    hide Run;
    q := Consume(r, s.(consumer := CTest));
    assert f[..0] == [] && f[..1] == f[..0] + [f[0]] && f[..2] == f[..1] + [f[1]];
    assert f[..3] == f[..2] + [f[2]] && f[..4] == f[..3] + [f[3]] == f;
    q := Consume(q, s.(consumer := CRead(f[..0])));
    q := Consume(q, s.(consumer := CRead(f[..1])));
    q := Consume(q, s.(consumer := CRead(f[..2])));
    q := Consume(q, s.(consumer := CRead(f[..3])));
    q := Consume(q, s.(consumer := CRead(f)));
    q := PrintAndFree(q, s);
  }

  lemma PrintAndFree(r: seq<State>, s: State) returns (q: seq<State>)
    requires Run(r) && Calm(s)
    requires r[|r| - 1] == s.(consumer := CRead(s.slots[Ix(s.readIdx)].fields))
    ensures Run(q) && r <= q && Calm(q[|q| - 1]) && q[|q| - 1] == Printed(s)
  {
    var x := Ix(s.readIdx);
    hide Run;
    var a := s.(consumer := CFree, printed := s.printed + [Line(s.slots[x].owner, s.slots[x].fields)]);
    q := Consume(r, a);
    var b := SetSlot(a, x, s.slots[x].(ready := EMPTY)).(consumer := CAdvance);
    q := Consume(q, b);
    q := Consume(q, b.(consumer := CLoop, readIdx := s.readIdx + 1));
  }

  /** The first k slots hold messages, the others are empty. */
  ghost predicate FirstReady(s: State, k: nat)
    requires Shape(s)
  {
    forall i :: 0 <= i < N ==> s.slots[i].ready == if i < k then READY else EMPTY
  }

  /** The first k slots were emptied again, the others hold messages. */
  ghost predicate FirstEmpty(s: State, k: nat)
    requires Shape(s)
  {
    forall i :: 0 <= i < N ==> s.slots[i].ready == if i < k then EMPTY else READY
  }

  lemma {:induction false} Fill(r: seq<State>, k: nat) returns (q: seq<State>)
    requires Run(r) && Calm(r[0]) && |r| == 1 && k <= N
    ensures Run(q) && r <= q && Calm(q[|q| - 1])
    ensures var s := q[|q| - 1]; s.writeIdx == k && s.readIdx == 0 && FirstReady(s, k)
  {
    if k == 0 {
      q := r;
    } else {
      q := Fill(r, k - 1);
      hide Run;
      var s := q[|q| - 1];
      assert Ix(s.writeIdx) == k - 1;
      q := LogCall(q);
    }
  }

  lemma {:induction false} Drain(r: seq<State>, k: nat) returns (q: seq<State>)
    requires Run(r) && Calm(r[|r| - 1]) && k <= N
    requires var s := r[|r| - 1]; s.readIdx == 0 && FirstReady(s, N)
    ensures Run(q) && r <= q && Calm(q[|q| - 1])
    ensures var s, t := q[|q| - 1], r[|r| - 1];
            s.writeIdx == t.writeIdx && s.readIdx == k && s.dropped == t.dropped && FirstEmpty(s, k)
  {
    if k == 0 {
      q := r;
    } else {
      q := Drain(r, k - 1);
      hide Run;
      var s := q[|q| - 1];
      assert Ix(s.readIdx) == k - 1;
      q := PrintCall(q);
    }
  }

  /** A full ring, one dropped call, and the consumer has caught up: the next ticket falls
      into slot 1 while the consumer waits at slot 0. */
  lemma Lagging(r: seq<State>) returns (q: seq<State>)
    requires Run(r) && Calm(r[0]) && |r| == 1
    ensures Run(q) && r <= q && Calm(q[|q| - 1])
    ensures var s := q[|q| - 1]; s.writeIdx == N + 1 && s.readIdx == N && s.dropped > 0 && FirstEmpty(s, N)
  {
    q := Fill(r, N);
    hide Run;
    q := DropCall(q);
    q := Drain(q, N);
  }

  /** One drop, then a published message that is never printed although no call is under
      way any more. */
  lemma DropLosesAMessage(start: State) returns (r: seq<State>)
    requires Init(start) && start.producers == [PIdle]
    ensures Run(r) && r[0] == start
    ensures var s := r[|r| - 1];
            && s.consumer == CExited && s.producers == [PIdle] && s.dropped > 0
            && N + 1 in s.accepted && N + 1 !in Tickets(s.printed)
  {
    r := Lagging([start]);
    var s := r[|r| - 1];
    assert Ix(N + 1) == 1 && Ix(N) == 0;
    AlwaysInv(r);
    NotPrinted(s, N + 1);
    hide Run, Tickets, Inv;
    r := LogCall(r);
    var t := Logged(s);
    r := Extend(r, t.(keep := false));
    r := Consume(r, t.(keep := false, consumer := CLast));
    r := Consume(r, t.(keep := false, consumer := CExited));
  }
}
