/** Which requests a connection can still answer: each carries the stamp the connection had
    when its packet was handled, which is after it was received. */
module IpcReplies {
  import opened Common
  import opened IpcSpec
  import opened IpcRuns

  // ------------------------------------------------------------------ stamps

  ghost predicate Stamped(w: World) {
    w.conn.generation == (1 + w.flips) % TWO_32
  }

  lemma TransmitStamps(w: World, env: nat -> Answer)
    requires Stamped(w)
    ensures var u := Step(w, Transmit(env));
            Stamped(u) && u.flips >= w.flips && (Linked(w.conn) ==> (Linked(u.conn) <==> u.flips == w.flips))
  {
    hide Pump, Run, Carried;
    CountUp(1 + w.flips);
    PumpSendsTheRun(w.conn, env, 0);
  }

  lemma StepStamps(w: World, e: Event)
    requires Stamped(w)
    ensures Stamped(Step(w, e)) && Step(w, e).flips >= w.flips
    ensures Linked(w.conn) ==> (Linked(Step(w, e).conn) <==> Step(w, e).flips == w.flips)
  {
    var g := 1 + w.flips;
    CountUp(g);
    match e
    case Transmit(env) => TransmitStamps(w, env);
    case _ =>
  }

  function At(c: Conn, events: seq<Event>, k: nat): World
    requires k <= |events|
  {
    After(Start(c), events[..k])
  }

  lemma AtNext(c: Conn, events: seq<Event>, k: nat)
    requires k < |events|
    ensures At(c, events, k + 1) == Step(At(c, events, k), events[k])
  {
    assert events[..k + 1][..k] == events[..k];
  }

  lemma {:induction false} AlwaysStamped(c: Conn, events: seq<Event>, k: nat)
    requires (c == NewConn || c == PassiveConn) && k <= |events|
    ensures Stamped(At(c, events, k))
  {
    if k > 0 {
      AlwaysStamped(c, events, k - 1);
      AtNext(c, events, k - 1);
      StepStamps(At(c, events, k - 1), events[k - 1]);
    }
  }

  ghost predicate UpAllAlong(c: Conn, events: seq<Event>, p: nat, q: nat)
    requires p <= q <= |events|
  {
    forall k :: p <= k <= q ==> Linked(At(c, events, k).conn)
  }

  lemma UpHere(c: Conn, events: seq<Event>, p: nat)
    requires p <= |events| && Linked(At(c, events, p).conn)
    ensures UpAllAlong(c, events, p, p)
  {
  }

  lemma UpStep(c: Conn, events: seq<Event>, p: nat, q: nat)
    requires p < q <= |events|
    ensures UpAllAlong(c, events, p, q) <==> UpAllAlong(c, events, p, q - 1) && Linked(At(c, events, q).conn)
    ensures UpAllAlong(c, events, p, q - 1) ==> Linked(At(c, events, q - 1).conn)
  {
    hide At, Linked;
  }

  /** From a moment when the link is up, it did not flip exactly if it was up all along. */
  lemma {:induction false} NoFlipIffStayedUp(c: Conn, events: seq<Event>, p: nat, q: nat)
    requires (c == NewConn || c == PassiveConn) && p <= q <= |events| && Linked(At(c, events, p).conn)
    ensures At(c, events, q).flips >= At(c, events, p).flips
    ensures At(c, events, q).flips == At(c, events, p).flips <==>
              UpAllAlong(c, events, p, q)
    decreases q - p
  {
    hide *;
    if p == q {
      assert UpAllAlong(c, events, p, q) by { UpHere(c, events, p); }
    } else {
      NoFlipIffStayedUp(c, events, p, q - 1);
      AlwaysStamped(c, events, q - 1);
      AtNext(c, events, q - 1);
      StepStamps(At(c, events, q - 1), events[q - 1]);
      UpStep(c, events, p, q);
    }
  }

  // ---------------------------------------------------------------- requests

  /** A request received after `arrived` events of a run and stamped after `stamped`. */
  datatype Request = Request(arrived: nat, stamped: nat, stamp: nat)

  /** When the packet the I/O thread has in hand was received: the thread had seen the link
      up, and the socket it received on was open. */
  function InHand(c: Conn, events: seq<Event>): Option<nat> {
    if events == [] then None
    else
      var n := |events| - 1;
      var w := After(Start(c), events[..n]);
      match events[n]
      case Reads => None
      case Receives => if w.reading && Linked(w.conn) then Some(n) else None
      case _ => InHand(c, events[..n])
  }

  /** The requests handed on in a run, in order; a packet that announces a shared ring can
      bring several. */
  function Requests(c: Conn, events: seq<Event>): seq<Request> {
    if events == [] then []
    else
      var n := |events| - 1;
      var held := InHand(c, events[..n]);
      if events[n].Stamps? && held.Some? then
        Requests(c, events[..n]) + [Request(held.value, n, After(Start(c), events[..n]).conn.generation)]
      else Requests(c, events[..n])
  }

  /** Received over a link that was up, and stamped later with what the connection had then. */
  ghost predicate Handled(c: Conn, events: seq<Event>, r: Request) {
    && r.arrived < r.stamped < |events|
    && events[r.arrived] == Receives && events[r.stamped] == Stamps
    && Linked(At(c, events, r.arrived).conn)
    && r.stamp == At(c, events, r.stamped).conn.generation
  }

  lemma {:induction false} InHandWas(c: Conn, events: seq<Event>)
    requires InHand(c, events).Some?
    ensures var p := InHand(c, events).value;
            p < |events| && events[p] == Receives && Linked(At(c, events, p).conn)
  {
    var n := |events| - 1;
    if !events[n].Receives? {
      InHandWas(c, events[..n]);
      var p := InHand(c, events).value;
      assert events[..n][..p] == events[..p];
    }
  }

  lemma HandledLater(c: Conn, events: seq<Event>, n: nat, r: Request)
    requires n <= |events| && Handled(c, events[..n], r)
    ensures Handled(c, events, r)
  {
    assert events[..n][..r.arrived] == events[..r.arrived] && events[..n][..r.stamped] == events[..r.stamped];
  }

  lemma {:induction false} RequestsHandled(c: Conn, events: seq<Event>, r: Request)
    requires r in Requests(c, events)
    ensures Handled(c, events, r)
  {
    var n := |events| - 1;
    if r in Requests(c, events[..n]) {
      RequestsHandled(c, events[..n], r);
      HandledLater(c, events, n, r);
    } else {
      InHandWas(c, events[..n]);
      assert events[..n][..r.arrived] == events[..r.arrived];
    }
  }

  /** A reply to a request of the run is accepted exactly if the link is up, has flipped a
      multiple of 2^32 times since the request was stamped, and the queue has room. */
  lemma ReplyAcceptedIff(c: Conn, events: seq<Event>, r: Request, m: Msg)
    requires (c == NewConn || c == PassiveConn) && r in Requests(c, events)
    ensures Handled(c, events, r)
    ensures var stamped, now := At(c, events, r.stamped), At(c, events, |events|);
            && now.flips >= stamped.flips
            && (SendReply(now.conn, r.stamp, m).0 == Ok <==>
                  Linked(now.conn) && (now.flips - stamped.flips) % TWO_32 == 0 && |now.conn.queue| < TX_ROOM)
  {
    hide At, Linked, UpAllAlong, Requests, After;
    RequestsHandled(c, events, r);
    AlwaysStamped(c, events, r.stamped);
    AlwaysStamped(c, events, |events|);
    FlipsGrow(c, events, r.stamped, |events|);
    SameStampIff(1 + At(c, events, r.stamped).flips, 1 + At(c, events, |events|).flips);
  }

  lemma {:induction false} FlipsGrow(c: Conn, events: seq<Event>, p: nat, q: nat)
    requires (c == NewConn || c == PassiveConn) && p <= q <= |events|
    ensures At(c, events, q).flips >= At(c, events, p).flips
    decreases q - p
  {
    hide *;
    if p < q {
      FlipsGrow(c, events, p, q - 1);
      AlwaysStamped(c, events, q - 1);
      AtNext(c, events, q - 1);
      StepStamps(At(c, events, q - 1), events[q - 1]);
    }
  }

  lemma SameStampIff(a: nat, b: nat)
    requires a <= b
    ensures a % TWO_32 == b % TWO_32 <==> (b - a) % TWO_32 == 0
  {
  }

  /** No flip of the link between the receipt of a request and its stamp. */
  ghost predicate StampedAtOnce(c: Conn, events: seq<Event>, r: Request)
    requires Handled(c, events, r)
  {
    At(c, events, r.stamped).flips == At(c, events, r.arrived).flips
  }

  /** While the stamps have not come round: if no flip fell between receipt and stamp, a
      reply is accepted exactly if the link stayed up since the request was received and
      there is room. If one did, the link did not stay up, and the reply is accepted
      all the same if the link is up and has not flipped since the stamp. */
  lemma ReplyNeedsTheSameLink(c: Conn, events: seq<Event>, r: Request, m: Msg)
    requires (c == NewConn || c == PassiveConn) && r in Requests(c, events)
    requires Handled(c, events, r) && At(c, events, |events|).flips < At(c, events, r.arrived).flips + TWO_32
    ensures var stamped, now := At(c, events, r.stamped), At(c, events, |events|);
            var ok := SendReply(now.conn, r.stamp, m).0 == Ok;
            && (StampedAtOnce(c, events, r) ==>
                  (ok <==> UpAllAlong(c, events, r.arrived, |events|) && |now.conn.queue| < TX_ROOM))
            && (!StampedAtOnce(c, events, r) ==>
                  && !UpAllAlong(c, events, r.arrived, |events|)
                  && (ok <==> Linked(now.conn) && now.flips == stamped.flips && |now.conn.queue| < TX_ROOM))
  {
    hide At, Linked, SendReply, UpAllAlong, Requests, After;
    ReplyAcceptedIff(c, events, r, m);
    FlipsGrow(c, events, r.arrived, r.stamped);
    NoFlipIffStayedUp(c, events, r.arrived, |events|);
    UpAtEnd(c, events, r.arrived);
    SmallIsZero(At(c, events, |events|).flips - At(c, events, r.stamped).flips);
  }

  lemma UpAtEnd(c: Conn, events: seq<Event>, p: nat)
    requires p <= |events|
    ensures UpAllAlong(c, events, p, |events|) ==> Linked(At(c, events, |events|).conn)
  {
    hide At, Linked;
  }

  lemma SmallIsZero(d: nat)
    requires d < TWO_32
    ensures d % TWO_32 == 0 <==> d == 0
  {
  }

  // -------------------------------------------------- a link made in between

  /** A new connection whose first message was taken and made the link. */
  function Made(): World {
    World(NewConn.(state := Connected, fd := true, generation := 2, queue := [Plain]),
          [Plain], [], 1, [Attempt(0, 0, true, false)], false, false)
  }

  lemma FirstAccept(events: seq<Event>)
    requires |events| > 0 && events[0] == Accept(Plain, Succeeds)
    ensures After(Start(NewConn), events[..1]) == Made()
  {
    assert events[..0] == [];
    AfterFirst(NewConn, events, 0);
  }

  lemma AllGoes(w: World)
    requires Linked(w.conn)
    ensures var u := Step(w, Transmit(Always(Fine)));
            u.conn == w.conn.(queue := []) && u.flips == w.flips && u.reading == w.reading
  {
    var c, env := w.conn, Always(Fine);
    PumpSendsTheRun(c, env, 0);
    RunIsLongest(c.shm, c.queue, env, 0);
    hide Pump, Run, Carried, Pumped;
    var n := Run(c.shm, c.queue, env, 0);
    assert n == |c.queue|;
    assert Pumped(c, n, false) == c.(queue := []) by { AllPumped(c); }
  }

  lemma AllPumped(c: Conn)
    ensures Pumped(c, |c.queue|, false) == c.(queue := [])
  {
  }

  lemma LinkBreaks(w: World)
    requires Linked(w.conn) && w.conn.queue == [Plain]
    ensures var u := Step(w, Transmit(Always(Broken)));
            u.conn == MarkDisconnected(w.conn) && u.flips == w.flips + 1 && u.attempts == w.attempts && u.reading == w.reading
  {
    assert Pump(w.conn, Always(Broken), 0) == (MarkDisconnected(w.conn), []);
  }

  const SlowStamp: seq<Event> :=
    [Accept(Plain, Succeeds), Reads, Receives, Transmit(Always(Broken)), Accept(Plain, Succeeds), Stamps]

  /** A request is received; before it is stamped a sender finds the link broken and makes
      it again. Its reply is accepted over the new link, two flips later. */
  lemma SlowStampTakesTheNewLink(m: Msg)
    ensures Requests(NewConn, SlowStamp) == [Request(2, 5, 4)]
    ensures Handled(NewConn, SlowStamp, Request(2, 5, 4))
    ensures At(NewConn, SlowStamp, 6).flips == At(NewConn, SlowStamp, 2).flips + 2
    ensures SendReply(At(NewConn, SlowStamp, 6).conn, 4, m).0 == Ok && !UpAllAlong(NewConn, SlowStamp, 2, 6)
  {
    SlowStampWorlds();
    SlowStampRequests();
    RequestsHandled(NewConn, SlowStamp, Request(2, 5, 4));
    var w := At(NewConn, SlowStamp, 4);
    assert !Linked(w.conn);
  }

  /** The worlds on the way. */
  lemma SlowStampWorlds()
    ensures var u, v, w := At(NewConn, SlowStamp, 2), At(NewConn, SlowStamp, 4), At(NewConn, SlowStamp, 6);
            && u.reading && Linked(u.conn) && u.flips == 1
            && v.conn.state == Disconnected && v.flips == 2
            && Linked(w.conn) && w.conn.generation == 4 && w.flips == 3 && |w.conn.queue| == 2
            && At(NewConn, SlowStamp, 5) == w
  {
    hide After;
    FirstAccept(SlowStamp);
    AfterFirst(NewConn, SlowStamp, 1);
    AfterFirst(NewConn, SlowStamp, 2);
    AfterFirst(NewConn, SlowStamp, 3);
    LinkBreaks(After(Start(NewConn), SlowStamp[..3]));
    hide ProcessTx;
    AfterFirst(NewConn, SlowStamp, 4);
    AfterFirst(NewConn, SlowStamp, 5);
  }

  lemma SlowStampRequests()
    ensures Requests(NewConn, SlowStamp) == [Request(2, 5, 4)]
  {
    SlowStampWorlds();
    hide After;
    var e := SlowStamp;
    assert e[..5][..4] == e[..4] && e[..4][..3] == e[..3] && e[..3][..2] == e[..2] && e[..2][..1] == e[..1] && e[..1][..0] == [];
    assert InHand(NewConn, e[..3]) == Some(2);
    assert InHand(NewConn, e[..4]) == Some(2);
    assert InHand(NewConn, e[..5]) == Some(2);
    assert Requests(NewConn, e[..1]) == [];
    assert Requests(NewConn, e[..3]) == [];
    assert Requests(NewConn, e[..5]) == [];
  }

  // ---------------------------------------------------------- stamps come round

  /** A link that breaks and is made again n times, with everything sent in between. */
  function Cycles(n: nat): seq<Event> {
    if n == 0 then [] else Cycles(n - 1) + [Reads, PeerGone, Accept(Plain, Succeeds), Transmit(Always(Fine))]
  }

  function AfterCycle(w: World): World {
    Step(Step(Step(Step(w, Reads), PeerGone), Accept(Plain, Succeeds)), Transmit(Always(Fine)))
  }

  lemma AfterFour(w: World, events: seq<Event>, a: Event, b: Event, c: Event, d: Event)
    ensures After(w, events + [a, b, c, d]) == Step(Step(Step(Step(After(w, events), a), b), c), d)
  {
    hide After, Step;
    var two := events + [a] + [b];
    AfterNext(w, events, a);
    AfterNext(w, events + [a], b);
    AfterNext(w, two, c);
    AfterNext(w, two + [c], d);
    assert two + [c] + [d] == events + [a, b, c, d];
  }

  /** A request is received and stamped over a new link, which then breaks n times. */
  const Asked: seq<Event> := [Accept(Plain, Succeeds), Transmit(Always(Fine)), Reads, Receives, Stamps]

  lemma AskedRequest()
    ensures Requests(NewConn, Asked) == [Request(3, 4, 2)]
    ensures var w := After(Start(NewConn), Asked); Linked(w.conn) && w.flips == 1 && w.conn.queue == []
    ensures At(NewConn, Asked, 4).flips == 1
  {
    AskedWorlds();
    hide After;
    var e := Asked;
    assert e[..4][..3] == e[..3] && e[..3][..2] == e[..2] && e[..2][..1] == e[..1] && e[..1][..0] == [];
    assert InHand(NewConn, e[..4]) == Some(3);
    assert Requests(NewConn, e[..1]) == [];
    assert Requests(NewConn, e[..2]) == [];
    assert Requests(NewConn, e[..4]) == [];
  }

  lemma AskedWorlds()
    ensures var u, v, w := After(Start(NewConn), Asked[..3]), After(Start(NewConn), Asked[..4]), After(Start(NewConn), Asked);
            && u.reading && Linked(u.conn) && v.conn.generation == 2 && v.flips == 1
            && Linked(w.conn) && w.flips == 1 && w.conn.queue == []
  {
    hide After, ProcessTx;
    assert Asked[..5] == Asked;
    FirstAccept(Asked);
    AfterFirst(NewConn, Asked, 1);
    AllGoes(Made());
    AfterFirst(NewConn, Asked, 2);
    AfterFirst(NewConn, Asked, 3);
    AfterFirst(NewConn, Asked, 4);
  }

  lemma {:induction false} CyclesFlipTwice(n: nat)
    ensures var w := After(Start(NewConn), Asked + Cycles(n));
            w.flips == 1 + 2 * n && Linked(w.conn) && w.conn.queue == []
  {
    hide Step, After;
    AskedRequest();
    if n == 0 {
      assert Asked + Cycles(0) == Asked;
    } else {
      CyclesFlipTwice(n - 1);
      AfterFour(Start(NewConn), Asked + Cycles(n - 1), Reads, PeerGone, Accept(Plain, Succeeds), Transmit(Always(Fine)));
      assert Asked + Cycles(n) == Asked + Cycles(n - 1) + [Reads, PeerGone, Accept(Plain, Succeeds), Transmit(Always(Fine))];
      OneCycle(After(Start(NewConn), Asked + Cycles(n - 1)));
    }
  }

  lemma OneCycle(w: World)
    requires w.conn.queue == [] && Linked(w.conn)
    ensures var u := AfterCycle(w); u.flips == w.flips + 2 && Linked(u.conn) && u.conn.queue == []
  {
    hide ProcessTx;
    AllGoes(Step(Step(Step(w, Reads), PeerGone), Accept(Plain, Succeeds)));
  }

  lemma {:induction false} RequestsStay(c: Conn, events: seq<Event>, k: nat, r: Request)
    requires k <= |events| && r in Requests(c, events[..k])
    ensures r in Requests(c, events)
    decreases |events|
  {
    hide After, InHand;
    if k == |events| {
      assert events[..k] == events;
    } else {
      var n := |events| - 1;
      assert events[..n][..k] == events[..k];
      RequestsStay(c, events[..n], k, r);
    }
  }

  /** The stamps do come round: after 2^31 breaks a request from the first link would be
      answered over the last. */
  lemma StaleReplyAfterWrap(m: Msg)
    ensures var run := Asked + Cycles(TWO_32 / 2);
            var r := Request(3, 4, 2);
            && r in Requests(NewConn, run) && Handled(NewConn, run, r)
            && At(NewConn, run, |run|).flips == At(NewConn, run, 4).flips + TWO_32
            && SendReply(At(NewConn, run, |run|).conn, r.stamp, m).0 == Ok
  {
    var run := Asked + Cycles(TWO_32 / 2);
    var r := Request(3, 4, 2);
    AskedRequest();
    CyclesFlipTwice(TWO_32 / 2);
    hide Cycles, Step, SendReply, Requests, After;
    assert run[..5] == Asked && run[..4] == Asked[..4] && run[..|run|] == run;
    RequestsStay(NewConn, run, 5, r);
    ReplyAcceptedIff(NewConn, run, r, m);
  }
}
