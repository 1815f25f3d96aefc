/** Whole runs of one IPC connection: how far apart its connection attempts are. */
module IpcRuns {
  import opened Common
  import opened IpcSpec

  // ---------------------------------------------------------------- backoff

  function Doublings(k: nat): nat {
    if k <= 1 then RETRY_INITIAL_MS else 2 * Doublings(k - 1)
  }

  /** The wait after the k-th failure in a row. */
  function Delay(k: nat): nat {
    if Doublings(k) < RETRY_MAX_MS then Doublings(k) else RETRY_MAX_MS
  }

  /** How many attempts at the end failed in a row. */
  function Streak(a: seq<Attempt>): nat {
    if a == [] || a[|a| - 1].ok then 0 else Streak(a[..|a| - 1]) + 1
  }

  /** The retry delay doubles from one failure to the next, up to its cap. */
  lemma DelayDoubles(k: nat)
    requires k > 0
    ensures Delay(k + 1) == if Delay(k) >= RETRY_MAX_MS / 2 then RETRY_MAX_MS else Delay(k) * 2
    ensures Delay(k) > 0
  {
    DoublingsGrow(k);
  }

  lemma {:induction false} DoublingsGrow(k: nat)
    ensures Doublings(k) >= RETRY_INITIAL_MS
  {
    if k > 1 { DoublingsGrow(k - 1); }
  }

  /** The state of the backoff against the history of attempts. */
  ghost predicate BackoffOk(w: World) {
    var c, k := w.conn, Streak(w.attempts);
    && c.state != Connecting && (c.fd <==> c.state == Connected)
    && c.retryDelay == Delay(k + 1) && c.fails == k % TWO_32
    && (c.state == Backoff ==> k > 0 && c.nextRetry == w.attempts[|w.attempts| - 1].end + Delay(k))
    && (k > 0 && !w.hurried ==> c.state == Backoff)
    && (c.state == Connected ==> k == 0)
    && (w.hurried ==> c.state == Disconnected)
  }

  /** Attempt i + 1 after a failed attempt i waits for the backoff, unless hurried. */
  ghost predicate Spaced(a: seq<Attempt>) {
    forall i :: 0 <= i < |a| - 1 ==> SpacedAt(a, i)
  }

  ghost predicate SpacedAt(a: seq<Attempt>, i: nat)
    requires i < |a| - 1
  {
    !a[i].ok && !a[i + 1].hurried ==> a[i + 1].start >= a[i].end + Delay(Streak(a[..i + 1]))
  }

  lemma StreakGrows(a: seq<Attempt>, x: Attempt)
    ensures Streak(a + [x]) == if x.ok then 0 else Streak(a) + 1
    ensures Streak(a) > 0 <==> a != [] && !a[|a| - 1].ok
    ensures Delay(1) == RETRY_INITIAL_MS
  {
    assert (a + [x])[..|a|] == a;
  }

  lemma SpacedGrows(a: seq<Attempt>, x: Attempt)
    requires Spaced(a)
    requires a != [] && !a[|a| - 1].ok && !x.hurried ==> x.start >= a[|a| - 1].end + Delay(Streak(a))
    ensures Spaced(a + [x])
  {
    hide Delay, Streak;
    var b := a + [x];
    forall i | 0 <= i < |b| - 1 ensures SpacedAt(b, i) {
      assert b[..i + 1] == a[..i + 1];
      if i + 1 < |a| { assert SpacedAt(a, i); } else { assert a[..i + 1] == a; }
    }
  }

  lemma StepBackoff(w: World, e: Event)
    requires BackoffOk(w) && Spaced(w.attempts)
    ensures BackoffOk(Step(w, e)) && Spaced(Step(w, e).attempts)
  {
    match e
    case Accept(m, t) => AcceptBackoff(w, m, t);
    case Transmit(env) => hide Delay, Streak, Spaced, Pump, Run, Carried; PumpSendsTheRun(w.conn, env, 0);
    case _ => hide Delay, Streak, Spaced;
  }

  lemma AcceptBackoff(w: World, m: Msg, t: Try)
    requires BackoffOk(w) && Spaced(w.attempts)
    ensures BackoffOk(Step(w, Accept(m, t))) && Spaced(Step(w, Accept(m, t)).attempts)
  {
    hide Delay, Streak, Spaced;
    var c, k := w.conn, Streak(w.attempts);
    var x := Attempt(t.start, t.end, t.ok, w.hurried);
    DelayDoubles(k + 1);
    StreakGrows(w.attempts, x);
    if |c.queue| < TX_ROOM && !Linked(c) && Attempts(c, t.start) {
      SpacedGrows(w.attempts, x);
      TryBackoff(w, m, t);
    }
  }

  lemma TryBackoff(w: World, m: Msg, t: Try)
    requires BackoffOk(w) && |w.conn.queue| < TX_ROOM && !Linked(w.conn) && Attempts(w.conn, t.start)
    ensures BackoffOk(Step(w, Accept(m, t)))
  {
    hide Delay, Streak;
    var k := Streak(w.attempts);
    DelayDoubles(k + 1);
    StreakGrows(w.attempts, Attempt(t.start, t.end, t.ok, w.hurried));
    if !t.ok { CountUp(k); }
  }

  lemma CountUp(k: nat)
    ensures (k % TWO_32 + 1) % TWO_32 == (k + 1) % TWO_32
  {
  }

  /** Over every run from a new connection of either kind: the retry state is that of the
      k failures in a row so far, the k-th of which sets a wait of min(100 * 2^(k-1), 5000)
      ms, and attempts in a streak of failures keep that distance. The one exception is a
      streak in which the I/O thread marks the link down while it is not up. */
  lemma {:induction false} AttemptsKeepTheirDistance(c: Conn, events: seq<Event>)
    requires c == NewConn || c == PassiveConn
    ensures BackoffOk(After(Start(c), events)) && Spaced(After(Start(c), events).attempts)
  {
    if events != [] {
      var n := |events| - 1;
      AttemptsKeepTheirDistance(c, events[..n]);
      StepBackoff(After(Start(c), events[..n]), events[n]);
    }
  }

  /** Within a streak an attempt is made if and only if its wait is over, or the link was
      marked down since the last one although it was not up. */
  lemma AttemptMadeIff(c: Conn, events: seq<Event>, start: nat)
    requires c == NewConn || c == PassiveConn
    ensures var w := After(Start(c), events);
            var k := Streak(w.attempts);
            k > 0 ==>
              (Attempts(w.conn, start) <==> w.hurried || start >= w.attempts[|w.attempts| - 1].end + Delay(k))
  {
    hide Delay, Streak, After, Spaced;
    AttemptsKeepTheirDistance(c, events);
  }

  const Fine: Answer := Answer(false, false, Sent)
  const Broken: Answer := Answer(false, false, Failed)
  const Plain: Msg := Msg(0, 40, false)
  const Succeeds: Try := Try(0, 0, true, false, false)
  const Fails: Try := Try(1000, 1000, false, false, false)

  function Always(a: Answer): nat -> Answer {
    (i: nat) => a
  }

  const LateClose: seq<Event> :=
    [Accept(Plain, Succeeds), Reads, Transmit(Always(Broken)), Accept(Plain, Fails), PeerGone, Accept(Plain, Fails)]

  lemma AfterNext(w: World, events: seq<Event>, e: Event)
    ensures After(w, events + [e]) == Step(After(w, events), e)
  {
    assert (events + [e])[..|events|] == events;
  }

  lemma AfterFirst(c: Conn, events: seq<Event>, n: nat)
    requires n < |events|
    ensures After(Start(c), events[..n + 1]) == Step(After(Start(c), events[..n]), events[n])
  {
    assert events[..n + 1] == events[..n] + [events[n]];
    AfterNext(Start(c), events[..n], events[n]);
  }

  /** The exception happens, because the I/O thread looks at the state without the lock: it
      has seen the link up when a sender breaks it and fails to connect again; the close
      it then finds on the old socket skips the wait of that failure. */
  lemma LateCloseSkipsBackoff()
    ensures var w := After(Start(NewConn), LateClose);
            && |w.attempts| == 3 && w.attempts[0].ok && !w.attempts[1].ok
            && w.attempts[2].hurried && w.attempts[2].start < w.attempts[1].end + Delay(1)
  {
    hide After, ProcessTx, Doublings;
    LateCloseUpTo3();
    AfterFirst(NewConn, LateClose, 3);
    AfterFirst(NewConn, LateClose, 4);
    AfterFirst(NewConn, LateClose, 5);
    assert LateClose[..6] == LateClose;
    assert Delay(1) > 0 by { DoublingsGrow(1); }
  }

  /** The link was made, seen up, and broken. */
  lemma LateCloseUpTo3()
    ensures var w := After(Start(NewConn), LateClose[..3]);
            && w.reading && w.conn.state == Disconnected && !w.conn.fd && |w.conn.queue| == 1
            && w.attempts == [Attempt(0, 0, true, false)] && !w.hurried
  {
    assert LateClose[..0] == [];
    AfterFirst(NewConn, LateClose, 0);
    AfterFirst(NewConn, LateClose, 1);
    AfterFirst(NewConn, LateClose, 2);
    var w := After(Start(NewConn), LateClose[..2]);
    assert w.conn.queue == [Plain];
    assert Pump(w.conn, Always(Broken), 0) == (MarkDisconnected(w.conn), []);
  }
}
