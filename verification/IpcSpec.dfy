/** One IPC connection: its state machine with backoff and generation stamps, its TX queue
    that outlives the link, and the wire it writes to. Every section the code runs under
    the connection's lock is one event, so that runs of events are all interleavings of
    sending threads with the I/O thread. */
module IpcSpec {
  import opened Common
  import RingQueue

  const TX_ROOM: nat := RingQueue.TX_QUEUE_SIZE - 1
  const SHM_SLOT_SIZE: nat := 8192
  const RETRY_INITIAL_MS: nat := 100
  const RETRY_MAX_MS: nat := 5000
  const TWO_32: nat := 0x1_0000_0000

  datatype LinkState = Disconnected | Connecting | Connected | Backoff

  /** A queued message: identity, total length and whether it is a control message. */
  datatype Msg = Msg(id: nat, len: nat, ctrl: bool)

  /** What goes out: a message in the shared ring, the socket notice of it, a message in
      the socket, or the offer of a shared ring. The sends of notice and offer are not
      looked at: either may be lost. */
  datatype Wire = Ring(msg: Msg) | Notify | NotifyLost | Socket(msg: Msg) | Setup | SetupLost

  datatype SendResult = Sent | Full | Failed

  /** What the ring answers to one message, whether a notice gets through, and what the
      socket answers. */
  datatype Answer = Answer(ring: bool, notice: bool, send: SendResult)

  datatype Conn = Conn(
    state: LinkState, fd: bool, generation: nat, retryDelay: nat, nextRetry: nat,
    fails: nat, shm: bool, queue: seq<Msg>)

  /** get_or_create_conn and create_passive_conn. */
  const NewConn: Conn := Conn(Disconnected, false, 1, RETRY_INITIAL_MS, 0, 0, false, [])
  const PassiveConn: Conn := Conn(Connected, true, 1, RETRY_INITIAL_MS, 0, 0, false, [])

  function MarkDisconnected(c: Conn): Conn {
    c.(state := Disconnected, fd := false, shm := false, generation := (c.generation + 1) % TWO_32)
  }

  function MarkConnectFailed(c: Conn, end: nat): Conn {
    var delay := if c.retryDelay != 0 then c.retryDelay else RETRY_INITIAL_MS;
    c.(fails := (c.fails + 1) % TWO_32,
       retryDelay := if delay >= RETRY_MAX_MS / 2 then RETRY_MAX_MS else delay * 2,
       nextRetry := end + delay, state := Backoff)
  }

  /** nos_ipc_try_connect_locked, begun at start: whether an attempt is made at all. */
  predicate Attempts(c: Conn, start: nat) {
    !(c.state == Backoff && start < c.nextRetry)
  }

  /** What a connection attempt meets: when it begins and ends, whether it succeeds, whether
      a shared ring could be set up (it is only tried with a named peer), and whether the
      offer of it gets through. */
  datatype Try = Try(start: nat, end: nat, ok: bool, ring: bool, offered: bool)

  function TryConnect(c: Conn, t: Try): (Conn, seq<Wire>) {
    if !Attempts(c, t.start) then (c, [])
    else if !t.ok then (MarkConnectFailed(c.(state := Connecting), t.end), [])
    else (c.(state := Connected, fd := true, generation := (c.generation + 1) % TWO_32,
             retryDelay := RETRY_INITIAL_MS, nextRetry := 0, fails := 0, shm := c.shm || t.ring),
          if !c.shm && t.ring then [if t.offered then Setup else SetupLost] else [])
  }

  predicate Linked(c: Conn) {
    c.state == Connected && c.fd
  }

  /** The locked part of nos_ipc_send_enqueue. */
  function Enqueue(c: Conn, m: Msg, t: Try): (Status, Conn, seq<Wire>) {
    if |c.queue| >= TX_ROOM then (Busy, c, [])
    else
      var d := c.(queue := c.queue + [m]);
      if Linked(d) then (Ok, d, [])
      else
        var (e, w) := TryConnect(d, t);
        (Ok, e, w)
  }

  /** Whether a message goes through the ring, and whether it goes at all. */
  predicate ByRing(shm: bool, m: Msg, a: Answer) {
    !m.ctrl && shm && m.len <= SHM_SLOT_SIZE && a.ring
  }

  predicate Goes(shm: bool, m: Msg, a: Answer) {
    ByRing(shm, m, a) || a.send == Sent
  }

  function WireOf(shm: bool, m: Msg, a: Answer): seq<Wire> {
    if ByRing(shm, m, a) then [Ring(m), if a.notice then Notify else NotifyLost] else [Socket(m)]
  }

  /** The loop of nos_ipc_process_tx; env answers its i-th message from now. */
  function Pump(c: Conn, env: nat -> Answer, i: nat): (Conn, seq<Wire>)
    decreases |c.queue|
  {
    if c.queue == [] then (c, [])
    else
      var m := c.queue[0];
      if Goes(c.shm, m, env(i)) then
        var (d, w) := Pump(c.(queue := c.queue[1..]), env, i + 1);
        (d, WireOf(c.shm, m, env(i)) + w)
      else if env(i).send == Full then (c, [])
      else (MarkDisconnected(c), [])
  }

  function ProcessTx(c: Conn, env: nat -> Answer): (Conn, seq<Wire>) {
    if Linked(c) then Pump(c, env, 0) else (c, [])
  }

  /** The locked part of nos_ipc_send_reply. */
  function SendReply(c: Conn, generation: nat, m: Msg): (Status, Conn) {
    if !Linked(c) || c.generation != generation then (Err, c)
    else if |c.queue| >= TX_ROOM then (Busy, c)
    else (Ok, c.(queue := c.queue + [m]))
  }

  /** The peer offers a ring: attached unless there is one. */
  function Attach(c: Conn, ok: bool): Conn {
    c.(shm := c.shm || ok)
  }

  // -------------------------------------------------- what one pump does

  /** How many messages from the front go before one does not. */
  function Run(shm: bool, q: seq<Msg>, env: nat -> Answer, i: nat): (n: nat)
    ensures n <= |q|
  {
    if q == [] || !Goes(shm, q[0], env(i)) then 0
    else 1 + Run(shm, q[1..], env, i + 1)
  }

  lemma {:induction false} RunIsLongest(shm: bool, q: seq<Msg>, env: nat -> Answer, i: nat)
    ensures var n := Run(shm, q, env, i);
            && (forall k :: 0 <= k < n ==> Goes(shm, q[k], env(i + k)))
            && (n < |q| ==> !Goes(shm, q[n], env(i + n)))
  {
    hide Goes;
    if q != [] && Goes(shm, q[0], env(i)) {
      RunIsLongest(shm, q[1..], env, i + 1);
      var n := Run(shm, q, env, i);
      forall k | 0 <= k < n ensures Goes(shm, q[k], env(i + k)) {
        if k > 0 { assert q[k] == q[1..][k - 1] && env(i + k) == env(i + 1 + (k - 1)); }
      }
      if n < |q| { assert q[n] == q[1..][n - 1] && env(i + n) == env(i + 1 + (n - 1)); }
    }
  }

  function Carries(w: Wire): seq<Msg> {
    match w
    case Ring(m) => [m]
    case Socket(m) => [m]
    case _ => []
  }

  /** The messages on a wire, in order. */
  function Carried(w: seq<Wire>): seq<Msg> {
    if w == [] then [] else Carried(w[..|w| - 1]) + Carries(w[|w| - 1])
  }

  lemma CarriedNext(w: seq<Wire>, x: Wire)
    ensures Carried(w + [x]) == Carried(w) + Carries(x)
  {
    assert (w + [x])[..|w|] == w;
  }

  lemma {:induction false} CarriedJoins(v: seq<Wire>, w: seq<Wire>)
    ensures Carried(v + w) == Carried(v) + Carried(w)
  {
    hide Carries;
    if w == [] {
      assert v + w == v;
    } else {
      var u, x := w[..|w| - 1], w[|w| - 1];
      CarriedJoins(v, u);
      CarriedNext(v + u, x);
      CarriedNext(u, x);
      assert w == u + [x] && v + w == (v + u) + [x];
      hide Carried;
    }
  }

  lemma WireCarries(shm: bool, m: Msg, a: Answer)
    ensures Carried(WireOf(shm, m, a)) == [m]
  {
    var w := WireOf(shm, m, a);
    if |w| == 2 {
      assert w[..1] == [Ring(m)];
      assert Carried(w[..1]) == Carried([]) + [m];
    }
  }

  lemma FrontAndRest(q: seq<Msg>, n: nat)
    requires q != [] && n <= |q| - 1
    ensures q[1..][n..] == q[n + 1..] && [q[0]] + q[1..][..n] == q[..n + 1]
  {
  }

  /** A pump sends exactly the longest front run of messages that go, in order, keeps
      the rest, and drops the link exactly if the first that stayed met a failure. */
  lemma PumpSendsTheRun(c: Conn, env: nat -> Answer, i: nat)
    ensures var (d, w) := Pump(c, env, i);
            var n := Run(c.shm, c.queue, env, i);
            && Carried(w) == c.queue[..n]
            && d == Pumped(c, n, n < |c.queue| && env(i + n).send == Failed)
  {
    PumpCarriesTheRun(c, env, i);
    PumpKeepsTheRest(c, env, i);
  }

  lemma {:induction false} PumpCarriesTheRun(c: Conn, env: nat -> Answer, i: nat)
    ensures Carried(Pump(c, env, i).1) == c.queue[..Run(c.shm, c.queue, env, i)]
    decreases |c.queue|
  {
    if c.queue != [] && Goes(c.shm, c.queue[0], env(i)) {
      var rest := c.(queue := c.queue[1..]);
      PumpCarriesTheRun(rest, env, i + 1);
      PumpWire(c, env, i);
      FrontAndRest(c.queue, Run(c.shm, rest.queue, env, i + 1));
      hide Pump, Carried, Goes;
    }
  }

  lemma {:induction false} PumpKeepsTheRest(c: Conn, env: nat -> Answer, i: nat)
    ensures var n := Run(c.shm, c.queue, env, i);
            Pump(c, env, i).0 == Pumped(c, n, n < |c.queue| && env(i + n).send == Failed)
    decreases |c.queue|
  {
    hide WireOf, ByRing, Carried, MarkDisconnected;
    if c.queue != [] && Goes(c.shm, c.queue[0], env(i)) {
      var rest := c.(queue := c.queue[1..]);
      PumpKeepsTheRest(rest, env, i + 1);
      var n := Run(c.shm, rest.queue, env, i + 1);
      FrontAndRest(c.queue, n);
      assert env(i + 1 + n) == env(i + (1 + n));
    } else {
      assert c.queue[0..] == c.queue;
    }
  }

  /** The connection after its first n messages went and, perhaps, the link failed. */
  function Pumped(c: Conn, n: nat, failed: bool): Conn
    requires n <= |c.queue|
  {
    var d := c.(queue := c.queue[n..]);
    if failed then MarkDisconnected(d) else d
  }

  lemma PumpWire(c: Conn, env: nat -> Answer, i: nat)
    requires c.queue != [] && Goes(c.shm, c.queue[0], env(i))
    ensures Carried(Pump(c, env, i).1) ==
              [c.queue[0]] + Carried(Pump(c.(queue := c.queue[1..]), env, i + 1).1)
  {
    var w := Pump(c.(queue := c.queue[1..]), env, i + 1).1;
    CarriedJoins(WireOf(c.shm, c.queue[0], env(i)), w);
    WireCarries(c.shm, c.queue[0], env(i));
  }

  // ------------------------------------------------------------- whole runs

  datatype Event =
    | Accept(msg: Msg, attempt: Try)
    | Transmit(env: nat -> Answer)
    | Reply(generation: nat, answer: Msg)
    | Reads
    | Receives
    | Stamps
    | PeerGone
    | Offer(ok: bool)

  /** A finished connection attempt; hurried: the link was marked down since the last one
      although it was not up. */
  datatype Attempt = Attempt(start: nat, end: nat, ok: bool, hurried: bool)

  /** The connection with what happened to it; flips counts the times the link came up or
      went down; reading: the I/O thread has seen the link up and is in the receive
      handler, which runs without the lock. */
  datatype World = World(
    conn: Conn, accepted: seq<Msg>, wire: seq<Wire>, flips: nat, attempts: seq<Attempt>,
    hurried: bool, reading: bool)

  function Start(c: Conn): World {
    World(c, [], [], 0, [], false, false)
  }

  /** What the I/O thread receives counts only while it reads; a close it sees may be that
      of a link that is down already. Taking a packet in and stamping the request in it
      change nothing here. */
  function Step(w: World, e: Event): World {
    var c := w.conn;
    match e
    case Accept(m, t) =>
      var (s, d, out) := Enqueue(c, m, t);
      if s != Ok then w
      else if Linked(c) || !Attempts(c, t.start) then w.(conn := d, accepted := w.accepted + [m])
      else World(d, w.accepted + [m], w.wire + out, w.flips + (if t.ok then 1 else 0),
                 w.attempts + [Attempt(t.start, t.end, t.ok, w.hurried)], false, w.reading)
    case Transmit(env) =>
      var (d, out) := ProcessTx(c, env);
      w.(conn := d, wire := w.wire + out, flips := w.flips + if Linked(c) && !Linked(d) then 1 else 0)
    case Reply(g, m) =>
      var (s, d) := SendReply(c, g, m);
      if s == Ok then w.(conn := d, accepted := w.accepted + [m]) else w
    case Reads =>
      w.(reading := Linked(c))
    case Receives => w.(reading := false)
    case Stamps => w
    case PeerGone =>
      if !w.reading then w
      else w.(conn := MarkDisconnected(c), flips := w.flips + 1, hurried := w.hurried || !Linked(c), reading := false)
    case Offer(ok) =>
      if !w.reading then w else w.(conn := Attach(c, ok), reading := false)
  }

  function After(w: World, events: seq<Event>): World {
    if events == [] then w else Step(After(w, events[..|events| - 1]), events[|events| - 1])
  }

  // -------------------------------------- accepted == transmitted ++ queued

  ghost predicate Conserved(w: World) {
    w.accepted == Carried(w.wire) + w.conn.queue && |w.conn.queue| <= TX_ROOM
  }

  lemma TryConnectCarries(c: Conn, t: Try)
    ensures TryConnect(c, t).0.queue == c.queue && Carried(TryConnect(c, t).1) == []
  {
    assert Carried([]) == [];
    forall x: Wire | x == Setup || x == SetupLost ensures Carried([x]) == [] {
      assert [x][..0] == [];
      assert Carried([x]) == Carried([]) + [];
    }
  }

  lemma Requeue(accepted: seq<Msg>, before: seq<Msg>, gone: seq<Msg>, queue: seq<Msg>, n: nat)
    requires accepted == before + queue && n <= |queue| && gone == queue[..n]
    ensures accepted == before + gone + queue[n..]
  {
  }

  lemma TransmitConserves(w: World, env: nat -> Answer)
    requires Conserved(w) && Linked(w.conn)
    ensures Conserved(Step(w, Transmit(env)))
  {
    hide Pump, Carried, Goes, Run, MarkDisconnected;
    var c := w.conn;
    CarriedJoins(w.wire, Pump(c, env, 0).1);
    PumpSendsTheRun(c, env, 0);
    var n := Run(c.shm, c.queue, env, 0);
    Requeue(w.accepted, Carried(w.wire), c.queue[..n], c.queue, n);
    PumpedQueue(c, n, n < |c.queue| && env(n).send == Failed);
    hide Pumped;
  }

  lemma PumpedQueue(c: Conn, n: nat, failed: bool)
    requires n <= |c.queue|
    ensures Pumped(c, n, failed).queue == c.queue[n..]
  {
  }

  lemma AcceptConserves(w: World, m: Msg, t: Try)
    requires Conserved(w) && |w.conn.queue| < TX_ROOM
    ensures Conserved(Step(w, Accept(m, t)))
  {
    var d := w.conn.(queue := w.conn.queue + [m]);
    TryConnectCarries(d, t);
    CarriedJoins(w.wire, TryConnect(d, t).1);
    hide TryConnect, Carried;
    assert w.accepted + [m] == Carried(w.wire) + d.queue;
  }

  lemma StepConserves(w: World, e: Event)
    requires Conserved(w)
    ensures Conserved(Step(w, e))
  {
    var c := w.conn;
    match e
    case Accept(m, t) => if |c.queue| < TX_ROOM { AcceptConserves(w, m, t); }
    case Transmit(env) =>
      if Linked(c) { TransmitConserves(w, env); } else { assert w.wire + [] == w.wire; }
    case Reply(g, m) =>
      assert w.accepted + [m] == Carried(w.wire) + (c.queue + [m]);
    case _ =>
  }

  /** Over every run, across full sockets, failures, disconnects and reconnects: what was
      accepted is what went out followed by what is still queued, in order. */
  lemma {:induction false} AcceptedIsSentThenQueued(c: Conn, events: seq<Event>)
    requires c.queue == []
    ensures var w := After(Start(c), events);
            w.accepted == Carried(w.wire) + w.conn.queue && |w.conn.queue| <= TX_ROOM
  {
    if events != [] {
      AcceptedIsSentThenQueued(c, events[..|events| - 1]);
      StepConserves(After(Start(c), events[..|events| - 1]), events[|events| - 1]);
    }
  }

  // ---------------------------------------------------------- ring and notice

  /** The send of a notice, whether or not it gets through. */
  predicate IsNotice(x: Wire) {
    x == Notify || x == NotifyLost
  }

  /** After every message in the ring its notice is sent at once, and at no other time; the
      ring carries only plain messages that fit a slot. */
  ghost predicate Paired(w: seq<Wire>) {
    forall i :: 0 <= i < |w| ==> PairAt(w, i)
  }

  ghost predicate PairAt(w: seq<Wire>, i: nat)
    requires i < |w|
  {
    && (w[i].Ring? ==> i + 1 < |w| && IsNotice(w[i + 1]) && !w[i].msg.ctrl && w[i].msg.len <= SHM_SLOT_SIZE)
    && (IsNotice(w[i]) ==> i > 0 && w[i - 1].Ring?)
  }

  lemma PairedJoins(v: seq<Wire>, w: seq<Wire>)
    requires Paired(v) && Paired(w)
    ensures Paired(v + w)
  {
    forall i | 0 <= i < |v + w| ensures PairAt(v + w, i) {
      assert if i < |v| then PairAt(v, i) else PairAt(w, i - |v|);
    }
  }

  lemma {:induction false} PumpPaired(c: Conn, env: nat -> Answer, i: nat)
    ensures Paired(Pump(c, env, i).1)
    decreases |c.queue|
  {
    if c.queue != [] && Goes(c.shm, c.queue[0], env(i)) {
      var rest := c.(queue := c.queue[1..]);
      PumpPaired(rest, env, i + 1);
      PairedJoins(WireOf(c.shm, c.queue[0], env(i)), Pump(rest, env, i + 1).1);
    }
  }

  lemma {:induction false} RingAndNoticePaired(c: Conn, events: seq<Event>)
    ensures Paired(After(Start(c), events).wire)
  {
    if events != [] {
      var w, e := After(Start(c), events[..|events| - 1]), events[|events| - 1];
      RingAndNoticePaired(c, events[..|events| - 1]);
      match e
      case Accept(m, t) =>
        PairedJoins(w.wire, TryConnect(w.conn.(queue := w.conn.queue + [m]), t).1);
      case Transmit(env) =>
        PumpPaired(w.conn, env, 0);
        PairedJoins(w.wire, ProcessTx(w.conn, env).1);
      case _ =>
    }
  }
}
