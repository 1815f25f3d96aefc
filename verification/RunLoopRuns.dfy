/** Runs of the run loop in which something expected does not happen: a component is not
    started, a timer is overslept, a wait has no end. */
module RunLoopRuns {
  import opened Common
  import opened TimerHeap
  import opened TimerFiring
  import opened TimerSteps
  import opened RunLoop

  // ------------------------------------------------------------ building runs

  /** The timers at each moment of a run, and those at the moments the loop looks at them. */
  ghost function Seen(r: seq<State>): set<Timers> {
    set s | s in r :: s.timers
  }

  ghost function Looked(r: seq<State>): set<Timers> {
    set s | s in r && s.pc.ReadHeap? :: s.timers
  }

  /** q goes on from r, with no change to the timers. */
  ghost predicate Adds(q: seq<State>, r: seq<State>, looked: set<Timers>) {
    Seen(q) == Seen(r) && Looked(q) == Looked(r) + looked
  }

  lemma SeenNext(r: seq<State>, s': State)
    requires |r| > 0
    ensures Seen(r + [s']) == Seen(r) + {s'.timers} && r[|r| - 1].timers in Seen(r)
    ensures Looked(r + [s']) == Looked(r) + if s'.pc.ReadHeap? then {s'.timers} else {}
  {
    var q := r + [s'];
    assert forall s :: s in q <==> s in r || s == s';
    assert forall t :: t in Seen(q) <==> t in Seen(r) || t == s'.timers;
    assert forall t :: t in Looked(q) <==> t in Looked(r) || (s'.pc.ReadHeap? && t == s'.timers);
  }

  lemma ExtendPath(r: seq<State>, s': State, limit: nat) returns (q: seq<State>)
    requires Path(r, limit) && Next(r[|r| - 1], s', limit)
    ensures |r| > 0 && q == r + [s'] && Path(q, limit)
    ensures Seen(q) == Seen(r) + {s'.timers} && r[|r| - 1].timers in Seen(r)
    ensures Looked(q) == Looked(r) + if s'.pc.ReadHeap? then {s'.timers} else {}
  {
    q := r + [s'];
    SeenNext(r, s');
    forall i | 0 <= i < |q| - 1 ensures Next(q[i], q[i + 1], limit) {
      if i < |r| - 1 { assert Next(r[i], r[i + 1], limit); }
    }
  }

  lemma ConsumerPath(r: seq<State>, s': State, limit: nat) returns (q: seq<State>)
    requires Path(r, limit) && Consumer(r[|r| - 1], s', limit)
    ensures |r| > 0 && q == r + [s'] && Path(q, limit)
    ensures Seen(q) == Seen(r) + {s'.timers} && r[|r| - 1].timers in Seen(r)
    ensures Looked(q) == Looked(r) + if s'.pc.ReadHeap? then {s'.timers} else {}
  {
    q := ExtendPath(r, s', limit);
  }

  lemma PeerPath(r: seq<State>, s': State, i: nat, limit: nat) returns (q: seq<State>)
    requires Path(r, limit) && i < |r[|r| - 1].peers| && PeerStep(r[|r| - 1], s', i, limit)
    ensures |r| > 0 && q == r + [s'] && Path(q, limit)
    ensures Seen(q) == Seen(r) + {s'.timers} && r[|r| - 1].timers in Seen(r)
    ensures Looked(q) == Looked(r) + if s'.pc.ReadHeap? then {s'.timers} else {}
  {
    q := ExtendPath(r, s', limit);
  }

  lemma EnvironmentPath(r: seq<State>, s': State, limit: nat) returns (q: seq<State>)
    requires Path(r, limit) && Environment(r[|r| - 1], s')
    ensures |r| > 0 && q == r + [s'] && Path(q, limit)
    ensures Seen(q) == Seen(r) + {s'.timers} && r[|r| - 1].timers in Seen(r)
    ensures Looked(q) == Looked(r) + if s'.pc.ReadHeap? then {s'.timers} else {}
  {
    q := ExtendPath(r, s', limit);
  }

  /** No message and no stop: nothing keeps the loop from going to sleep. */
  predicate Quiet(s: State) {
    s.queue == 0 && !s.stop
  }

  /** Where the loop blocks when it finds this heap. */
  function BlockedOn(s: State): Pc {
    var t := Timeout(s.timers.heap, s.now);
    Blocked(if t < 0 then None else Some(s.now + t), 0, s.now, InOrder(s.timers))
  }

  /** With nothing to do the loop goes from the top to its look at the heap. */
  lemma GoesToLook(r: seq<State>, limit: nat) returns (q: seq<State>)
    requires Path(r, limit) && r[|r| - 1].pc.Top? && Quiet(r[|r| - 1]) && !r[|r| - 1].sleeping
    ensures |q| > 0 && Path(q, limit) && q[0] == r[0]
    ensures q[|q| - 1] == r[|r| - 1].(pc := ReadHeap, sleeping := true)
    ensures Adds(q, r, {r[|r| - 1].timers})
  {
    hide Seen, Looked;
    var s := r[|r| - 1];
    hide Path;
    var t := s.(sleeping := true);
    q := ConsumerPath(r, s.(pc := Spin), limit);
    q := ConsumerPath(q, s.(pc := GoToSleep), limit);
    q := ConsumerPath(q, t.(pc := CheckQueue), limit);
    q := ConsumerPath(q, t.(pc := CheckStop), limit);
    q := ConsumerPath(q, t.(pc := ReadHeap), limit);
  }

  /** It looks, and blocks. */
  lemma LooksAndBlocks(r: seq<State>, limit: nat) returns (q: seq<State>)
    requires Path(r, limit) && r[|r| - 1].pc.ReadHeap?
    ensures |q| > 0 && Path(q, limit) && q[0] == r[0]
    ensures q[|q| - 1] == r[|r| - 1].(pc := BlockedOn(r[|r| - 1]))
    ensures Adds(q, r, {})
  {
    hide Seen, Looked;
    var s := r[|r| - 1];
    hide Path, Timeout;
    q := ConsumerPath(r, s.(pc := Enter(Timeout(s.timers.heap, s.now), s.now, InOrder(s.timers))), limit);
    q := ConsumerPath(q, s.(pc := BlockedOn(s)), limit);
  }

  /** With nothing to do the loop goes from the top to sleep. */
  lemma FallsAsleep(r: seq<State>, limit: nat) returns (q: seq<State>)
    requires Path(r, limit) && r[|r| - 1].pc.Top? && Quiet(r[|r| - 1]) && !r[|r| - 1].sleeping
    ensures |q| > 0 && Path(q, limit) && q[0] == r[0]
    ensures q[|q| - 1] == r[|r| - 1].(pc := BlockedOn(r[|r| - 1]), sleeping := true)
    ensures Adds(q, r, {r[|r| - 1].timers})
  {
    hide Seen, Looked;
    q := GoesToLook(r, limit);
    q := LooksAndBlocks(q, limit);
  }

  /** The wake-up by the eventfd, up to the firing loop. */
  lemma WakesUp(r: seq<State>, limit: nat) returns (q: seq<State>)
    requires Path(r, limit) && r[|r| - 1].pc.Blocked? && r[|r| - 1].fd > 0
    ensures |q| > 0 && Path(q, limit) && q[0] == r[0]
    ensures q[|q| - 1] == r[|r| - 1].(pc := WakeTimers(true), sleeping := false)
    ensures Adds(q, r, {})
  {
    hide Seen, Looked;
    var s := r[|r| - 1];
    hide Path;
    q := ConsumerPath(r, s.(pc := WakeStore(true)), limit);
    q := ConsumerPath(q, s.(pc := WakeTimers(true), sleeping := false), limit);
  }

  /** The next due timer is popped and its callback about to run. */
  lemma PopsOne(r: seq<State>, limit: nat) returns (q: seq<State>)
    requires Path(r, limit) && r[|r| - 1].pc == WakeTimers(true) && r[|r| - 1].timers.lock.Free?
    requires RootDue(r[|r| - 1].timers.heap, r[|r| - 1].now)
    ensures |q| > 0 && Path(q, limit) && q[0] == r[0]
    ensures var s := r[|r| - 1]; q[|q| - 1] == s.(timers := Popped(s.timers), pc := WakeRearm(true, Root(s)))
    ensures Seen(q) == Seen(r) + {Popped(r[|r| - 1].timers)} && Looked(q) == Looked(r)
  {
    hide Seen, Looked;
    var s := r[|r| - 1];
    hide Path, Popped;
    q := ConsumerPath(r, s.(timers := Popped(s.timers), pc := WakeRearm(true, Root(s))), limit);
  }

  /** One due timer fires and is not armed again. */
  lemma FiresOne(r: seq<State>, limit: nat) returns (q: seq<State>)
    requires Path(r, limit) && r[|r| - 1].pc == WakeTimers(true) && r[|r| - 1].timers.lock.Free?
    requires RootDue(r[|r| - 1].timers.heap, r[|r| - 1].now)
    ensures |q| > 0 && Path(q, limit) && q[0] == r[0]
    ensures var s := r[|r| - 1]; q[|q| - 1] == s.(timers := Popped(s.timers))
    ensures Seen(q) == Seen(r) + {Popped(r[|r| - 1].timers)} && Looked(q) == Looked(r)
  {
    hide Seen, Looked;
    var s := r[|r| - 1];
    q := PopsOne(r, limit);
    hide Path, Popped;
    q := ConsumerPath(q, s.(timers := Popped(s.timers)), limit);
  }

  /** The firing loop is done: up to the point behind start_pending_components. */
  lemma StartsPending(r: seq<State>, limit: nat) returns (q: seq<State>)
    requires Path(r, limit) && r[|r| - 1].pc == WakeTimers(true) && r[|r| - 1].timers.lock.Free?
    requires !RootDue(r[|r| - 1].timers.heap, r[|r| - 1].now)
    ensures |q| > 0 && Path(q, limit) && q[0] == r[0]
    ensures q[|q| - 1] == r[|r| - 1].(pc := WakeEvents(true), pending := {})
    ensures Adds(q, r, {})
  {
    hide Seen, Looked;
    var s := r[|r| - 1];
    hide Path;
    q := ConsumerPath(r, s.(pc := WakeStart(true)), limit);
    q := ConsumerPath(q, s.(pc := WakeEvents(true), pending := {}), limit);
  }

  /** About to read the eventfd, behind a start_pending_components: after a wake-up, or in
      the poll of the fast path. */
  predicate AboutToRead(s: State) {
    s.pc == WakeEvents(true) || (s.pc == FastPoll && s.fd > 0)
  }

  /** The rest of the turn: the eventfd is emptied, no message is found. */
  lemma FinishesTurn(r: seq<State>, limit: nat) returns (q: seq<State>)
    requires Path(r, limit) && AboutToRead(r[|r| - 1]) && r[|r| - 1].queue == 0
    ensures |q| > 0 && Path(q, limit) && q[0] == r[0]
    ensures var s := r[|r| - 1];
            q[|q| - 1] == s.(pc := Top, fd := 0, swallowed := s.swallowed + s.pending)
    ensures Adds(q, r, {})
  {
    hide Seen, Looked;
    var s := r[|r| - 1];
    hide Path;
    var t := s.(fd := 0, swallowed := s.swallowed + s.pending);
    q := r;
    if s.pc == WakeEvents(true) {
      q := ConsumerPath(q, t.(pc := WakeDrain), limit);
    }
    q := ConsumerPath(q, t.(pc := Top), limit);
  }

  // -------------------------------------------------- a start that gets lost

  /** Peer i registers component c and writes the eventfd. */
  lemma Registers(r: seq<State>, i: nat, c: nat, limit: nat) returns (q: seq<State>)
    requires Path(r, limit) && i < |r[|r| - 1].peers| && r[|r| - 1].peers[i] == Away
    ensures |q| > 0 && Path(q, limit) && q[0] == r[0]
    ensures var s := r[|r| - 1];
            q[|q| - 1] == s.(pending := s.pending + {c}, swallowed := s.swallowed - {c}, fd := s.fd + 1)
  {
    hide Seen, Looked, Adds;
    var s := r[|r| - 1];
    hide Path;
    var t := s.(pending := s.pending + {c}, swallowed := s.swallowed - {c}, peers := s.peers[i := Writing]);
    q := PeerPath(r, t, i, limit);
    assert t.peers[i := Away] == s.peers;
    q := PeerPath(q, t.(fd := t.fd + 1, peers := t.peers[i := Away]), i, limit);
  }

  ghost predicate Lost(s: State, c: nat) {
    s.pc.Blocked? && s.pc.deadline == None && c in s.pending && !Alarm(s) && !SomeSending(s)
  }

  /** The exception of StartLostOnlyIfSwallowed is real, from wherever it arises: if the
      loop is about to empty the eventfd with c registered behind start_pending_components,
      and nobody else is active, it can go on to block without a timeout, c unstarted, the
      eventfd empty and no thread about to write it. */
  lemma SwallowedStartIsLost(r: seq<State>, c: nat, limit: nat) returns (q: seq<State>)
    requires Path(r, limit)
    requires var s := r[|r| - 1];
             AboutToRead(s) && !s.sleeping && Quiet(s) && s.timers.heap == [] && c in s.pending && !SomeSending(s)
    ensures |q| > 0 && Path(q, limit) && q[0] == r[0] && Lost(q[|q| - 1], c)
  {
    hide Seen, Looked, Adds;
    q := FinishesTurn(r, limit);
    q := FallsAsleep(q, limit);
    SamePeers(r[|r| - 1], q[|q| - 1]);
  }

  const Idle: State := State(Top, 0, false, 0, false, {}, {}, Empty, 0, [Away])

  /** Such a registration can happen in a run: between the start_pending_components and the
      eventfd read of one wake-up. */
  lemma StartCanBeLost(c: nat, limit: nat) returns (r: seq<State>)
    ensures Run(r, limit) && Lost(r[|r| - 1], c)
  {
    hide Seen, Looked, Adds;
    r := FallsAsleep([Idle], limit);
    r := Registers(r, 0, c, limit);
    r := WakesUp(r, limit);
    r := StartsPending(r, limit);
    r := Registers(r, 0, c, limit);
    r := SwallowedStartIsLost(r, c, limit);
  }

  lemma MessageArrives(limit: nat) returns (r: seq<State>)
    ensures |r| > 0 && Path(r, limit) && r[0] == Idle && r[|r| - 1] == Idle.(queue := 1)
  {
    r := PeerPath([Idle], Idle.(queue := 1, peers := [Checking]), 0, limit);
    hide Path, Seen, Looked;
    r := PeerPath(r, Idle.(queue := 1), 0, limit);
  }

  /** A message is sent and the loop takes the fast path, up to its poll. */
  lemma TakesFastPath(limit: nat) returns (r: seq<State>)
    ensures |r| > 0 && Path(r, limit) && r[0] == Idle && r[|r| - 1] == Idle.(pc := FastPoll)
  {
    hide Path, Seen, Looked, Popped;
    var s := Idle;
    r := MessageArrives(limit);
    r := ConsumerPath(r, s.(queue := 1, pc := Spin), limit);
    r := ConsumerPath(r, s.(queue := 1, pc := FastStart), limit);
    r := ConsumerPath(r, s.(queue := 1, pc := FastDrain), limit);
    r := ConsumerPath(r, s.(pc := FastDrain), limit);
    r := ConsumerPath(r, s.(pc := FastTimers), limit);
    r := ConsumerPath(r, s.(pc := FastPoll), limit);
  }

  /** And between the start_pending_components and the poll of one fast turn. */
  lemma FastStartCanBeLost(c: nat, limit: nat) returns (r: seq<State>)
    ensures Run(r, limit) && Lost(r[|r| - 1], c)
  {
    hide Path, Seen, Looked, Adds;
    r := TakesFastPath(limit);
    r := Registers(r, 0, c, limit);
    r := SwallowedStartIsLost(r, c, limit);
  }

  // -------------------------------------------------------- waits that are wrong

  /** Peer 0 starts timer t, due at d, and writes the eventfd. */
  lemma PeerStarts(r: seq<State>, t: nat, d: nat, limit: nat) returns (q: seq<State>)
    requires Path(r, limit) && r[|r| - 1].peers == [Away] && Starts(r[|r| - 1], t, d, limit) && !r[|r| - 1].pc.ReadHeap?
    ensures |q| > 0 && Path(q, limit) && q[0] == r[0]
    ensures var s := r[|r| - 1]; q[|q| - 1] == s.(timers := Started(s.timers, t, d), fd := s.fd + 1)
    ensures Seen(q) == Seen(r) + {Started(r[|r| - 1].timers, t, d)} && Looked(q) == Looked(r)
  {
    hide Seen, Looked;
    var s := r[|r| - 1];
    hide Path, Started;
    var u := s.(timers := Started(s.timers, t, d), peers := [Writing]);
    q := PeerPath(r, u, 0, limit);
    q := PeerPath(q, u.(fd := u.fd + 1, peers := [Away]), 0, limit);
  }

  /** Timers 0, 1, 2, ... with these expiries, in this order. */
  function SlotsOf(dues: seq<nat>): (h: Heap)
    ensures |h| == |dues| && forall i :: 0 <= i < |h| ==> h[i] == Slot(i, dues[i])
  {
    seq(|dues|, i requires 0 <= i < |dues| => Slot(i, dues[i]))
  }

  function Below(n: nat): (r: set<nat>)
    ensures forall i: nat :: i in r <==> i < n
  {
    if n == 0 then {} else Below(n - 1) + {n - 1}
  }

  /** These timers and no others, all running. */
  function Holding(dues: seq<nat>): Timers {
    Timers(SlotsOf(dues), Below(|dues|), false, false, Free)
  }

  /** No timer expires before its parent. */
  ghost predicate Ascending(dues: seq<nat>) {
    forall i :: 0 < i < |dues| ==> dues[Parent(i)] <= dues[i]
  }

  /** A timer that does not go up when it is started. */
  lemma StartedLast(dues: seq<nat>, d: nat)
    requires dues != [] ==> dues[Parent(|dues|)] <= d
    ensures Started(Holding(dues), |dues|, d) == Holding(dues + [d])
  {
    var h, n := SlotsOf(dues), |dues|;
    assert n !in TimerSet(h);
    RetimeAbsent(h, n, d);
    assert Insert(h, Slot(n, d)) == h + [Slot(n, d)];
    assert SlotsOf(dues + [d]) == h + [Slot(n, d)];
    assert Below(n + 1) == Below(n) + {n};
  }

  /** No removal is half done, the order was never upset and no timer restarted. */
  predicate Steady(ts: Timers) {
    ts.lock.Free? && !ts.upset && !ts.restarted
  }

  ghost predicate AllSteady(r: seq<State>) {
    forall ts :: ts in Seen(r) ==> Steady(ts)
  }

  /** Timers are started one after the other. */
  lemma {:induction false} StartsAll(dues: seq<nat>, limit: nat) returns (r: seq<State>)
    requires Ascending(dues) && forall i :: 0 <= i < |dues| ==> dues[i] <= limit
    ensures |r| > 0 && Path(r, limit) && r[0] == Idle && r[|r| - 1] == Idle.(timers := Holding(dues), fd := |dues|)
    ensures AllSteady(r) && Looked(r) == {}
  {
    if dues == [] {
      r := [Idle];
      assert Holding(dues) == Empty by { assert SlotsOf([]) == [] && Below(0) == {}; }
    } else {
      var n := |dues| - 1;
      var q, d := dues[..n], dues[n];
      r := StartsAll(q, limit);
      if n > 0 { assert dues[Parent(n)] <= dues[n]; }
      StartedLast(q, d);
      assert q + [d] == dues;
      hide Path, Started, SlotsOf, Seen, Looked;
      r := PeerStarts(r, n, d, limit);
    }
  }

  /** A timer more than INT_MAX away, as its 32-bit interval allows, and the loop blocks
      without a timeout and with no wake-up on its way. */
  lemma LongWaitNeverTimesOut(interval: nat) returns (r: seq<State>)
    requires INT_MAX < interval < 0x1_0000_0000
    ensures Run(r, interval)
    ensures var s := r[|r| - 1];
            && s.pc.Blocked? && s.pc.ordered && s.pc.deadline == None
            && s.timers.heap == [Slot(0, interval)] && !Alarm(s) && !SomeSending(s)
  {
    hide Path, Seen, Looked, Adds, AllSteady;
    r := StartsAll([interval], interval);
    assert SlotsOf([interval]) == [Slot(0, interval)];
    r := FallsAsleep(r, interval);
    r := WakesUp(r, interval);
    r := StartsPending(r, interval);
    r := FinishesTurn(r, interval);
    r := FallsAsleep(r, interval);
  }

  // ------------------------------------------------- timers that are overslept

  /** Blocked until the deadline although a timer in the heap is due before it, the clock
      past that timer, and no wake-up on its way. */
  ghost predicate Oversleeping(s: State, x: Slot<nat>, deadline: nat) {
    && s.pc.Blocked? && s.pc.deadline == Some(deadline) && s.pc.lag == 0
    && x in s.timers.heap && x.due < s.now < deadline && !Alarm(s) && !SomeSending(s)
  }

  /** Firing is done, and the loop blocks on the heap it finds. */
  lemma BlocksAgain(r: seq<State>, later: nat, limit: nat) returns (q: seq<State>)
    requires Path(r, limit) && r[|r| - 1].pc == WakeTimers(true) && r[|r| - 1].timers.lock.Free?
    requires !RootDue(r[|r| - 1].timers.heap, r[|r| - 1].now)
    requires Quiet(r[|r| - 1]) && !r[|r| - 1].sleeping && later >= r[|r| - 1].now
    ensures |q| > 0 && Path(q, limit) && q[0] == r[0]
    ensures var s := r[|r| - 1];
            q[|q| - 1] == s.(pc := BlockedOn(s), pending := {}, fd := 0, sleeping := true, now := later)
    ensures Adds(q, r, {r[|r| - 1].timers})
  {
    hide Seen, Looked;
    q := StartsPending(r, limit);
    q := FinishesTurn(q, limit);
    q := FallsAsleep(q, limit);
    hide Path;
    q := EnvironmentPath(q, q[|q| - 1].(now := later), limit);
  }

  const Seven: seq<nat> := [0, 10, 1, 11, 12, 20, 5]

  /** The seven timers, the fourth stopped, at 2. */
  lemma StopsFourth(limit: nat) returns (r: seq<State>)
    requires limit >= 20
    ensures |r| > 0 && Path(r, limit) && r[0] == Idle
    ensures var s := r[|r| - 1];
            && s == Idle.(timers := s.timers, fd := 7, now := 2)
            && s.timers.heap == RemoveAt(SlotsOf(Seven), 3) && s.timers.lock == Free && !s.timers.restarted
    ensures (forall ts :: ts in Seen(r) ==> !ts.restarted) && Looked(r) == {}
  {
    hide Path, Seen, Looked, Holding, SlotsOf;
    SevenAscend();
    FourthIs();
    r := StartsAll(Seven, limit);
    hide Vacated, Sunk, Steady;
    var s := Idle.(timers := Holding(Seven), fd := 7);
    var v := Vacated(s.timers, 3);
    r := EnvironmentPath(r, s.(timers := v), limit);
    r := EnvironmentPath(r, s.(timers := Sunk(v)), limit);
    r := EnvironmentPath(r, s.(timers := Sunk(v), now := 2), limit);
    assert forall ts :: Steady(ts) ==> !ts.restarted by { SteadyIs(); }
  }

  lemma SteadyIs()
    ensures forall ts :: Steady(ts) ==> !ts.restarted
  {
  }

  lemma SevenAscend()
    ensures Ascending(Seven) && |Seven| == 7
  {
    forall i | 0 < i < |Seven| ensures Seven[Parent(i)] <= Seven[i] {
      assert i == 1 || i == 2 || i == 3 || i == 4 || i == 5 || i == 6;
    }
  }

  /** The stop of the fourth timer, in its two steps. */
  lemma FourthIs()
    ensures var ts := Holding(Seven);
            && 3 in TimerSet(ts.heap)
            && var v := Vacated(ts, 3);
            && v.lock.Sinking? && !v.restarted && Removes(ts, v) && Removes(v, Sunk(v))
            && Sunk(v).heap == RemoveAt(SlotsOf(Seven), 3) && Sunk(v).lock == Free && !Sunk(v).restarted
  {
    var h := SlotsOf(Seven);
    assert h[3] in h;
    assert FirstOf(h, 3) == 3;
    assert 3 in Below(7);
    hide SiftDown, SlotsOf, RemovalSafe, Vacate, FirstOf, TimerSet, Below;
  }

  lemma SeenTells(r: seq<State>)
    ensures (forall ts :: ts in Seen(r) ==> !ts.restarted) ==> NoRestart(r)
    ensures (forall ts :: ts in Seen(r) ==> ts.lock.Free?) || (forall ts :: ts in Seen(r) ==> !ts.upset) ==> StopsSafe(r)
    ensures (forall ts :: ts in Looked(r) ==> ts.lock.Free?) ==> LooksUndisturbed(r)
  {
    hide TimerSet, RemovalSafe, Vacate;
    forall i | 0 <= i < |r| ensures r[i].timers in Seen(r) && (r[i].pc.ReadHeap? ==> r[i].timers in Looked(r)) {
      assert r[i] in r;
    }
    forall i | 0 <= i < |r| - 1 && UnsafeStop(r[i].timers, r[i + 1].timers)
      ensures r[i + 1].timers in Seen(r) && !r[i + 1].timers.lock.Free? && r[i + 1].timers.upset
    {
      assert r[i + 1] in r;
    }
  }

  /** One stop that is not RemovalSafe is enough. */
  lemma UnsafeStopOversleeps(limit: nat) returns (r: seq<State>)
    requires limit >= 20
    ensures Run(r, limit) && Oversleeping(r[|r| - 1], Slot(6, 5), 10)
    ensures NoRestart(r) && LooksUndisturbed(r)
  {
    r := UnsafeStopRun(limit);
    SeenTells(r);
    hide Seen, Looked, Path, Oversleeping;
  }

  lemma UnsafeStopRun(limit: nat) returns (r: seq<State>)
    requires limit >= 20
    ensures |r| > 0 && Path(r, limit) && r[0] == Idle && Oversleeping(r[|r| - 1], Slot(6, 5), 10)
    ensures (forall ts :: ts in Seen(r) ==> !ts.restarted) && (forall ts :: ts in Looked(r) ==> ts.lock.Free?)
  {
    hide Path, RemoveAt, SlotsOf, RootDue, Seen, Looked;
    r := StopsFourth(limit);
    FiresTwo(SlotsOf(Seven));
    r := FallsAsleep(r, limit);
    r := WakesUp(r, limit);
    r := FiresOne(r, limit);
    r := FiresOne(r, limit);
    r := BlocksAgain(r, 9, limit);
  }

  /** The two timers that fire at 2 after the stop, and what is left. */
  lemma FiresTwo(h: Heap)
    requires h == SlotsOf(Seven)
    ensures var a := RemoveAt(h, 3);
            && RootDue(a, 2) && RootDue(RemoveAt(a, 0), 2)
            && var c := RemoveAt(RemoveAt(a, 0), 0);
            |c| == 4 && c[0].due == 10 && c[1] == Slot(6, 5) && !RootDue(c, 2)
  {
    StopFourth(h);
    PopFirst(RemoveAt(h, 3));
    UnsafeRemovalDelaysATimer(h);
  }

  const Alone: Timers := Timers([Slot(1, 205)], {1}, false, false, Free)
  const Ahead: Timers := Timers([Slot(0, 200), Slot(1, 205)], {0, 1}, false, false, Free)
  const Moved: Timers := Timers([Slot(0, 210), Slot(1, 205)], {0, 1}, true, true, Free)
  const Doubled: Timers := Timers([Slot(0, 210), Slot(1, 205), Slot(0, 210)], {0, 1}, true, true, Free)

  /** Timer 0 is popped at 100 and started again by its own callback, due at 200. */
  lemma StartsItself(r: seq<State>, limit: nat) returns (q: seq<State>)
    requires Path(r, limit) && limit >= 205
    requires r[|r| - 1] == Idle.(pc := WakeTimers(true), timers := Holding([100, 205]), fd := 2, now := 100)
    ensures |q| > 0 && Path(q, limit) && q[0] == r[0]
    ensures q[|q| - 1] == Idle.(pc := WakeRearm(true, 0), timers := Ahead, fd := 3, now := 100)
    ensures Seen(q) == Seen(r) + {Alone, Ahead} && Looked(q) == Looked(r)
  {
    hide Path, Seen, Looked;
    var h := SlotsOf([100, 205]);
    assert h == [Slot(0, 100), Slot(1, 205)];
    assert Below(2) == {0, 1};
    assert RemoveAt(h, 0) == [Slot(1, 205)];
    assert Popped(Holding([100, 205])) == Alone;
    StartsAhead();
    q := PopsOne(r, limit);
    hide Started, Popped, Holding, Below;
    var s := Idle.(pc := WakeRearm(true, 0), timers := Alone, fd := 2, now := 100);
    assert Starts(s, 0, 200, limit);
    q := ExtendPath(q, s.(timers := Ahead, fd := 3), limit);
  }

  /** It is then re-armed at 110 for 210: it sits twice, and both its slots move behind
      timer 1. */
  lemma RestartsItself(r: seq<State>, limit: nat) returns (q: seq<State>)
    requires Path(r, limit) && limit >= 205
    requires r[|r| - 1] == Idle.(pc := WakeRearm(true, 0), timers := Ahead, fd := 3, now := 100)
    ensures |q| > 0 && Path(q, limit) && q[0] == r[0]
    ensures q[|q| - 1] == Idle.(pc := WakeTimers(true), timers := Doubled, fd := 3, now := 110)
    ensures Seen(q) == Seen(r) + {Moved, Doubled} && Looked(q) == Looked(r)
  {
    hide Path, Seen, Looked, Retimed, Added;
    Doubles();
    var s := Idle.(pc := WakeRearm(true, 0), timers := Ahead, fd := 3, now := 110);
    q := EnvironmentPath(r, s, limit);
    q := ConsumerPath(q, s.(timers := Moved, pc := WakeAdd(true, 0)), limit);
    assert Doubled.heap[0] == Slot(0, 210) && Slot(0, 210) in Moved.heap;
    q := ConsumerPath(q, s.(timers := Doubled, pc := WakeTimers(true)), limit);
  }

  lemma StartsAhead()
    ensures Started(Alone, 0, 200) == Ahead
  {
    var h: Heap := [Slot(1, 205)];
    assert 0 !in TimerSet(h);
    RetimeAbsent(h, 0, 200);
    var g := h + [Slot(0, 200)];
    assert SiftUp(Swap(g, 1, 0), 0) == Swap(g, 1, 0);
    assert Insert(h, Slot(0, 200)) == [Slot(0, 200), Slot(1, 205)];
  }

  lemma Doubles()
    ensures Retimed(Ahead, 0, 210) == Moved && Added(Moved, 0, 210) == Doubled
  {
    var h: Heap := [Slot(0, 200), Slot(1, 205)];
    assert h[0] in h;
    assert Retime(h, 0, 210) == [Slot(0, 210), Slot(1, 205)];
    var g: Heap := [Slot(0, 210), Slot(1, 205)];
    assert Insert(g, Slot(0, 210)) == g + [Slot(0, 210)];
    assert {0, 1} + {0} == {0, 1};
  }

  /** No stop is needed: a periodic timer that its own callback starts again is enough. */
  lemma RestartOversleeps(limit: nat) returns (r: seq<State>)
    requires limit >= 205
    ensures Run(r, limit) && Oversleeping(r[|r| - 1], Slot(1, 205), 210)
    ensures StopsSafe(r) && LooksUndisturbed(r)
  {
    r := RestartRun(limit);
    SeenTells(r);
    hide Seen, Looked, Path, Oversleeping;
  }

  lemma RestartRun(limit: nat) returns (r: seq<State>)
    requires limit >= 205
    ensures |r| > 0 && Path(r, limit) && r[0] == Idle && Oversleeping(r[|r| - 1], Slot(1, 205), 210)
    ensures (forall ts :: ts in Seen(r) ==> ts.lock.Free?) && (forall ts :: ts in Looked(r) ==> ts.lock.Free?)
  {
    hide Path, Holding, Seen, Looked;
    assert Ascending([100, 205]);
    r := StartsAll([100, 205], limit);
    r := FallsAsleep(r, limit);
    var s := Idle.(timers := Holding([100, 205]), fd := 2);
    r := EnvironmentPath(r, s.(pc := BlockedOn(s), sleeping := true, now := 100), limit);
    r := WakesUp(r, limit);
    r := StartsItself(r, limit);
    r := RestartsItself(r, limit);
    r := BlocksAgain(r, 206, limit);
    assert r[|r| - 1].timers.heap[1] == Slot(1, 205);
  }

  /** Three timers, and the loop about to look. */
  lemma AboutToLook(limit: nat) returns (r: seq<State>)
    requires limit >= 20
    ensures |r| > 0 && Path(r, limit) && r[0] == Idle
    ensures r[|r| - 1] == Idle.(pc := ReadHeap, sleeping := true, timers := Holding([5, 6, 20]))
    ensures AllSteady(r)
  {
    hide Path, SlotsOf, Seen, Looked;
    assert Ascending([5, 6, 20]);
    r := StartsAll([5, 6, 20], limit);
    r := FallsAsleep(r, limit);
    r := WakesUp(r, limit);
    r := StartsPending(r, limit);
    r := FinishesTurn(r, limit);
    r := GoesToLook(r, limit);
  }

  /** The three timers with the first one's slot refilled and still to sink, and after. */
  const Halfway: Timers := Timers([Slot(2, 20), Slot(1, 6)], {1, 2}, false, false, Sinking(0))
  const Settled: Timers := Timers([Slot(1, 6), Slot(2, 20)], {1, 2}, false, false, Free)

  /** A stop that is RemovalSafe does it, too, if the loop looks between its two writes: it
      finds the last timer in the first slot. */
  lemma HalfStopOversleeps(limit: nat) returns (r: seq<State>)
    requires limit >= 20
    ensures Run(r, limit) && Oversleeping(r[|r| - 1], Slot(1, 6), 20)
    ensures StopsSafe(r) && NoRestart(r)
  {
    r := HalfStopRun(limit);
    SeenTells(r);
    hide Seen, Looked, Path, Oversleeping;
  }

  lemma HalfStopRun(limit: nat) returns (r: seq<State>)
    requires limit >= 20
    ensures |r| > 0 && Path(r, limit) && r[0] == Idle && Oversleeping(r[|r| - 1], Slot(1, 6), 20)
    ensures forall ts :: ts in Seen(r) ==> !ts.upset && !ts.restarted
  {
    hide Path, Holding, Removes, BlockedOn, Oversleeping, Seen, Looked;
    r := AboutToLook(limit);
    HalfStops();
    WrongLook();
    r := EnvironmentPath(r, Looking, limit);
    r := LooksAndBlocks(r, limit);
    var t := Looking.(pc := Blocked(Some(20), 0, 0, false));
    r := EnvironmentPath(r, t.(timers := Settled), limit);
    r := EnvironmentPath(r, t.(timers := Settled, now := 7), limit);
  }

  const Looking: State := Idle.(pc := ReadHeap, sleeping := true, timers := Halfway)

  lemma WrongLook()
    ensures BlockedOn(Looking) == Blocked(Some(20), 0, 0, false)
    ensures Oversleeping(Looking.(pc := Blocked(Some(20), 0, 0, false), timers := Settled, now := 7), Slot(1, 6), 20)
  {
    assert Settled.heap[0] == Slot(1, 6);
  }

  lemma HalfStops()
    ensures Removes(Holding([5, 6, 20]), Halfway) && Removes(Halfway, Settled)
  {
    var s := Holding([5, 6, 20]);
    HalfStopped(s.heap);
    assert Below(3) == {0, 1, 2};
    assert Below(3) - {0} == {1, 2};
    assert Vacated(s, 0) == Halfway;
    assert Sunk(Halfway) == Settled;
  }

  lemma HalfStopped(h: Heap)
    requires h == SlotsOf([5, 6, 20])
    ensures 0 in TimerSet(h) && FirstOf(h, 0) == 0
    ensures Vacate(h, 0) == [Slot(2, 20), Slot(1, 6)]
    ensures SiftDown(Vacate(h, 0), 0) == [Slot(1, 6), Slot(2, 20)]
  {
    assert h[0] in h;
    var g := Vacate(h, 0);
    assert g == [Slot(2, 20), Slot(1, 6)];
    assert SiftDown(Swap(g, 0, 1), 1) == Swap(g, 0, 1);
  }
}
