/** The run loop of a scheduler thread with its busy-poll, sleep and eventfd wake-up, as
    a step relation: one consumer thread and any number of other threads that send
    messages, start and stop timers, register components or request a stop. Steps are the
    atomic accesses of the code, interleaved under sequential consistency. What is done to
    the timer heap under its lock is a step of TimerSteps. */
module RunLoop {
  import opened Common
  import opened TimerHeap
  import opened TimerFiring
  import opened TimerSteps
  import RingQueue

  const QUEUE_ROOM: nat := RingQueue.MAX_QUEUE_SIZE - 1
  const INT_MAX: nat := 0x7fff_ffff

  /** Where a foreign thread is: before reading is_sleeping, or before writing the eventfd. */
  datatype Peer = Away | Checking | Writing

  /** Where the run loop is. */
  datatype Pc =
    | Top | Spin | Exited
    | FastStart | FastDrain | FastTimers | FastRearm(popped: nat) | FastAdd(popped: nat) | FastPoll
    | GoToSleep | CheckQueue | CheckStop | StayUp
    | ReadHeap | Enter(timeout: int, readAt: nat, ordered: bool)
    | Blocked(deadline: Option<nat>, lag: nat, entered: nat, ordered: bool)
    | WakeStore(notified: bool) | WakeTimers(notified: bool)
    | WakeRearm(notified: bool, popped: nat) | WakeAdd(notified: bool, popped: nat)
    | WakeStart(notified: bool) | WakeEvents(notified: bool) | WakeDrain

  /** queue: messages waiting; fd: the eventfd counter; pending: components registered
      and not started; swallowed: those that were pending at some eventfd read. */
  datatype State = State(
    pc: Pc, queue: nat, sleeping: bool, fd: nat, stop: bool,
    pending: set<nat>, swallowed: set<nat>, timers: Timers, now: nat, peers: seq<Peer>)

  ghost predicate Init(s: State) {
    && s.pc == Top && !s.sleeping && s.pending == {} && s.timers == Empty
    && forall i :: 0 <= i < |s.peers| ==> s.peers[i] == Away
  }

  /** The value the timeout has after its conversion to a 32-bit int. */
  function ToInt(d: nat): (r: int)
    ensures r == d <==> d <= INT_MAX
  {
    var m := d % 0x1_0000_0000;
    if m <= INT_MAX then m else m - 0x1_0000_0000
  }

  /** The timeout the loop computes from the slot it takes for the earliest one. */
  function Timeout(heap: Heap, now: nat): int {
    if heap == [] then -1
    else if heap[0].due <= now then 0
    else ToInt(heap[0].due - now)
  }

  // --------------------------------------------------------- consumer steps

  /** process_timers, the top of its loop: while the root is due it is popped. */
  ghost predicate PopTimer(s: State, s': State, popped: Pc, done: Pc) {
    s.timers.lock.Free? &&
    s' == if RootDue(s.timers.heap, s.now) then s.(timers := Popped(s.timers), pc := popped) else s.(pc := done)
  }

  /** process_timers after the callback: nothing more, or a new expiry for the timer. */
  ghost predicate Rearm(s: State, s': State, t: nat, add: Pc, back: Pc, limit: nat) {
    || s' == s.(pc := back)
    || (exists d :: 0 <= d <= s.now + limit && s' == s.(timers := Retimed(s.timers, t, d), pc := add))
  }

  /** process_timers with the lock again: the timer goes in with the expiry it has by then,
      unless the heap is full. */
  ghost predicate Add(s: State, s': State, t: nat, back: Pc, limit: nat) {
    && s.timers.lock.Free?
    && (|| s' == s.(timers := GivenUp(s.timers, t), pc := back)
        || (exists d :: 0 <= d <= s.now + limit
             && (t in TimerSet(s.timers.heap) ==> Slot(t, d) in s.timers.heap)
             && s' == s.(timers := Added(s.timers, t, d), pc := back)))
  }

  /** nos_timer_start under the lock. */
  ghost predicate Starts(s: State, t: nat, d: nat, limit: nat) {
    s.timers.lock.Free? && t !in s.timers.running && d <= s.now + limit
  }

  /** Component callbacks run by the loop may send to their own thread, which looks at
      is_sleeping, or start a timer, which always writes the eventfd. */
  ghost predicate Callback(s: State, s': State, limit: nat) {
    || (s.queue < QUEUE_ROOM && s' == s.(queue := s.queue + 1, fd := s.fd + if s.sleeping then 1 else 0))
    || (exists t, d :: Starts(s, t, d, limit) && s' == s.(timers := Started(s.timers, t, d), fd := s.fd + 1))
  }

  predicate Working(pc: Pc) {
    pc.FastStart? || pc.FastDrain? || pc.FastTimers? || pc.FastRearm? || pc.FastAdd? || pc.FastPoll? ||
    pc.WakeTimers? || pc.WakeRearm? || pc.WakeAdd? || pc.WakeStart? || pc.WakeEvents? || pc.WakeDrain?
  }

  function Root(s: State): nat {
    if s.timers.heap == [] then 0 else s.timers.heap[0].timer
  }

  /** No removal is half done, and none has upset the order. */
  predicate InOrder(ts: Timers) {
    !ts.upset && ts.lock.Free?
  }

  ghost predicate Consumer(s: State, s': State, limit: nat) {
    match s.pc
    case Exited => false
    case Top => s' == s.(pc := if s.stop then Exited else Spin)
    case Spin =>
      if s.queue > 0 then s' == s.(pc := FastStart)
      else s' == s || s' == s.(pc := GoToSleep)
    case FastStart => s' == s.(pc := FastDrain, pending := {})
    case FastDrain =>
      s' == if s.queue > 0 then s.(queue := s.queue - 1) else s.(pc := FastTimers)
    case FastTimers => PopTimer(s, s', FastRearm(Root(s)), FastPoll)
    case FastRearm(t) => Rearm(s, s', t, FastAdd(t), FastTimers, limit)
    case FastAdd(t) => Add(s, s', t, FastTimers, limit)
    case FastPoll =>
      || s' == s.(pc := Top)
      || (s.fd > 0 && s' == s.(pc := Top, fd := 0, swallowed := s.swallowed + s.pending))
    case GoToSleep => s' == s.(pc := CheckQueue, sleeping := true)
    case CheckQueue => s' == s.(pc := if s.queue > 0 then StayUp else CheckStop)
    case CheckStop => s' == s.(pc := if s.stop then StayUp else ReadHeap)
    case StayUp => s' == s.(pc := Top, sleeping := false)
    case ReadHeap =>
      // the look takes no lock
      s' == s.(pc := Enter(Timeout(s.timers.heap, s.now), s.now, InOrder(s.timers)))
    case Enter(timeout, readAt, ordered) =>
      s.now >= readAt &&
      s' == s.(pc := Blocked(if timeout < 0 then None else Some(s.now + timeout), s.now - readAt, s.now, ordered))
    case Blocked(_, _, _, _) => s' == s.(pc := WakeStore(false)) || (s.fd > 0 && s' == s.(pc := WakeStore(true)))
    case WakeStore(n) => s' == s.(pc := WakeTimers(n), sleeping := false)
    case WakeTimers(n) => PopTimer(s, s', WakeRearm(n, Root(s)), WakeStart(n))
    case WakeRearm(n, t) => Rearm(s, s', t, WakeAdd(n, t), WakeTimers(n), limit)
    case WakeAdd(n, t) => Add(s, s', t, WakeTimers(n), limit)
    case WakeStart(n) => s' == s.(pc := WakeEvents(n), pending := {})
    case WakeEvents(n) =>
      if n then s' == s.(pc := WakeDrain, fd := 0, swallowed := s.swallowed + s.pending)
      else s' == s.(pc := Top)
    case WakeDrain =>
      s' == if s.queue > 0 then s.(queue := s.queue - 1) else s.(pc := Top)
  }

  // ------------------------------------------------------------- peer steps

  ghost predicate PeerStep(s: State, s': State, i: nat, limit: nat)
    requires i < |s.peers|
  {
    match s.peers[i]
    case Away =>
      // nos_transport_local_send: enqueue under the lock
      || (s.queue < QUEUE_ROOM && s' == s.(queue := s.queue + 1, peers := s.peers[i := Checking]))
      // nos_timer_start: insert under the lock
      || (exists t, d :: Starts(s, t, d, limit) &&
            s' == s.(timers := Started(s.timers, t, d), peers := s.peers[i := Writing]))
      // nos_scheduler_stop
      || s' == s.(stop := true, peers := s.peers[i := Writing])
      // nos_scheduler_register_component
      || (exists c :: s' == s.(pending := s.pending + {c}, swallowed := s.swallowed - {c}, peers := s.peers[i := Writing]))
    case Checking =>
      s' == s.(peers := s.peers[i := if s.sleeping then Writing else Away])
    case Writing =>
      s' == s.(fd := s.fd + 1, peers := s.peers[i := Away])
  }

  /** Time passes; a thread compacts the queue, removes timers, or unregisters. */
  ghost predicate Environment(s: State, s': State) {
    || (s'.now >= s.now && s' == s.(now := s'.now))
    || (s'.queue <= s.queue && s' == s.(queue := s'.queue))
    || (Removes(s.timers, s'.timers) && s' == s.(timers := s'.timers))
    || (s'.pending <= s.pending && s' == s.(pending := s'.pending))
  }

  ghost predicate Next(s: State, s': State, limit: nat) {
    || Consumer(s, s', limit)
    || (Working(s.pc) && Callback(s, s', limit))
    || (exists i: nat :: i < |s.peers| && PeerStep(s, s', i, limit))
    || Environment(s, s')
  }

  // -------------------------------------------------------------- invariant

  predicate Asleep(pc: Pc) {
    pc.CheckQueue? || pc.CheckStop? || pc.StayUp? || pc.ReadHeap? || pc.Enter? || pc.Blocked? || pc.WakeStore?
  }

  /** Some thread will still write the eventfd whatever it reads. */
  ghost predicate SomeWriting(s: State) {
    exists i :: 0 <= i < |s.peers| && s.peers[i] == Writing
  }

  ghost predicate SomeSending(s: State) {
    exists i :: 0 <= i < |s.peers| && s.peers[i] != Away
  }

  /** epoll_wait will return at once, or some thread is about to make it so. */
  ghost predicate Alarm(s: State) {
    s.fd > 0 || SomeWriting(s)
  }

  /** The timeout or deadline already chosen is no later than expiry d, but for the time
      between reading the clock and entering epoll_wait. */
  predicate InTime(pc: Pc, d: nat) {
    match pc
    case Enter(timeout, readAt, _) => 0 <= timeout && (timeout == 0 || readAt + timeout <= d)
    case Blocked(deadline, lag, entered, _) =>
      deadline.Some? && (deadline.value == entered || deadline.value <= d + lag)
    case _ => true
  }

  /** The heap was in order when the timeout was computed. */
  predicate Ordered(pc: Pc) {
    match pc
    case Enter(_, _, ordered) => ordered
    case Blocked(_, _, _, ordered) => ordered
    case _ => true
  }

  ghost predicate AllInTime(s: State) {
    forall x :: x in s.timers.heap ==> InTime(s.pc, x.due)
  }

  ghost predicate Within(heap: Heap, bound: nat) {
    forall x :: x in heap ==> x.due <= bound
  }

  ghost predicate Inv(s: State, limit: nat) {
    && (s.sleeping <==> Asleep(s.pc))
    && ((s.pc.CheckStop? || s.pc.ReadHeap? || s.pc.Enter? || s.pc.Blocked?) && s.queue > 0 ==>
          s.fd > 0 || SomeSending(s))
    && ((s.pc.ReadHeap? || s.pc.Enter? || s.pc.Blocked?) && s.stop ==> Alarm(s))
    && Within(s.timers.heap, s.now + limit)
    && Sound(s.timers)
    && (limit <= INT_MAX && Ordered(s.pc) ==> AllInTime(s) || Alarm(s))
    && (s.pc.Enter? ==> s.pc.readAt <= s.now)
    && (s.pending <= s.swallowed || Alarm(s))
  }

  lemma SamePeers(s: State, s': State)
    requires s'.peers == s.peers
    ensures SomeWriting(s) <==> SomeWriting(s')
    ensures SomeSending(s) <==> SomeSending(s')
  {
  }

  /** The timers changed, and for each new slot it is in time. */
  lemma TimersKeepInv(s: State, s': State, limit: nat)
    requires Inv(s, limit) && s' == s.(timers := s'.timers, pc := s'.pc)
    requires Sound(s'.timers) && Within(s'.timers.heap, s.now + limit)
    requires !Asleep(s.pc) && !Asleep(s'.pc)
    ensures Inv(s', limit)
  {
    hide Sound, Within, SomeWriting, SomeSending;
    SamePeers(s, s');
  }

  lemma PopKeepsInv(s: State, s': State, popped: Pc, done: Pc, limit: nat)
    requires Inv(s, limit) && PopTimer(s, s', popped, done)
    requires !Asleep(s.pc) && !Asleep(popped) && !Asleep(done)
    ensures Inv(s', limit)
  {
    hide Sound, Popped, SomeWriting, SomeSending;
    if RootDue(s.timers.heap, s.now) { PoppedSound(s.timers); }
    TimersKeepInv(s, s', limit);
  }

  lemma RearmKeepsInv(s: State, s': State, t: nat, add: Pc, back: Pc, limit: nat)
    requires Inv(s, limit) && Rearm(s, s', t, add, back, limit)
    requires !Asleep(s.pc) && !Asleep(add) && !Asleep(back)
    ensures Inv(s', limit)
  {
    hide Sound, Retimed, SomeWriting, SomeSending;
    if d :| 0 <= d <= s.now + limit && s' == s.(timers := Retimed(s.timers, t, d), pc := add) {
      RetimedSound(s.timers, t, d);
    }
    TimersKeepInv(s, s', limit);
  }

  lemma AddKeepsInv(s: State, s': State, t: nat, back: Pc, limit: nat)
    requires Inv(s, limit) && Add(s, s', t, back, limit)
    requires !Asleep(s.pc) && !Asleep(back)
    ensures Inv(s', limit)
  {
    hide Sound, Added, SomeWriting, SomeSending, TimerSet;
    if s' == s.(timers := GivenUp(s.timers, t), pc := back) {
      GivenUpSound(s.timers, t);
    } else {
      var d :| 0 <= d <= s.now + limit && s' == s.(timers := Added(s.timers, t, d), pc := back);
      AddedSound(s.timers, t, d);
    }
    TimersKeepInv(s, s', limit);
  }

  /** The root read from a heap in order is no later than any timer. */
  lemma TimeoutInTime(heap: Heap, now: nat, limit: nat)
    requires IsHeap(heap) && Within(heap, now + limit) && limit <= INT_MAX
    ensures forall x :: x in heap ==> InTime(Enter(Timeout(heap, now), now, true), x.due)
  {
    hide ToInt;
    forall x | x in heap ensures InTime(Enter(Timeout(heap, now), now, true), x.due) {
      RootFirst(heap, x);
      assert heap[0] in heap;
    }
  }

  lemma ReadHeapKeepsInv(s: State, s': State, limit: nat)
    requires Inv(s, limit) && s.pc.ReadHeap? && Consumer(s, s', limit)
    ensures Inv(s', limit)
  {
    hide SomeWriting, SomeSending, IsHeap, Timeout, Within;
    SamePeers(s, s');
    if limit <= INT_MAX && InOrder(s.timers) { TimeoutInTime(s.timers.heap, s.now, limit); }
  }

  lemma EnterKeepsInv(s: State, s': State, limit: nat)
    requires Inv(s, limit) && s.pc.Enter? && Consumer(s, s', limit)
    ensures Inv(s', limit)
  {
    hide SomeWriting, SomeSending, Sound;
    SamePeers(s, s');
    forall x | x in s.timers.heap && InTime(s.pc, x.due) ensures InTime(s'.pc, x.due) {
    }
  }

  lemma ConsumerKeepsInv(s: State, s': State, limit: nat)
    requires Inv(s, limit) && Consumer(s, s', limit)
    ensures Inv(s', limit)
  {
    hide SomeWriting, SomeSending, PopTimer, Rearm, Add, Sound, Timeout, Within;
    match s.pc
    case FastTimers => PopKeepsInv(s, s', FastRearm(Root(s)), FastPoll, limit);
    case WakeTimers(n) => PopKeepsInv(s, s', WakeRearm(n, Root(s)), WakeStart(n), limit);
    case FastRearm(t) => RearmKeepsInv(s, s', t, FastAdd(t), FastTimers, limit);
    case WakeRearm(n, t) => RearmKeepsInv(s, s', t, WakeAdd(n, t), WakeTimers(n), limit);
    case FastAdd(t) => AddKeepsInv(s, s', t, FastTimers, limit);
    case WakeAdd(n, t) => AddKeepsInv(s, s', t, WakeTimers(n), limit);
    case ReadHeap => ReadHeapKeepsInv(s, s', limit);
    case Enter(_, _, _) => EnterKeepsInv(s, s', limit);
    case _ => SamePeers(s, s');
  }

  lemma CallbackKeepsInv(s: State, s': State, limit: nat)
    requires Inv(s, limit) && Working(s.pc) && Callback(s, s', limit)
    ensures Inv(s', limit)
  {
    hide SomeWriting, SomeSending, Sound, Started;
    SamePeers(s, s');
    if t, d :| Starts(s, t, d, limit) && s' == s.(timers := Started(s.timers, t, d), fd := s.fd + 1) {
      StartedSound(s.timers, t, d);
    }
  }

  lemma PeerBecomes(s: State, s': State, i: nat)
    requires i < |s.peers| && |s'.peers| == |s.peers| && s'.peers == s.peers[i := s'.peers[i]]
    ensures s'.peers[i] == Writing ==> SomeWriting(s') && SomeSending(s')
    ensures s'.peers[i] == Checking ==> SomeSending(s')
    ensures s.peers[i] != Writing && SomeWriting(s) ==> SomeWriting(s')
    ensures s.peers[i] == Away && SomeSending(s) ==> SomeSending(s')
  {
    if s.peers[i] != Writing && SomeWriting(s) {
      var j :| 0 <= j < |s.peers| && s.peers[j] == Writing;
      assert s'.peers[j] == Writing;
    }
    if s.peers[i] == Away && SomeSending(s) {
      var j :| 0 <= j < |s.peers| && s.peers[j] != Away;
      assert s'.peers[j] != Away;
    }
  }

  lemma PeerKeepsInv(s: State, s': State, i: nat, limit: nat)
    requires Inv(s, limit) && i < |s.peers| && PeerStep(s, s', i, limit)
    ensures Inv(s', limit)
  {
    hide SomeWriting, SomeSending, Sound, Started;
    PeerBecomes(s, s', i);
    if s.peers[i] == Checking {
      assert s.pc.Blocked? ==> s'.peers[i] == Writing;
    } else if t, d :| Starts(s, t, d, limit) && s' == s.(timers := Started(s.timers, t, d), peers := s.peers[i := Writing]) {
      StartedSound(s.timers, t, d);
    }
  }

  lemma EnvironmentKeepsInv(s: State, s': State, limit: nat)
    requires Inv(s, limit) && Environment(s, s')
    ensures Inv(s', limit)
  {
    hide SomeWriting, SomeSending, Sound, Removes;
    SamePeers(s, s');
    if Removes(s.timers, s'.timers) { RemovesSound(s.timers, s'.timers); }
  }

  lemma NextKeepsInv(s: State, s': State, limit: nat)
    requires Inv(s, limit) && Next(s, s', limit)
    ensures Inv(s', limit)
  {
    hide Inv, Consumer, Callback, PeerStep, Environment;
    if Consumer(s, s', limit) {
      ConsumerKeepsInv(s, s', limit);
    } else if Working(s.pc) && Callback(s, s', limit) {
      CallbackKeepsInv(s, s', limit);
    } else if i: nat :| i < |s.peers| && PeerStep(s, s', i, limit) {
      PeerKeepsInv(s, s', i, limit);
    } else {
      EnvironmentKeepsInv(s, s', limit);
    }
  }

  // ------------------------------------------------------------------- runs

  ghost predicate Path(r: seq<State>, limit: nat) {
    |r| > 0 && forall i :: 0 <= i < |r| - 1 ==> Next(r[i], r[i + 1], limit)
  }

  /** A run of the system: it starts where the loop is entered. */
  ghost predicate Run(r: seq<State>, limit: nat) {
    Path(r, limit) && Init(r[0])
  }

  lemma InitInv(s: State, limit: nat)
    requires Init(s)
    ensures Inv(s, limit)
  {
    EmptySound();
  }

  lemma {:induction false} RunInv(r: seq<State>, limit: nat)
    requires Run(r, limit)
    ensures Inv(r[|r| - 1], limit)
  {
    hide Init, Next, Inv;
    if |r| == 1 {
      InitInv(r[0], limit);
    } else {
      var q := r[..|r| - 1];
      assert forall i :: 0 <= i < |q| - 1 ==> Next(q[i], q[i + 1], limit);
      RunInv(q, limit);
      NextKeepsInv(r[|r| - 2], r[|r| - 1], limit);
    }
  }

  /** No lost wake-up: whenever the consumer blocks with messages waiting, the eventfd is
      set, or some sender has enqueued and will either read is_sleeping == 1 or write. */
  lemma NoLostWakeup(r: seq<State>, limit: nat)
    requires Run(r, limit)
    ensures var s := r[|r| - 1];
            s.pc.Blocked? && s.queue > 0 ==> s.sleeping && (s.fd > 0 || SomeSending(s))
  {
    RunInv(r, limit);
  }

  /** A sender that is to check is_sleeping while the consumer blocks goes on to write,
      and then epoll_wait returns with the eventfd readable. */
  lemma SenderWillWake(s: State, t: State, u: State, i: nat, limit: nat)
    requires Inv(s, limit) && s.pc.Blocked? && i < |s.peers| && s.peers[i] == Checking
    requires PeerStep(s, t, i, limit) && PeerStep(t, u, i, limit)
    ensures u.pc == s.pc && u.fd > 0 && Consumer(u, u.(pc := WakeStore(true)), limit)
  {
  }

  /** A stop request is not lost either. */
  lemma NoLostStop(r: seq<State>, limit: nat)
    requires Run(r, limit)
    ensures var s := r[|r| - 1]; s.pc.Blocked? && s.stop ==> Alarm(s)
  {
    RunInv(r, limit);
  }

  /** The computed timeout is in time for every timer exactly if the slot taken for the
      earliest is, or is due already. */
  lemma TimeoutInTimeIff(heap: Heap, now: nat, limit: nat)
    requires heap != [] && Within(heap, now + limit) && limit <= INT_MAX
    ensures (forall x :: x in heap ==> InTime(Enter(Timeout(heap, now), now, true), x.due)) <==>
              heap[0].due <= now || forall x :: x in heap ==> heap[0].due <= x.due
  {
    assert heap[0] in heap;
    assert heap[0].due > now ==> Timeout(heap, now) == heap[0].due - now;
    hide Timeout;
  }

  /** With intervals of at most INT_MAX, the deadline of a blocked consumer whose heap was
      in order when it read the root is no later than any expiry, but for the time it took
      to get from reading the clock into epoll_wait, unless the wait ends at once anyway. */
  lemma DeadlineInTime(r: seq<State>, limit: nat, x: Slot<nat>)
    requires Run(r, limit) && limit <= INT_MAX
    requires r[|r| - 1].pc.Blocked? && r[|r| - 1].pc.ordered && x in r[|r| - 1].timers.heap && !Alarm(r[|r| - 1])
    ensures var b := r[|r| - 1].pc;
            b.deadline.Some? && (b.deadline.value <= x.due + b.lag || b.deadline.value == b.entered)
  {
    RunInv(r, limit);
    hide Sound, SomeSending;
  }

  /** The step refills the slot of a timer that is stopped, and the sift down to come will
      not repair what that breaks. */
  ghost predicate UnsafeStop(ts: Timers, ts': Timers) {
    exists t :: ts.lock.Free? && t in ts.running && t in TimerSet(ts.heap) &&
      !RemovalSafe(ts.heap, FirstOf(ts.heap, t)) && ts' == Vacated(ts, t)
  }

  /** No stop in the run is unsafe. */
  ghost predicate StopsSafe(r: seq<State>) {
    forall i :: 0 <= i < |r| - 1 ==> !UnsafeStop(r[i].timers, r[i + 1].timers)
  }

  /** No timer is running again when the firing loop re-arms it. */
  ghost predicate NoRestart(r: seq<State>) {
    forall i :: 0 <= i < |r| ==> !r[i].timers.restarted
  }

  /** The loop never looks at the first slot while a removal is half done. */
  ghost predicate LooksUndisturbed(r: seq<State>) {
    forall i :: 0 <= i < |r| - 1 && r[i].pc.ReadHeap? && r[i + 1].pc.Enter? ==> r[i].timers.lock.Free?
  }

  /** While no timer is restarted, only an unsafe stop upsets the order. */
  lemma RemovesUpset(ts: Timers, ts': Timers)
    requires Removes(ts, ts') && !ts.upset && ts'.upset
    ensures UnsafeStop(ts, ts')
  {
    hide RemovalSafe, Vacate, SiftDown, Without, Rebuild, TimerSet;
  }

  lemma ConsumerUpsetsNothing(s: State, s': State, limit: nat)
    requires Sound(s.timers) && Consumer(s, s', limit) && !s.timers.upset && !s'.timers.restarted
    ensures !s'.timers.upset
  {
    hide Sound, Retimed, RemoveAt, Insert, Timeout, TimerSet, RootDue;
    if t, d :| s'.timers == Retimed(s.timers, t, d) { RetimeUpsetsNothing(s.timers, t, d); }
  }

  /** The timers of the heap run, unless one was restarted. */
  lemma RetimeUpsetsNothing(ts: Timers, t: nat, d: nat)
    requires Sound(ts) && !ts.upset && !Retimed(ts, t, d).restarted
    ensures !Retimed(ts, t, d).upset
  {
    hide TimersDiffer, IsHeap, AlmostFrom, TimerSet, Retime;
  }

  lemma StartUpsetsNothing(ts: Timers, t: nat, d: nat)
    requires Sound(ts) && !ts.upset && !ts.restarted && t !in ts.running
    ensures !Started(ts, t, d).upset
  {
    hide Arm, TimersDiffer, IsHeap, AlmostFrom, TimerSet;
  }

  lemma UpsetOnlyByUnsafeStop(s: State, s': State, limit: nat)
    requires Inv(s, limit) && Next(s, s', limit)
    requires !s.timers.upset && s'.timers.upset && !s'.timers.restarted
    ensures UnsafeStop(s.timers, s'.timers)
  {
    hide Consumer, Sound, Started, Removes, UnsafeStop, SomeWriting, SomeSending, Within, AllInTime;
    if Consumer(s, s', limit) {
      ConsumerUpsetsNothing(s, s', limit);
    } else if t, d :| Starts(s, t, d, limit) && s'.timers == Started(s.timers, t, d) {
      StartKeepsRestarted(s.timers, t, d);
      StartUpsetsNothing(s.timers, t, d);
    } else if Removes(s.timers, s'.timers) {
      RemovesUpset(s.timers, s'.timers);
    }
  }

  lemma StartKeepsRestarted(ts: Timers, t: nat, d: nat)
    ensures Started(ts, t, d).restarted == ts.restarted
  {
  }

  /** The program counter is the consumer's. */
  lemma OthersKeepPc(s: State, s': State, limit: nat)
    requires Next(s, s', limit) && !Consumer(s, s', limit)
    ensures s'.pc == s.pc
  {
    hide Consumer, Started, Removes;
  }

  lemma StaysOrdered(s: State, s': State, limit: nat)
    requires Next(s, s', limit) && Ordered(s.pc)
    requires s.pc.ReadHeap? && s'.pc.Enter? ==> InOrder(s.timers)
    ensures Ordered(s'.pc)
  {
    hide RootDue, Popped, Retimed, Added, GivenUp, Timeout, Next, TimerSet, InOrder;
    if !Consumer(s, s', limit) { OthersKeepPc(s, s', limit); }
  }

  /** In a run whose stops are all RemovalSafe and that restarts no timer under its re-arm,
      the heap is in order whenever its lock is free; and if the loop looks at it at no other
      time, it has a right timeout. */
  lemma {:induction false} SafeStopsKeepOrder(r: seq<State>, limit: nat)
    requires Run(r, limit) && StopsSafe(r) && NoRestart(r)
    ensures var s := r[|r| - 1];
            !s.timers.upset && (s.timers.lock.Free? ==> IsHeap(s.timers.heap)) && (LooksUndisturbed(r) ==> Ordered(s.pc))
  {
    hide Run, Next, IsHeap, Inv, UnsafeStop, Sound, Ordered;
    RunStarts(r, limit);
    RunInv(r, limit);
    assert Sound(r[|r| - 1].timers) by { InvSound(r[|r| - 1], limit); }
    if |r| > 1 {
      RunPrefix(r, limit);
      var q, s, s' := r[..|r| - 1], r[|r| - 2], r[|r| - 1];
      SafeStopsKeepOrder(q, limit);
      RunInv(q, limit);
      if s'.timers.upset { UpsetOnlyByUnsafeStop(s, s', limit); }
      if LooksUndisturbed(r) { StaysOrdered(s, s', limit); }
    }
    SoundOrder(r[|r| - 1].timers);
  }

  lemma SoundOrder(ts: Timers)
    requires Sound(ts)
    ensures !ts.upset && ts.lock.Free? ==> IsHeap(ts.heap)
  {
  }

  lemma InvSound(s: State, limit: nat)
    requires Inv(s, limit)
    ensures Sound(s.timers)
  {
  }

  lemma RunStarts(r: seq<State>, limit: nat)
    requires Run(r, limit)
    ensures |r| > 0 && Ordered(r[0].pc) && !r[0].timers.upset
  {
  }

  lemma RunPrefix(r: seq<State>, limit: nat)
    requires Run(r, limit) && |r| > 1
    ensures Run(r[..|r| - 1], limit) && Next(r[|r| - 2], r[|r| - 1], limit)
  {
    hide Next;
  }

  /** No timer is overslept in a run whose stops are all RemovalSafe, that restarts no timer
      under its re-arm, and in which the loop looks at the heap with no removal half done. */
  lemma NeverOversleeps(r: seq<State>, limit: nat, x: Slot<nat>)
    requires Run(r, limit) && limit <= INT_MAX
    requires StopsSafe(r) && NoRestart(r) && LooksUndisturbed(r)
    ensures var s := r[|r| - 1];
            s.pc.Blocked? && x in s.timers.heap && !Alarm(s) ==>
              && s.pc.deadline.Some?
              && (s.pc.deadline.value <= x.due + s.pc.lag || s.pc.deadline.value == s.pc.entered)
  {
    hide Run, StopsSafe, NoRestart, LooksUndisturbed, Alarm;
    RunStarts(r, limit);
    SafeStopsKeepOrder(r, limit);
    var s := r[|r| - 1];
    if s.pc.Blocked? && x in s.timers.heap && !Alarm(s) { DeadlineInTime(r, limit, x); }
  }

  /** The loop goes to wait without a timeout exactly if there is no timer or the slot it
      takes for the earliest is more than INT_MAX away: the intervals are 32 bits wide, and
      above INT_MAX the conversion to int is negative. */
  lemma WaitsForeverIff(s: State, s': State, limit: nat)
    requires Inv(s, limit) && limit < 0x1_0000_0000 && s.pc.ReadHeap? && Consumer(s, s', limit)
    ensures s'.pc.Enter?
    ensures var h := s.timers.heap; s'.pc.timeout < 0 <==> h == [] || h[0].due > s.now + INT_MAX
  {
    if s.timers.heap != [] { assert s.timers.heap[0] in s.timers.heap; }
    hide Sound, SomeSending, SomeWriting;
  }

  /** A registered component is started before the loop blocks, or a wake-up is on its
      way, except if its registration was already there when the loop last emptied the
      eventfd, behind start_pending_components. */
  lemma StartLostOnlyIfSwallowed(r: seq<State>, limit: nat, c: nat)
    requires Run(r, limit)
    ensures var s := r[|r| - 1];
            s.pc.Blocked? && c in s.pending && c !in s.swallowed ==> Alarm(s)
  {
    RunInv(r, limit);
  }
}
