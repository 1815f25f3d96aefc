/** The timer heap of a thread as several threads see it: what each holder of the timer lock
    does to it, with the removals in two steps, because the run loop looks at the first slot
    without the lock. */
module TimerSteps {
  import opened TimerHeap
  import opened TimerFiring

  type Heap = seq<Slot<nat>>

  /** Free, or in the middle of a removal: a slot is refilled and still to sink, or the
      timers of an owner are out and the heap is still to be rebuilt. */
  datatype Lock = Free | Sinking(i: nat) | Rebuilding

  /** running: the timers whose is_running is set; upset: since the last rebuild a removal was
      not RemovalSafe, or the expiry of a timer in the heap was written; restarted: a timer
      was running again when the firing loop re-armed it. */
  datatype Timers = Timers(heap: Heap, running: set<nat>, upset: bool, restarted: bool, lock: Lock)

  const Empty: Timers := Timers([], {}, false, false, Free)

  // -------------------------------------------------------------- operations

  /** process_timers takes the root out. */
  function Popped(s: Timers): Timers
    requires s.heap != []
  {
    s.(heap := RemoveAt(s.heap, 0), running := s.running - {s.heap[0].timer})
  }

  /** process_timers writes the new expiry of the timer it popped, before it takes the lock
      again and without a look at is_running. */
  function Retimed(s: Timers, t: nat, d: nat): Timers {
    s.(heap := Retime(s.heap, t, d), upset := s.upset || t in TimerSet(s.heap),
       restarted := s.restarted || t in s.running)
  }

  /** process_timers puts the timer in again. */
  function Added(s: Timers, t: nat, d: nat): Timers {
    s.(heap := Insert(s.heap, Slot(t, d)), running := s.running + {t}, restarted := s.restarted || t in s.running)
  }

  /** process_timers finds the heap full. */
  function GivenUp(s: Timers, t: nat): Timers {
    s.(running := s.running - {t}, restarted := s.restarted || t in s.running)
  }

  /** nos_timer_start of a timer that is not running. */
  function Started(s: Timers, t: nat, d: nat): Timers {
    s.(heap := Arm(s.heap, t, d), running := s.running + {t}, upset := s.upset || t in TimerSet(s.heap))
  }

  /** nos_timer_stop or nos_timer_delete of a running timer: its first slot is refilled. */
  function Vacated(s: Timers, t: nat): Timers
    requires t in TimerSet(s.heap)
  {
    var i := FirstOf(s.heap, t);
    s.(heap := Vacate(s.heap, i), running := s.running - {t}, lock := Sinking(i),
       upset := s.upset || !RemovalSafe(s.heap, i))
  }

  function Sunk(s: Timers): Timers
    requires s.lock.Sinking?
  {
    s.(heap := SiftDown(s.heap, s.lock.i), lock := Free)
  }

  /** nos_scheduler_cancel_timers_by_owner: the compaction, then the rebuild. */
  function Compacted(s: Timers, owned: set<nat>): Timers {
    s.(heap := Without(s.heap, owned), running := s.running - owned, lock := Rebuilding, upset := false)
  }

  function Rebuilt(s: Timers): Timers {
    s.(heap := Rebuild(s.heap, |s.heap| / 2), lock := Free)
  }

  /** What the holders of the lock can do from other threads, or from callbacks: stop,
      delete, cancel. */
  ghost predicate Removes(s: Timers, s': Timers) {
    || (exists t :: s.lock.Free? && t in s.running && t in TimerSet(s.heap) && s' == Vacated(s, t))
    || (s.lock.Sinking? && s' == Sunk(s))
    || (exists owned :: s.lock.Free? && s' == Compacted(s, owned))
    || (s.lock.Rebuilding? && s' == Rebuilt(s))
  }

  // --------------------------------------------------------------- invariant

  /** Until a timer is restarted under its own re-arm, the heap holds exactly the running
      timers, once each. Unless upset, it is in order whenever the lock is free, and in the
      middle of a stop but for the slot that is still to sink. */
  ghost predicate Sound(s: Timers) {
    && (!s.restarted ==> TimersDiffer(s.heap) && TimerSet(s.heap) == s.running)
    && (!s.upset && s.lock.Free? ==> IsHeap(s.heap))
    && (!s.upset && s.lock.Sinking? ==> AlmostFrom(s.heap, 0, s.lock.i))
  }

  lemma EmptySound()
    ensures Sound(Empty)
  {
  }

  lemma PoppedSound(s: Timers)
    requires Sound(s) && s.heap != [] && s.lock.Free?
    ensures Sound(Popped(s))
    ensures forall x :: x in Popped(s).heap ==> x in s.heap
  {
    if !s.restarted { RemoveKeepsDifferent(s.heap, 0); }
    if !s.upset { RemovalRestoresHeapIff(s.heap, 0); }
    RemoveMembers(s.heap, 0);
    hide RemoveAt, IsHeap;
  }

  lemma RetimedSound(s: Timers, t: nat, d: nat)
    requires Sound(s)
    ensures Sound(Retimed(s, t, d))
    ensures forall x :: x in Retimed(s, t, d).heap ==> x in s.heap || x == Slot(t, d)
  {
    if t !in TimerSet(s.heap) { RetimeAbsent(s.heap, t, d); }
    RetimeKeepsTimers(s.heap, t, d);
    hide IsHeap, Retime;
  }

  lemma InsertMembers(h: Heap, x: Slot<nat>)
    ensures forall y :: y in Insert(h, x) ==> y in h || y == x
  {
    InsertAddsOne(h, x);
    hide Insert;
    forall y | y in Insert(h, x) ensures y in h || y == x {
      assert y in multiset(Insert(h, x));
    }
  }

  lemma AddedSound(s: Timers, t: nat, d: nat)
    requires Sound(s) && s.lock.Free?
    ensures Sound(Added(s, t, d))
    ensures forall x :: x in Added(s, t, d).heap ==> x in s.heap || x == Slot(t, d)
  {
    if !s.restarted && t !in s.running { InsertKeepsDifferent(s.heap, Slot(t, d)); }
    if !s.upset { InsertKeepsHeap(s.heap, Slot(t, d)); }
    InsertMembers(s.heap, Slot(t, d));
    hide Insert, IsHeap;
  }

  lemma GivenUpSound(s: Timers, t: nat)
    requires Sound(s)
    ensures Sound(GivenUp(s, t))
  {
    hide IsHeap;
  }

  lemma StartedSound(s: Timers, t: nat, d: nat)
    requires Sound(s) && s.lock.Free? && t !in s.running
    ensures Sound(Started(s, t, d))
    ensures forall x :: x in Started(s, t, d).heap ==> x in s.heap || x == Slot(t, d)
  {
    if t !in TimerSet(s.heap) {
      RetimeAbsent(s.heap, t, d);
      if !s.restarted { InsertKeepsDifferent(s.heap, Slot(t, d)); }
      if !s.upset { InsertKeepsHeap(s.heap, Slot(t, d)); }
    }
    ArmMembers(s.heap, t, d);
    hide Insert, IsHeap, Retime;
  }

  /** What a RemovalSafe stop leaves to do is one sift down. */
  lemma VacateAlmost(h: Heap, i: nat)
    requires IsHeap(h) && i < |h| && RemovalSafe(h, i)
    ensures AlmostFrom(Vacate(h, i), 0, i)
  {
    VacateEdges(h, i);
    var g := Vacate(h, i);
    if 0 < i < |g| { assert EdgeOk(g, i); }
  }

  lemma VacatedSound(s: Timers, t: nat)
    requires Sound(s) && s.lock.Free? && t in TimerSet(s.heap)
    ensures Sound(Vacated(s, t))
    ensures forall x :: x in Vacated(s, t).heap ==> x in s.heap
  {
    var i := FirstOf(s.heap, t);
    var g := Vacate(s.heap, i);
    if !s.restarted {
      RemoveKeepsDifferent(s.heap, i);
      SiftDownPermutes(g, i);
      SameSlots(g, RemoveAt(s.heap, i));
    }
    if !s.upset && RemovalSafe(s.heap, i) { VacateAlmost(s.heap, i); }
    assert forall j :: 0 <= j < |g| ==> g[j] in s.heap;
    hide SiftDown, IsHeap, AlmostFrom;
  }

  lemma SunkSound(s: Timers)
    requires Sound(s) && s.lock.Sinking?
    ensures Sound(Sunk(s))
    ensures forall x :: x in Sunk(s).heap ==> x in s.heap
  {
    var r := SiftDown(s.heap, s.lock.i);
    SiftDownPermutes(s.heap, s.lock.i);
    SameSlots(s.heap, r);
    if !s.upset {
      SiftDownRepairs(s.heap, 0, s.lock.i);
      assert HeapFrom(r, 0);
    }
    hide SiftDown;
    forall x | x in r ensures x in s.heap { assert x in multiset(r); }
  }

  lemma CompactedSound(s: Timers, owned: set<nat>)
    requires Sound(s) && s.lock.Free?
    ensures Sound(Compacted(s, owned))
    ensures forall x :: x in Compacted(s, owned).heap ==> x in s.heap
  {
    if !s.restarted { WithoutDiffers(s.heap, owned); }
    CompactionSplits(s.heap, owned);
    var r := Without(s.heap, owned);
    hide Without, IsHeap;
    forall x | x in r ensures x in s.heap { assert x in multiset(r) && x in multiset(s.heap); }
  }

  lemma RebuiltSound(s: Timers)
    requires Sound(s) && s.lock.Rebuilding?
    ensures Sound(Rebuilt(s))
    ensures forall x :: x in Rebuilt(s).heap ==> x in s.heap
  {
    var r := Rebuild(s.heap, |s.heap| / 2);
    RebuildMakesHeap(s.heap);
    RebuildPermutes(s.heap, |s.heap| / 2);
    SameSlots(s.heap, r);
    hide Rebuild, IsHeap;
    forall x | x in r ensures x in s.heap { assert x in multiset(r); }
  }

  lemma RemovesSound(s: Timers, s': Timers)
    requires Sound(s) && Removes(s, s')
    ensures Sound(s')
    ensures forall x :: x in s'.heap ==> x in s.heap
  {
    hide Sound, RemovalSafe;
    if t :| s.lock.Free? && t in s.running && t in TimerSet(s.heap) && s' == Vacated(s, t) {
      VacatedSound(s, t);
    } else if s.lock.Sinking? && s' == Sunk(s) {
      SunkSound(s);
    } else if owned :| s.lock.Free? && s' == Compacted(s, owned) {
      CompactedSound(s, owned);
    } else {
      RebuiltSound(s);
    }
  }
}
