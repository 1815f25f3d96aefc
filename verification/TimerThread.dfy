/** The timers of one scheduler thread: an in-place array heap of timer objects. Every
    method is proved equal to a function of TimerHeap or TimerFiring. */
module TimerThread {
  import opened Common
  import opened TimerHeap
  import opened TimerFiring

  class Component {
    var status: CompStatus
    constructor () { status := Loaded; }
  }

  /** nos_timer_s. The callback is opaque: only whether there is one matters here. */
  class Timer {
    var expireAt: nat
    var interval: nat
    var isPeriodic: bool
    const hasCallback: bool
    var isRunning: bool
    var owner: Component?
    var ownerThread: Thread?

    /** nos_timer_create: zeroed, with the callback stored. */
    constructor (hasCallback: bool)
      ensures !isRunning && owner == null && ownerThread == null && this.hasCallback == hasCallback
    {
      this.hasCallback := hasCallback;
      expireAt, interval, isPeriodic, isRunning := 0, 0, false, false;
      owner, ownerThread := null, null;
    }

    /** Detached from any heap: not running, no owner. */
    ghost predicate Idle()
      reads this
    {
      !isRunning && owner == null && ownerThread == null
    }

    method Clear()
      modifies this
      ensures Idle() && expireAt == old(expireAt)
    {
      isRunning, owner, ownerThread := false, null, null;
    }

    method Arm(self: Component, thread: Thread, interval: nat, periodic: bool, now: nat)
      modifies this
      ensures this.interval == interval && expireAt == now + interval && isPeriodic == periodic
      ensures isRunning && owner == self && ownerThread == thread
    {
      this.interval, expireAt := interval, now + interval;
      isPeriodic, isRunning := periodic, true;
      owner, ownerThread := self, thread;
    }

    method RunAgain(now: nat)
      modifies this
      ensures expireAt == now + interval && isRunning && SameSetup()
    {
      expireAt, isRunning := now + interval, true;
    }

    ghost function AttrOf(): Attr
      reads this, owner
    {
      Attr(owner != null && owner.status == Active, hasCallback, isPeriodic, interval)
    }

    /** Only the running flag and the expiry may have changed. */
    twostate predicate SameSetup()
      reads this
    {
      isPeriodic == old(isPeriodic) && interval == old(interval) &&
      owner == old(owner) && ownerThread == old(ownerThread)
    }
  }

  /** The slots an array prefix stands for. */
  ghost function SlotsOf(ts: seq<Timer?>): (r: seq<Slot<Timer>>)
    requires forall i :: 0 <= i < |ts| ==> ts[i] != null
    reads set i | 0 <= i < |ts| :: ts[i]
    ensures |r| == |ts|
    ensures forall i :: 0 <= i < |ts| ==> r[i].timer == ts[i] && r[i].due == ts[i].expireAt
  {
    if ts == [] then []
    else
      var last: Timer := ts[|ts| - 1];
      SlotsOf(ts[..|ts| - 1]) + [Slot(last, last.expireAt)]
  }

  /** What the compaction keeps of an array prefix. */
  ghost function Kept(ts: seq<Timer?>, owned: set<Timer>): (r: seq<Timer?>)
    requires forall i :: 0 <= i < |ts| ==> ts[i] != null
    ensures |r| <= |ts| && forall i :: 0 <= i < |r| ==> r[i] != null
  {
    if ts == [] then []
    else
      var r := Kept(ts[..|ts| - 1], owned);
      if ts[|ts| - 1] in owned && ts[|ts| - 1] !in ts[..|ts| - 1] then r else r + [ts[|ts| - 1]]
  }

  lemma KeptNone(owned: set<Timer>)
    ensures Kept([], owned) == []
  {
  }

  lemma KeptNext(ts: seq<Timer?>, n: nat, owned: set<Timer>)
    requires n < |ts| && forall i :: 0 <= i < |ts| ==> ts[i] != null
    ensures Kept(ts[..n + 1], owned) ==
            if ts[n] in owned && ts[n] !in ts[..n] then Kept(ts[..n], owned) else Kept(ts[..n], owned) + [ts[n]]
  {
    assert ts[..n + 1][..n] == ts[..n];
  }

  /** Compacting the array is filtering its slots. */
  lemma {:induction false} KeptSlots(ts: seq<Timer?>, owned: set<Timer>)
    requires forall i :: 0 <= i < |ts| ==> ts[i] != null
    ensures SlotsOf(Kept(ts, owned)) == Without(SlotsOf(ts), owned)
  {
    if ts != [] {
      var n := |ts| - 1;
      KeptSlots(ts[..n], owned);
      assert SlotsOf(ts)[..n] == SlotsOf(ts[..n]);
      SlotTimers(ts[..n], ts[n]);
    }
  }

  lemma SlotTimers(ts: seq<Timer?>, t: Timer)
    requires forall i :: 0 <= i < |ts| ==> ts[i] != null
    ensures t in TimerSet(SlotsOf(ts)) <==> t in ts
  {
    if t in ts {
      var i :| 0 <= i < |ts| && ts[i] == t;
      assert SlotsOf(ts)[i] in SlotsOf(ts);
    }
  }

  class Thread {
    const nodes: array<Timer?>
    var size: nat

    /** The first size nodes are timers, in any order and perhaps more than once. */
    ghost predicate Valid()
      reads this, nodes
    {
      size <= nodes.Length && forall i :: 0 <= i < size ==> nodes[i] != null
    }

    ghost function Timers(): set<Timer>
      reads this, nodes
    {
      set i | 0 <= i < size && i < nodes.Length && nodes[i] != null :: nodes[i]
    }

    ghost function Slots(): (r: seq<Slot<Timer>>)
      requires Valid()
      reads this, nodes, Timers()
      ensures |r| == size
      ensures forall i :: 0 <= i < size ==> r[i].timer == nodes[i] && r[i].due == nodes[i].expireAt
    {
      SlotsOf(nodes[..size])
    }

    /** Each timer sits in the heap once, and runs on this thread for some owner. So it is
        until a timer is started again from its own periodic callback. */
    ghost predicate Tidy()
      requires Valid()
      reads this, nodes, Timers()
    {
      && (forall i, j :: 0 <= i < j < size ==> nodes[i] != nodes[j])
      && (forall t :: t in Timers() ==> t.isRunning && t.ownerThread == this && t.owner != null)
    }

    constructor (capacity: nat)
      ensures Valid() && Tidy() && size == 0 && nodes.Length == capacity && fresh(nodes)
    {
      nodes := new Timer?[capacity](_ => null);
      size := 0;
    }

    lemma SlotsAre()
      requires Valid()
      ensures Slots() == SlotsOf(nodes[..size])
    {
    }

    lemma SlotsFacts()
      requires Valid()
      ensures Timers() == TimerSet(Slots())
      ensures (forall i, j :: 0 <= i < j < size ==> nodes[i] != nodes[j]) <==> TimersDiffer(Slots())
    {
      forall t ensures t in Timers() <==> t in TimerSet(Slots()) {
        if t in Timers() {
          var i :| 0 <= i < size && nodes[i] == t;
          assert Slots()[i] in Slots();
        }
      }
    }

    method SwapNodes(i: nat, j: nat)
      requires Valid() && i < size && j < size
      modifies nodes
      ensures Valid() && Slots() == Swap(old(Slots()), i, j)
    {
      nodes[i], nodes[j] := nodes[j], nodes[i];
    }

    method HeapifyUp(start: nat)
      requires Valid() && start < size
      modifies nodes
      ensures Valid() && Slots() == SiftUp(old(Slots()), start)
    {
      var idx: nat := start;
      while idx > 0
        invariant idx < size && Valid()
        invariant SiftUp(Slots(), idx) == SiftUp(old(Slots()), start)
      {
        var parent := (idx - 1) / 2;
        if nodes[idx].expireAt >= nodes[parent].expireAt { break; }
        SwapNodes(idx, parent);
        idx := parent;
      }
    }

    method PickChild(idx: nat) returns (smallest: nat)
      requires Valid() && idx * 2 + 1 < size
      ensures smallest == SmallerChild(Slots(), idx)
    {
      smallest := idx * 2 + 1;
      var right := idx * 2 + 2;
      if right < size && nodes[right].expireAt < nodes[smallest].expireAt {
        smallest := right;
      }
    }

    method HeapifyDown(start: nat)
      requires Valid()
      modifies nodes
      ensures Valid() && Slots() == SiftDown(old(Slots()), start)
    {
      hide SiftDown, SmallerChild;
      ghost var goal := SiftDown(Slots(), start);
      var idx: nat := start;
      while idx * 2 + 1 < size
        invariant Valid()
        invariant SiftDown(Slots(), idx) == goal
        decreases size - idx
      {
        var smallest := PickChild(idx);
        SiftDownOnce(Slots(), idx, smallest);
        if nodes[idx].expireAt <= nodes[smallest].expireAt { break; }
        SwapNodes(idx, smallest);
        idx := smallest;
      }
      if idx * 2 + 1 >= size { SiftDownStops(Slots(), idx); }
    }

    /** Put a timer that is not in the heap behind the last slot. */
    method Append(timer: Timer)
      requires Valid() && size < nodes.Length
      modifies this`size, nodes
      ensures Valid() && size == old(size) + 1
      ensures Slots() == old(Slots()) + [Slot(timer, timer.expireAt)]
    {
      nodes[size] := timer;
      size := size + 1;
    }

    /** The insertion shared by start and re-arm. */
    method InsertNode(timer: Timer)
      requires Valid() && size < nodes.Length
      modifies this`size, nodes
      ensures Valid() && Slots() == Insert(old(Slots()), Slot(timer, timer.expireAt))
    {
      Append(timer);
      HeapifyUp(size - 1);
    }

    /** Tidy() in terms of the slots alone. */
    ghost predicate OwnedSlots()
      requires Valid()
      reads this, nodes, Timers()
    {
      TimersDiffer(Slots()) && forall t | t in TimerSet(Slots()) :: t.isRunning && t.ownerThread == this && t.owner != null
    }

    lemma TidyIff()
      requires Valid()
      ensures Tidy() <==> OwnedSlots()
    {
      SlotsFacts();
    }

    /** nos_timer_start, once the component's thread has been found. The expiry is written
        first, which moves any slot the timer still has. */
    method TimerStart(self: Component, timer: Timer, interval: nat, periodic: bool, now: nat)
        returns (s: Status)
      requires Valid()
      modifies this`size, nodes, timer
      ensures Valid()
      ensures s == if !old(timer.isRunning) && old(size) < nodes.Length then Ok else Err
      ensures s == Ok ==>
                && Slots() == TimerFiring.Arm(old(Slots()), timer, now + interval)
                && timer.isRunning && timer.owner == self && timer.isPeriodic == periodic
                && timer.interval == interval
      ensures s != Ok ==> unchanged(this, nodes, timer)
      ensures old(Tidy()) ==> Tidy()
    {
      hide Insert;
      if timer.isRunning || size >= nodes.Length { return Err; }
      ghost var before, tidy := Slots(), Tidy();
      SlotsFacts();
      timer.Arm(self, this, interval, periodic, now);
      assert Slots() == Retime(before, timer, now + interval);
      InsertNode(timer);
      if tidy {
        RetimeAbsent(before, timer, now + interval);
        InsertKeepsDifferent(before, Slot(timer, now + interval));
        TidyIff();
      }
      s := Ok;
    }

    /** Move the last slot into slot i and shrink. */
    method VacateNode(i: nat)
      requires Valid() && i < size
      modifies this`size, nodes
      ensures Valid() && size == old(size) - 1
      ensures Slots() == Vacate(old(Slots()), i)
    {
      size := size - 1;
      nodes[i] := nodes[size];
    }

    /** The removal shared by stop, delete and the firing loop: heapify_down only. */
    method RemoveNode(i: nat)
      requires Valid() && i < size
      modifies this`size, nodes
      ensures Valid() && size == old(size) - 1
      ensures Slots() == RemoveAt(old(Slots()), i)
    {
      VacateNode(i);
      HeapifyDown(i);
    }

    /** The scan for a timer's slot: the first match, or size. */
    method FindNode(timer: Timer) returns (i: nat)
      requires Valid()
      ensures i <= size && (i < size <==> timer in TimerSet(Slots()))
      ensures i < size ==> nodes[i] == timer && i == FirstOf(Slots(), timer)
    {
      i := 0;
      while i < size && nodes[i] != timer
        invariant i <= size
        invariant forall j :: 0 <= j < i ==> nodes[j] != timer
      {
        i := i + 1;
      }
      if i < size { assert Slots()[i] in Slots(); }
    }

    /** Take slot i out. */
    method Detach(i: nat)
      requires Valid() && i < size
      modifies this`size, nodes
      ensures Valid() && Slots() == RemoveAt(old(Slots()), i)
      ensures Timers() <= old(Timers())
      ensures old(nodes[i]) in Timers() <==> Twice(old(Slots()), old(nodes[i]))
      ensures old(Tidy()) ==> Tidy()
    {
      hide RemoveAt, Twice;
      ghost var before, tidy := Slots(), Tidy();
      SlotsFacts();
      RemoveNode(i);
      RemovalLeavesIff(before, i);
      SlotsFacts();
      if tidy {
        RemoveKeepsDifferent(before, i);
        TidyIff();
      }
    }

    /** Take slot i out and forget its owner. A timer that sat twice keeps a slot. */
    method DetachAndClear(timer: Timer, i: nat)
      requires Valid() && i < size && nodes[i] == timer
      modifies this`size, nodes, timer
      ensures Valid() && Slots() == RemoveAt(old(Slots()), i) && timer.Idle()
      ensures timer in Timers() <==> Twice(old(Slots()), timer)
      ensures old(Tidy()) ==> Tidy()
    {
      hide RemoveAt, Twice;
      ghost var before, tidy := Slots(), Tidy();
      SlotsFacts();
      Detach(i);
      ghost var kept := Slots();
      timer.Clear();
      assert Slots() == kept;
      if tidy { DifferentNotTwice(before, timer); }
    }

    /** nos_timer_stop on the timer's own thread. */
    method TimerStop(timer: Timer) returns (s: Status)
      requires Valid()
      modifies this`size, nodes, timer
      ensures Valid()
      ensures s == if old(timer.isRunning && timer in TimerSet(Slots())) then Ok else Err
      ensures s == Ok ==>
                && Slots() == old(RemoveAt(Slots(), FirstOf(Slots(), timer))) && timer.Idle()
                && (timer in Timers() <==> Twice(old(Slots()), timer))
      ensures s != Ok ==> unchanged(this, nodes, timer)
      ensures old(Tidy()) ==> Tidy()
    {
      hide RemoveAt, Twice, FirstOf;
      if !timer.isRunning { return Err; }
      var i := FindNode(timer);
      if i == size { return Err; }
      DetachAndClear(timer, i);
      s := Ok;
    }

    /** nos_timer_delete up to the free. A slot is left behind for the freed timer exactly if
        the timer had one although it was not running, or had two. */
    method TimerDelete(timer: Timer)
      requires Valid() && (timer.ownerThread == null || timer.ownerThread == this)
      modifies this`size, nodes, timer
      ensures Valid() && timer.Idle()
      ensures if old(timer.isRunning && timer.ownerThread != null && timer in TimerSet(Slots()))
              then Slots() == old(RemoveAt(Slots(), FirstOf(Slots(), timer)))
              else unchanged(this, nodes)
      ensures timer in Timers() <==>
                if old(timer.isRunning && timer.ownerThread != null) then old(Twice(Slots(), timer)) else old(timer in Timers())
      ensures old(Tidy()) ==> Tidy() && timer !in Timers()
    {
      hide RemoveAt, FirstOf, Twice, TimerSet;
      ghost var before, tidy := Slots(), Tidy();
      SlotsFacts();
      if timer.isRunning && timer.ownerThread != null {
        var s := TimerStop(timer);
        if s != Ok { NotTwice(before, timer); }
      }
      if tidy { DifferentNotTwice(before, timer); }
      ClearOnly(timer);
    }

    method ClearOnly(timer: Timer)
      requires Valid()
      modifies timer
      ensures Valid() && Slots() == old(Slots()) && Timers() == old(Timers()) && timer.Idle()
      ensures old(Tidy()) && timer !in Timers() ==> Tidy()
    {
      ghost var kept := Slots();
      timer.Clear();
      assert Slots() == kept;
    }

    ghost function Owned(owner: Component): set<Timer>
      reads this, nodes, Timers()
    {
      set t | t in Timers() && t.owner == owner
    }

    /** One turn of the compaction: an owned timer is cleared, another is moved up. */
    method CompactOne(owner: Component, timer: Timer, read: nat, write: nat) returns (next: nat)
      requires write <= read < nodes.Length && nodes[read] == timer
      modifies nodes, timer
      ensures forall i :: read < i < nodes.Length ==> nodes[i] == old(nodes[i])
      ensures if old(timer.owner) == owner then
                next == write && nodes[..write] == old(nodes[..write]) &&
                timer.Idle() && timer.expireAt == old(timer.expireAt)
              else
                next == write + 1 && nodes[..next] == old(nodes[..write]) + [timer] && unchanged(timer)
    {
      if timer.owner == owner {
        timer.Clear();
        return write;
      }
      nodes[write] := timer;
      next := write + 1;
    }

    /** The compaction loop of the cancel: the timers ts of the heap, of which owned are
        cleared and dropped; the others keep their order. */
    method CompactOwned(owner: Component, ghost ts: seq<Timer?>, ghost owned: set<Timer>)
      requires Valid() && ts == nodes[..size] && owned == Owned(owner)
      modifies this`size, nodes, Timers()
      ensures size <= nodes.Length && nodes[..size] == Kept(ts, owned)
      ensures forall i :: 0 <= i < |ts| ==>
                if ts[i] in owned then ts[i].Idle() && ts[i].expireAt == old(ts[i].expireAt)
                else unchanged(ts[i])
    {
      hide Kept, SlotsOf, Slots;
      KeptNone(owned);
      assert ts[..0] == [];
      var write: nat := 0;
      for read := 0 to size
        invariant write <= read <= size == |ts|
        invariant nodes[..write] == Kept(ts[..read], owned)
        invariant forall i :: read <= i < size ==> nodes[i] == ts[i]
        invariant forall i :: 0 <= i < |ts| ==>
                    if ts[i] in owned && ts[i] in ts[..read] then ts[i].Idle() && ts[i].expireAt == old(ts[i].expireAt)
                    else unchanged(ts[i])
      {
        KeptNext(ts, read, owned);
        write := CompactOne(owner, nodes[read], read, write);
      }
      size := write;
      assert ts[..|ts|] == ts;
    }

    method DropSlots(owner: Component)
      requires Valid()
      modifies this`size, nodes, Timers()
      ensures Valid() && Slots() == Without(old(Slots()), old(Owned(owner)))
      ensures forall t | t in old(Timers()) :: if t in old(Owned(owner)) then t.Idle() else unchanged(t)
    {
      hide Without, Kept, Slots;
      ghost var owned, ts, before := Owned(owner), nodes[..size], Slots();
      SlotsAre();
      CompactOwned(owner, ts, owned);
      assert SlotsOf(ts) == before;
      KeptSlots(ts, owned);
      SlotsAre();
    }

    /** The bottom-up repair loop of the cancel. */
    method RebuildHeap()
      requires Valid()
      modifies nodes
      ensures Valid() && Slots() == Rebuild(old(Slots()), size / 2)
    {
      hide SiftDown;
      ghost var before := Slots();
      var i: int := size / 2 - 1;
      while i >= 0
        invariant Valid() && -1 <= i
        invariant Rebuild(Slots(), i + 1) == Rebuild(before, size / 2)
        decreases i
      {
        HeapifyDown(i);
        i := i - 1;
      }
    }

    /** nos_scheduler_cancel_timers_by_owner, from an array in any order and with timers in it
        any number of times. */
    method CancelByOwner(owner: Component)
      requires Valid()
      modifies this`size, nodes, Timers()
      ensures Valid()
      ensures Slots() == Cancel(old(Slots()), old(Owned(owner)))
      ensures forall t | t in old(Timers()) :: if t in old(Owned(owner)) then t.Idle() else unchanged(t)
      ensures (forall t | t in old(Owned(owner)) :: t !in Timers()) <==>
                forall t | t in old(Owned(owner)) :: !Twice(old(Slots()), t)
      ensures old(Tidy()) ==> Tidy()
    {
      hide Cancel, Twice, TimerSet;
      ghost var before, owned, tidy := Slots(), Owned(owner), Tidy();
      SlotsFacts();
      CompactAndRebuild(owner);
      CancelClearsIff(before, owned);
      SlotsFacts();
      if tidy { CancelKeepsTidy(before, owned); }
    }

    /** Slots that were of different timers, all tidy, are so after the cancel. */
    lemma CancelKeepsTidy(before: seq<Slot<Timer>>, owned: set<Timer>)
      requires Valid() && TimersDiffer(before) && Slots() == Cancel(before, owned)
      requires forall t | t in TimerSet(before) && t !in owned :: t.isRunning && t.ownerThread == this && t.owner != null
      ensures Tidy()
    {
      hide Rebuild, Without;
      var k := Without(before, owned);
      WithoutDiffers(before, owned);
      RebuildPermutes(k, |k| / 2);
      SameSlots(k, Slots());
      TidyIff();
    }

    method CompactAndRebuild(owner: Component)
      requires Valid()
      modifies this`size, nodes, Timers()
      ensures Valid() && Slots() == Cancel(old(Slots()), old(Owned(owner)))
      ensures forall t | t in old(Timers()) :: if t in old(Owned(owner)) then t.Idle() else unchanged(t)
    {
      hide Rebuild, Without;
      DropSlots(owner);
      RebuildHeap();
    }

    ghost function Attrs(): map<Timer, Attr>
      reads this, nodes, Timers(), set t | t in Timers() && t.owner != null :: t.owner
    {
      map t | t in Timers() :: t.AttrOf()
    }

    method PopRoot() returns (timer: Timer)
      requires Valid() && size > 0
      modifies this`size, nodes, nodes[0]
      ensures timer == old(nodes[0]) && Timers() <= old(Timers())
      ensures Valid() && Slots() == RemoveAt(old(Slots()), 0)
      ensures timer.SameSetup()
    {
      hide RemoveAt, Twice;
      timer := nodes[0];
      Detach(0);
      ghost var kept := Slots();
      timer.isRunning := false;
      assert Slots() == kept;
    }

    /** Writing the expiry of a timer moves every slot it has. */
    method SetExpiry(timer: Timer, now: nat)
      requires Valid()
      modifies timer
      ensures Valid() && Slots() == Retime(old(Slots()), timer, now + timer.interval)
      ensures timer.SameSetup() && timer.expireAt == now + timer.interval && Timers() == old(Timers())
    {
      timer.RunAgain(now);
      assert Slots() == Retime(old(Slots()), timer, now + timer.interval);
    }

    /** The re-arm does not look whether the timer runs again by now. */
    method Rearm(timer: Timer, now: nat)
      requires Valid() && size < nodes.Length
      modifies this`size, nodes, timer
      ensures Valid() && Slots() == TimerFiring.Arm(old(Slots()), timer, now + timer.interval)
      ensures timer.SameSetup() && Timers() == old(Timers()) + {timer}
    {
      hide Insert, Retime, TimerSet;
      ghost var before := Slots();
      SlotsFacts();
      SetExpiry(timer, now);
      InsertNode(timer);
      SlotsFacts();
      ArmTimers(before, timer, now + timer.interval);
    }

    /** One turn of the firing loop; the callback itself is opaque and leaves the heap
        and the components alone. */
    method FireOne(now: nat, ghost a: map<Timer, Attr>) returns (timer: Timer, ran: bool)
      requires Valid() && RootDue(Slots(), now)
      requires At(a, nodes[0]) == nodes[0].AttrOf()
      modifies this`size, nodes, nodes[0]
      ensures timer == old(nodes[0]) && ran == At(a, timer).Fires()
      ensures Valid() && Slots() == Step(old(Slots()), a, now)
      ensures timer.SameSetup() && Timers() <= old(Timers())
    {
      hide RemoveAt, Insert;
      timer := PopRoot();
      ran := timer.owner != null && timer.owner.status == Active && timer.hasCallback;
      if timer.isPeriodic && timer.owner != null && timer.owner.status == Active {
        if size >= nodes.Length {
          assert false;
        }
        Rearm(timer, now);
      }
    }

    /** The guard of the firing loop, and what one turn makes of the rest of the run. */
    method FireTurn(now: nat, ghost a: map<Timer, Attr>) returns (ran: seq<Timer>)
      requires Valid() && NoZeroPeriod(Slots(), a, now) && RootDue(Slots(), now)
      requires forall t | t in Timers() :: At(a, t) == t.AttrOf()
      modifies this`size, nodes, nodes[0]
      ensures Valid() && NoZeroPeriod(Slots(), a, now)
      ensures forall t | t in Timers() :: At(a, t) == t.AttrOf()
      ensures Timers() <= old(Timers())
      ensures old(Fire(Slots(), a, now)) == ([old(Slots()[0])] + Fire(Slots(), a, now).0, Fire(Slots(), a, now).1)
      ensures ran == Fired([old(Slots()[0])], a)
      ensures DueTimers(Slots(), now) <= old(DueTimers(Slots(), now))
      ensures size < old(size) || (size <= old(size) && DueTimers(Slots(), now) < old(DueTimers(Slots(), now)))
    {
      hide Step, Fire, Fired, SlotsOf, NoZeroPeriod;
      ghost var h := Slots();
      FireOnce(h, a, now);
      StepProgress(h, a, now);
      FiredNext([], h[0], a);
      FiredNone(a);
      assert [] + [h[0]] == [h[0]];
      var timer, fires := FireOne(now, a);
      ran := if fires then [timer] else [];
    }

    /** process_timers with the clock held at now, from an array in any order: it ends,
        runs exactly the callbacks of Fire in that order, and leaves the array of Fire. */
    method ProcessTimers(now: nat) returns (fired: seq<Timer>)
      requires Valid() && NoZeroPeriod(Slots(), Attrs(), now)
      modifies this`size, nodes, Timers()
      ensures Valid()
      ensures Slots() == Fire(old(Slots()), old(Attrs()), now).1
      ensures fired == Fired(Fire(old(Slots()), old(Attrs()), now).0, old(Attrs()))
      ensures !RootDue(Slots(), now)
    {
      hide Step, Fire, Fired, SlotsOf, NoZeroPeriod;
      ghost var a := Attrs();
      ghost var goal := Fire(Slots(), a, now);
      ghost var popped := [];
      fired := [];
      FiredNone(a);
      while size > 0 && nodes[0].expireAt <= now
        invariant Valid() && NoZeroPeriod(Slots(), a, now)
        invariant Timers() <= old(Timers())
        invariant forall t | t in Timers() :: At(a, t) == t.AttrOf()
        invariant popped + Fire(Slots(), a, now).0 == goal.0
        invariant Fire(Slots(), a, now).1 == goal.1
        invariant fired == Fired(popped, a)
        decreases DueTimers(Slots(), now), size
      {
        ghost var root := Slots()[0];
        var ran := FireTurn(now, a);
        FiredAppend(popped, root, a);
        fired := fired + ran;
        MoveHead(popped, root, Fire(Slots(), a, now).0);
        popped := popped + [root];
      }
      FireDone(Slots(), a, now);
      assert popped == goal.0;
    }
  }

  lemma DifferentNotTwice<T>(h: seq<Slot<T>>, t: T)
    requires TimersDiffer(h)
    ensures !Twice(h, t)
  {
  }

  lemma NotTwice<T>(h: seq<Slot<T>>, t: T)
    requires t !in TimerSet(h)
    ensures !Twice(h, t)
  {
    assert forall i :: 0 <= i < |h| ==> h[i] in h;
  }

  lemma ArmTimers<T>(h: seq<Slot<T>>, t: T, d: nat)
    ensures TimerSet(TimerFiring.Arm(h, t, d)) == TimerSet(h) + {t}
  {
    var g, x := Retime(h, t, d), Slot(t, d);
    RetimeKeepsTimers(h, t, d);
    SiftUpPermutes(g + [x], |g|);
    SameTimerSet(g + [x], Insert(g, x));
    TimerSetNext(g, x);
    hide SiftUp;
  }
}
