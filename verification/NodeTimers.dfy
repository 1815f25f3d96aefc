/** Timers as the node manager meets them: objects with an owner, a thread and a running flag,
    and for each thread the slots of its heap, in whatever order. A timer can sit in a heap
    twice, and a slot can outlive its timer. */
module NodeTimers {
  import opened Common

  /** 0 is NULL. */
  type Ptr = nat

  /** The fields of nos_timer_s that say who has it and where. */
  datatype Timer = Timer(owner: Ptr, thread: Option<nat>, running: bool)

  /** recs: the timers created and not deleted; heaps: the slots of each thread; restarted: a
      timer was running again when the firing loop re-armed it. */
  datatype Timers = Timers(recs: map<nat, Timer>, heaps: seq<multiset<nat>>, restarted: bool)

  const Cleared: Timer := Timer(0, None, false)

  // -------------------------------------------------------------- operations

  /** nos_timer_create. */
  function Made(ts: Timers, x: nat): Timers {
    if x in ts.recs then ts else ts.(recs := ts.recs[x := Cleared])
  }

  /** nos_timer_start by component p, which was found on thread t, or on none. */
  function Started(ts: Timers, p: Ptr, t: nat, x: nat): Timers {
    if t >= |ts.heaps| || x !in ts.recs || ts.recs[x].running || |ts.heaps[t]| >= TIMER_HEAP_CAPACITY then ts
    else ts.(recs := ts.recs[x := Timer(p, Some(t), true)], heaps := ts.heaps[t := ts.heaps[t] + multiset{x}])
  }

  /** The heap a timer is looked for in: its own thread's, or else that of the caller. */
  function Home(ts: Timers, t: nat, x: nat): nat {
    if x in ts.recs && ts.recs[x].thread.Some? then ts.recs[x].thread.value else t
  }

  /** nos_timer_stop by a component on thread t, or on none. */
  function Stopped(ts: Timers, t: nat, x: nat): Timers {
    var h := Home(ts, t, x);
    if h >= |ts.heaps| || x !in ts.recs || !ts.recs[x].running || x !in ts.heaps[h] then ts
    else ts.(recs := ts.recs[x := Cleared], heaps := ts.heaps[h := ts.heaps[h] - multiset{x}])
  }

  /** nos_timer_delete: one slot goes if the timer is running, then its memory. */
  function Deleted(ts: Timers, x: nat): Timers {
    if x !in ts.recs then ts
    else
      var out := if ts.recs[x].running && ts.recs[x].thread.Some? then Stopped(ts, |ts.heaps|, x) else ts;
      out.(recs := out.recs - {x})
  }

  function OwnedIn(ts: Timers, t: nat, p: Ptr): set<nat>
    requires t < |ts.heaps|
  {
    set x | x in ts.heaps[t] && x in ts.recs && ts.recs[x].owner == p
  }

  /** nos_scheduler_cancel_timers_by_owner: at the first slot of each timer of p the owner is
      cleared and the slot dropped, so a second slot is nobody's and stays. */
  function Cancelled(ts: Timers, t: nat, p: Ptr): Timers
    requires t < |ts.heaps|
  {
    var out := OwnedIn(ts, t, p);
    ts.(recs := map x | x in ts.recs :: if x in out then Cleared else ts.recs[x],
        heaps := ts.heaps[t := ts.heaps[t] - multiset(out)])
  }

  /** process_timers takes a slot of timer x out. */
  function Popped(ts: Timers, t: nat, x: nat): Timers
    requires t < |ts.heaps|
  {
    ts.(heaps := ts.heaps[t := ts.heaps[t] - multiset{x}],
        recs := if x in ts.recs then ts.recs[x := ts.recs[x].(running := false)] else ts.recs)
  }

  /** process_timers puts timer x in again, unless the heap is full; it does not look whether
      the timer runs by now. */
  function Rearmed(ts: Timers, t: nat, x: nat): Timers
    requires t < |ts.heaps| && x in ts.recs
  {
    var full := |ts.heaps[t]| >= TIMER_HEAP_CAPACITY;
    Timers(ts.recs[x := ts.recs[x].(running := !full)],
           if full then ts.heaps else ts.heaps[t := ts.heaps[t] + multiset{x}],
           ts.restarted || ts.recs[x].running)
  }

  // --------------------------------------------------------------- invariant

  /** Slot x of thread t is the one slot of a timer that runs there for a listed component. */
  ghost predicate SlotOk(ts: Timers, slots: seq<seq<Ptr>>, t: nat, x: nat)
    requires t < |ts.heaps| && t < |slots|
  {
    && ts.heaps[t][x] == 1 && x in ts.recs && ts.recs[x].running && ts.recs[x].thread == Some(t)
    && ts.recs[x].owner in slots[t]
  }

  /** Each slot is the only one of a live timer, which runs for a component of that thread;
      each running timer has its slot. */
  ghost predicate Clean(ts: Timers, slots: seq<seq<Ptr>>) {
    && |ts.heaps| == |slots|
    && (forall t, x :: 0 <= t < |ts.heaps| && x in ts.heaps[t] ==> SlotOk(ts, slots, t, x))
    && (forall x :: x in ts.recs && ts.recs[x].running ==>
          ts.recs[x].thread.Some? && ts.recs[x].thread.value < |ts.heaps| && x in ts.heaps[ts.recs[x].thread.value])
  }

  lemma MadeKeeps(ts: Timers, slots: seq<seq<Ptr>>, x: nat)
    ensures Clean(ts, slots) ==> Clean(Made(ts, x), slots)
  {
    if Clean(ts, slots) && x !in ts.recs {
      var r := Made(ts, x);
      forall t, y | 0 <= t < |r.heaps| && y in r.heaps[t] ensures SlotOk(r, slots, t, y) {
        assert SlotOk(ts, slots, t, y);
      }
    }
  }

  lemma StartedKeeps(ts: Timers, slots: seq<seq<Ptr>>, p: Ptr, t: nat, x: nat)
    requires t < |slots| ==> p in slots[t]
    ensures Clean(ts, slots) ==> Clean(Started(ts, p, t, x), slots)
  {
    var r := Started(ts, p, t, x);
    if Clean(ts, slots) && r != ts {
      assert forall u :: 0 <= u < |ts.heaps| ==> x !in ts.heaps[u];
      forall u, y | 0 <= u < |r.heaps| && y in r.heaps[u] ensures SlotOk(r, slots, u, y) {
        if y != x { assert SlotOk(ts, slots, u, y); }
      }
      forall y | y in r.recs && r.recs[y].running
        ensures r.recs[y].thread.Some? && r.recs[y].thread.value < |r.heaps| && y in r.heaps[r.recs[y].thread.value]
      {
      }
    }
  }

  lemma StoppedKeeps(ts: Timers, slots: seq<seq<Ptr>>, t: nat, x: nat)
    ensures Clean(ts, slots) ==> Clean(Stopped(ts, t, x), slots)
  {
    var r, h := Stopped(ts, t, x), Home(ts, t, x);
    if Clean(ts, slots) && r != ts {
      assert SlotOk(ts, slots, h, x);
      forall u, y | 0 <= u < |r.heaps| && y in r.heaps[u] ensures SlotOk(r, slots, u, y) {
        assert SlotOk(ts, slots, u, y);
        assert y != x;
      }
      forall y | y in r.recs && r.recs[y].running
        ensures r.recs[y].thread.Some? && r.recs[y].thread.value < |r.heaps| && y in r.heaps[r.recs[y].thread.value]
      {
      }
    }
  }

  lemma DeletedKeeps(ts: Timers, slots: seq<seq<Ptr>>, x: nat)
    ensures Clean(ts, slots) ==> Clean(Deleted(ts, x), slots)
  {
    hide Clean, Stopped, Home;
    if Clean(ts, slots) && x in ts.recs {
      if ts.recs[x].running && ts.recs[x].thread.Some? {
        StoppedKeeps(ts, slots, |ts.heaps|, x);
        StoppedRuns(ts, slots, |ts.heaps|, x);
        ForgottenKeeps(Stopped(ts, |ts.heaps|, x), slots, x);
      } else {
        if ts.recs[x].running { RunsSomewhere(ts, slots, x); }
        ForgottenKeeps(ts, slots, x);
      }
    }
  }

  /** A running timer of a clean state can be stopped. */
  lemma StoppedRuns(ts: Timers, slots: seq<seq<Ptr>>, t: nat, x: nat)
    requires Clean(ts, slots) && x in ts.recs && ts.recs[x].running
    ensures x in Stopped(ts, t, x).recs && Stopped(ts, t, x).recs[x] == Cleared
  {
  }

  lemma RunsSomewhere(ts: Timers, slots: seq<seq<Ptr>>, x: nat)
    requires Clean(ts, slots) && x in ts.recs && ts.recs[x].running
    ensures ts.recs[x].thread.Some?
  {
  }

  /** The memory of a timer that does not run. */
  lemma ForgottenKeeps(ts: Timers, slots: seq<seq<Ptr>>, x: nat)
    requires Clean(ts, slots) && x in ts.recs && !ts.recs[x].running
    ensures Clean(ts.(recs := ts.recs - {x}), slots)
  {
    var r := ts.(recs := ts.recs - {x});
    forall u, y | 0 <= u < |r.heaps| && y in r.heaps[u] ensures SlotOk(r, slots, u, y) {
      assert SlotOk(ts, slots, u, y);
    }
  }

  /** The slots the cancel leaves are those of the other owners' timers. */
  lemma CancelledSlots(ts: Timers, slots: seq<seq<Ptr>>, t: nat, p: Ptr)
    requires Clean(ts, slots) && t < |slots|
    ensures var r, out := Cancelled(ts, t, p), OwnedIn(ts, t, p);
            && |r.heaps| == |ts.heaps|
            && forall u, y :: 0 <= u < |r.heaps| ==>
                 r.heaps[u][y] == if u == t && y in out then 0 else ts.heaps[u][y]
  {
    var out := OwnedIn(ts, t, p);
    forall y | y in ts.heaps[t] ensures ts.heaps[t][y] == 1 && multiset(out)[y] == if y in out then 1 else 0 {
      assert SlotOk(ts, slots, t, y);
    }
  }

  /** The cancel of p on its thread, when p is on no other: every slot is then that of a
      timer of somebody who stays. */
  lemma CancelledKeeps(ts: Timers, slots: seq<seq<Ptr>>, t: nat, p: Ptr, rest: seq<Ptr>)
    requires Clean(ts, slots) && t < |slots|
    requires forall q :: q in slots[t] && q != p ==> q in rest
    ensures Clean(Cancelled(ts, t, p), slots[t := rest])
  {
    var r := Cancelled(ts, t, p);
    CancelledSlots(ts, slots, t, p);
    CancelledRuns(ts, slots, t, p);
    forall u, y | 0 <= u < |r.heaps| && y in r.heaps[u] ensures SlotOk(r, slots[t := rest], u, y) {
      assert SlotOk(ts, slots, u, y);
      if y in ts.heaps[t] { assert SlotOk(ts, slots, t, y); }
    }
    hide OwnedIn;
  }

  /** A timer that runs after the cancel was not cancelled, and has its slot still. */
  lemma CancelledRuns(ts: Timers, slots: seq<seq<Ptr>>, t: nat, p: Ptr)
    requires Clean(ts, slots) && t < |slots|
    ensures var r := Cancelled(ts, t, p);
            forall y :: y in r.recs && r.recs[y].running ==>
              r.recs[y].thread.Some? && r.recs[y].thread.value < |r.heaps| && y in r.heaps[r.recs[y].thread.value]
  {
    CancelledSlots(ts, slots, t, p);
    var r := Cancelled(ts, t, p);
    forall y | y in r.recs && r.recs[y].running
      ensures r.recs[y].thread.Some? && r.recs[y].thread.value < |r.heaps| && y in r.heaps[r.recs[y].thread.value]
    {
      assert y !in OwnedIn(ts, t, p) && r.recs[y] == ts.recs[y];
      assert ts.heaps[r.recs[y].thread.value][y] > 0;
    }
  }

  /** A slot of a clean state popped: its timer waits, and sits nowhere. */
  lemma PoppedKeeps(ts: Timers, slots: seq<seq<Ptr>>, t: nat, x: nat)
    requires Clean(ts, slots) && t < |slots| && x in ts.heaps[t]
    ensures var r := Popped(ts, t, x);
            && Clean(r, slots) && x in r.recs
            && r.recs[x] == Timer(ts.recs[x].owner, Some(t), false) && r.recs[x].owner in slots[t]
  {
    var r := Popped(ts, t, x);
    assert SlotOk(ts, slots, t, x);
    forall u, y | 0 <= u < |r.heaps| && y in r.heaps[u] ensures SlotOk(r, slots, u, y) {
      assert SlotOk(ts, slots, u, y);
      assert y != x;
    }
    forall y | y in r.recs && r.recs[y].running
      ensures r.recs[y].thread.Some? && r.recs[y].thread.value < |r.heaps| && y in r.heaps[r.recs[y].thread.value]
    {
    }
  }

  /** A timer that waits on its thread is put in again. */
  lemma RearmedKeeps(ts: Timers, slots: seq<seq<Ptr>>, t: nat, x: nat)
    requires Clean(ts, slots) && t < |slots| && x in ts.recs && !ts.recs[x].running
    requires ts.recs[x].thread == Some(t) && ts.recs[x].owner in slots[t]
    ensures Clean(Rearmed(ts, t, x), slots)
  {
    var r := Rearmed(ts, t, x);
    assert forall u :: 0 <= u < |ts.heaps| ==> x !in ts.heaps[u];
    forall u, y | 0 <= u < |r.heaps| && y in r.heaps[u] ensures SlotOk(r, slots, u, y) {
      if y != x { assert SlotOk(ts, slots, u, y); }
    }
    forall y | y in r.recs && r.recs[y].running
      ensures r.recs[y].thread.Some? && r.recs[y].thread.value < |r.heaps| && y in r.heaps[r.recs[y].thread.value]
    {
    }
  }

  /** From any state, with timers in a heap any number of times: the cancel takes one slot of
      each timer of p, so it leaves none if and only if none of them sits there twice. */
  lemma CancelClearsIff(ts: Timers, t: nat, p: Ptr)
    requires t < |ts.heaps|
    ensures forall x :: Cancelled(ts, t, p).heaps[t][x] == ts.heaps[t][x] - if x in OwnedIn(ts, t, p) then 1 else 0
    ensures (forall x :: x in OwnedIn(ts, t, p) ==> x !in Cancelled(ts, t, p).heaps[t]) <==>
              forall x :: x in OwnedIn(ts, t, p) ==> ts.heaps[t][x] == 1
  {
    var out := OwnedIn(ts, t, p);
    forall x ensures multiset(out)[x] == if x in out then 1 else 0 {
    }
  }
}
