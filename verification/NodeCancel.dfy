/** What an unload and a reload leave of the timers: from clean heaps exactly those of
    others, and from any state one slot less of each timer of the component. */
module NodeCancel {
  import opened Common
  import opened RingQueue
  import opened NodeTimers
  import opened NodeSpec
  import opened NodeInv
  import opened NodeTables
  import opened NodeRuns

  /** An instance marked stopped, with its messages dropped and its timers cancelled: what
      its stop callback finds. */
  function Hushed(n: Node, m: seq<Svc>, info: Info, scratch: bool): (r: Node)
    requires Threads(n) && info.thread < |n.slots| && info.comp in n.life.mem
    ensures Threads(r)
  {
    var p, t := info.comp, info.thread;
    var targets := TargetsFn(m, n.registry, n.life.mem[p].id, p);
    n.(life := Stop(n.life, p),
       queues := if scratch then n.queues[t := Keep(n.queues[t], Not(targets))] else n.queues,
       timers := Cancelled(n.timers, t, p))
  }

  lemma StopInstanceIs(n: Node, m: seq<Svc>, info: Info, scratch: bool, stop: seq<Act>)
    requires Threads(n) && info.thread < |n.slots| && NeedsStop(n.life, info.comp)
    ensures StopInstance(n, m, info, scratch, stop) == DoAll(Hushed(n, m, info, scratch), info.comp, stop)
  {
    hide DoAll, Keep, Stop, Targets, RegShape, Cancelled;
  }

  /** Destroying an instance already stopped runs no callback. */
  lemma QuietDestroy(n: Node, before: Life, p: Ptr, stop: seq<Act>)
    requires Threads(n) && n.life == NodeSpec.Stop(before, p)
    ensures Destroy(n, p, stop).queues == n.queues && Destroy(n, p, stop).timers == n.timers
  {
    hide DoAll;
  }

  /** The timers an unload leaves are those its stop callback leaves of the cancelled ones. */
  lemma UnloadTimersAre(n: Node, m: seq<Svc>, name: string, scratch: bool, stop: seq<Act>)
    requires Inv(n, m) && Sound(n) && NamedFrom(n, name, 0) < |n.loaded|
    ensures var i := NamedFrom(n, name, 0);
            var p, t := n.loaded[i].comp, n.loaded[i].thread;
            && TakeOff(n.slots[t], p).Some?
            && var b := Detached(n, m, i, TakeOff(n.slots[t], p).value);
            && b.timers == n.timers && Unlisted(b, p) && p in b.life.mem && t < |b.slots|
            && Unload(n, m, name, scratch, stop).1.timers == DoAll(Hushed(b, m, n.loaded[i], scratch), p, stop).timers
  {
    hide Unload, TakeOff, UnbindAll, StopInstance, Destroy, DoAll, Hushed, NamedFrom;
    var i := NamedFrom(n, name, 0);
    var p, t := n.loaded[i].comp, n.loaded[i].thread;
    assert NeedsStop(n.life, p) && ListsOk(n.slots, n.loaded);
    hide Inv, Stop, ListsOk, NeedsStop;
    OffAllLists(n.slots, n.loaded, i);
    UnloadUnfolds(n, m, name, scratch, stop);
    var b := Detached(n, m, i, TakeOff(n.slots[t], p).value);
    StopInstanceDoes(b, m, n.loaded[i], scratch, stop);
    StopInstanceIs(b, m, n.loaded[i], scratch, stop);
    QuietDestroy(StopInstance(b, m, n.loaded[i], scratch, stop), n.life, p, stop);
  }

  // ------------------------------------------------------------- clean heaps

  /** The slots of r are those of ts, but for those of the timers of p and of the timers
      stopped or deleted. */
  ghost predicate TimersOfOthers(r: Timers, ts: Timers, p: Ptr, acts: seq<Act>) {
    && |r.heaps| == |ts.heaps|
    && forall t, x :: 0 <= t < |r.heaps| ==>
         (x in r.heaps[t] <==>
            x in ts.heaps[t] && !(x in ts.recs && ts.recs[x].owner == p) && Disarm(x) !in acts && Delete(x) !in acts)
  }

  lemma CancelTakesOwn(ts: Timers, slots: seq<seq<Ptr>>, t: nat, p: Ptr)
    requires Clean(ts, slots) && t < |slots|
    requires forall u :: 0 <= u < |slots| && u != t ==> p !in slots[u]
    ensures TimersOfOthers(Cancelled(ts, t, p), ts, p, [])
  {
    var c, out := Cancelled(ts, t, p), OwnedIn(ts, t, p);
    forall u, x | 0 <= u < |ts.heaps|
      ensures x in c.heaps[u] <==> x in ts.heaps[u] && !(x in ts.recs && ts.recs[x].owner == p)
    {
      if x in ts.heaps[u] { assert SlotOk(ts, slots, u, x); }
      assert multiset(out)[x] == if x in out then 1 else 0;
    }
  }

  lemma OthersThenLess(r: Timers, c: Timers, ts: Timers, p: Ptr, earlier: seq<Act>, later: seq<Act>)
    requires TimersOfOthers(c, ts, p, earlier) && LessStopped(r, c, later)
    ensures TimersOfOthers(r, ts, p, earlier + later)
  {
    forall t, x | 0 <= t < |r.heaps|
      ensures x in r.heaps[t] <==> x in ts.heaps[t] && !(x in ts.recs && ts.recs[x].owner == p) &&
                                   Disarm(x) !in earlier + later && Delete(x) !in earlier + later
    {
      assert x in r.heaps[t] <==> x in c.heaps[t] && Disarm(x) !in later && Delete(x) !in later;
    }
  }

  lemma LessThenOthers(c: Timers, s: Timers, ts: Timers, p: Ptr, acts: seq<Act>)
    requires LessStopped(s, ts, acts) && TimersOfOthers(c, s, p, [])
    requires forall t, x :: 0 <= t < |ts.heaps| && x in ts.heaps[t] ==> x in ts.recs
    ensures TimersOfOthers(c, ts, p, acts)
  {
    forall t, x | 0 <= t < |c.heaps|
      ensures x in c.heaps[t] <==> x in ts.heaps[t] && !(x in ts.recs && ts.recs[x].owner == p) &&
                                   Disarm(x) !in acts && Delete(x) !in acts
    {
      var none: seq<Act> := [];
      assert Disarm(x) !in none && Delete(x) !in none;
      assert x in c.heaps[t] <==> x in s.heaps[t] && !(x in s.recs && s.recs[x].owner == p);
      assert x in s.heaps[t] <==> x in ts.heaps[t] && Disarm(x) !in acts && Delete(x) !in acts;
    }
  }

  lemma CleanSlotsLive(ts: Timers, slots: seq<seq<Ptr>>)
    requires Clean(ts, slots)
    ensures forall t, x :: 0 <= t < |ts.heaps| && x in ts.heaps[t] ==> x in ts.recs
  {
    forall t, x | 0 <= t < |ts.heaps| && x in ts.heaps[t] ensures x in ts.recs {
      assert SlotOk(ts, slots, t, x);
    }
  }

  /** The cancel of an instance that no thread lists, and then its stop callback. */
  lemma HushedTakesOwn(a: Node, m: seq<Svc>, info: Info, scratch: bool, stop: seq<Act>, slots: seq<seq<Ptr>>, rest: seq<Ptr>)
    requires Threads(a) && info.thread < |slots| && info.comp in a.life.mem && Unlisted(a, info.comp)
    requires Clean(a.timers, slots) && a.slots == slots[info.thread := rest]
    requires forall u :: 0 <= u < |slots| && u != info.thread ==> info.comp !in slots[u]
    requires forall q :: q in slots[info.thread] && q != info.comp ==> q in rest
    ensures TimersOfOthers(Hushed(a, m, info, scratch).timers, a.timers, info.comp, [])
    ensures LessStopped(DoAll(Hushed(a, m, info, scratch), info.comp, stop).timers, Hushed(a, m, info, scratch).timers, stop)
  {
    var p, t := info.comp, info.thread;
    var q := Hushed(a, m, info, scratch);
    assert q.timers == Cancelled(a.timers, t, p) && q.slots == a.slots && Unlisted(q, p);
    CancelTakesOwn(a.timers, slots, t, p);
    CancelledKeeps(a.timers, slots, t, p, rest);
    ActsTakeExactly(q, p, stop);
    hide DoAll, Hushed, Clean, TimersOfOthers, LessStopped, Cancelled;
  }

  /** From clean heaps an unload takes away exactly the timers of the component and those
      its stop callback stops or deletes. */
  lemma UnloadTimers(n: Node, m: seq<Svc>, name: string, scratch: bool, stop: seq<Act>)
    requires Inv(n, m) && Sound(n) && NamedFrom(n, name, 0) < |n.loaded| && !n.timers.restarted
    ensures var p := n.loaded[NamedFrom(n, name, 0)].comp;
            TimersOfOthers(Unload(n, m, name, scratch, stop).1.timers, n.timers, p, stop)
  {
    hide Inv, Unload, TakeOff, UnbindAll, ListsOk, MemOk, LifeOk, RegOk, DoAll, Hushed, Clean, TimersOfOthers, NamedFrom, LessStopped;
    var i := NamedFrom(n, name, 0);
    var p, t := n.loaded[i].comp, n.loaded[i].thread;
    UnloadTimersAre(n, m, name, scratch, stop);
    InvParts(n, m);
    OffAllLists(n.slots, n.loaded, i);
    var b := Detached(n, m, i, TakeOff(n.slots[t], p).value);
    var c := Hushed(b, m, n.loaded[i], scratch);
    HushedTakesOwn(b, m, n.loaded[i], scratch, stop, n.slots, TakeOff(n.slots[t], p).value);
    OthersThenLess(DoAll(c, p, stop).timers, c.timers, n.timers, p, [], stop);
    assert [] + stop == stop;
  }

  // ---------------------------------------------------------------- any state

  /** r has one slot of x less than ts, on thread t. */
  ghost predicate OneSlotLess(r: Timers, ts: Timers, t: nat, x: nat) {
    && |r.heaps| == |ts.heaps|
    && forall u :: 0 <= u < |r.heaps| ==> r.heaps[u][x] + (if u == t then 1 else 0) == ts.heaps[u][x]
  }

  lemma OneSlotLeftIff(r: Timers, ts: Timers, t: nat, x: nat)
    requires t < |ts.heaps| && OneSlotLess(r, ts, t, x)
    ensures (forall u :: 0 <= u < |r.heaps| ==> x !in r.heaps[u]) <==>
              forall u :: 0 <= u < |r.heaps| ==> ts.heaps[u][x] == if u == t then 1 else 0
  {
    if forall u :: 0 <= u < |r.heaps| ==> x !in r.heaps[u] {
      forall u | 0 <= u < |r.heaps| ensures ts.heaps[u][x] == if u == t then 1 else 0 {
        assert x !in r.heaps[u];
      }
    }
  }

  /** The cancel takes one slot of a timer, and nothing its stop callback tries takes
      another. */
  lemma StopTakesOne(n: Node, m: seq<Svc>, info: Info, scratch: bool, stop: seq<Act>, x: nat)
    requires Threads(n) && info.thread < |n.slots| && info.comp in n.life.mem && Unlisted(n, info.comp)
    requires x in OwnedIn(n.timers, info.thread, info.comp)
    ensures OneSlotLess(DoAll(Hushed(n, m, info, scratch), info.comp, stop).timers, n.timers, info.thread, x)
  {
    var p, t := info.comp, info.thread;
    var q := Hushed(n, m, info, scratch);
    assert q.timers == Cancelled(n.timers, t, p) && q.slots == n.slots && Unlisted(q, p);
    CancelClearsIff(n.timers, t, p);
    LooseStays(q, p, stop, x) by { assert q.timers.recs[x] == Cleared; }
    hide DoAll, Hushed;
  }

  /** From any state: an unload takes one slot of each timer the component has on its
      thread. It leaves none, in any heap, if and only if that was the only one; a slot it
      leaves stays whether or not the stop callback deletes the timer. */
  lemma UnloadLeavesIff(n: Node, m: seq<Svc>, name: string, scratch: bool, stop: seq<Act>, x: nat)
    requires Inv(n, m) && Sound(n) && NamedFrom(n, name, 0) < |n.loaded|
    requires var i := NamedFrom(n, name, 0); x in OwnedIn(n.timers, n.loaded[i].thread, n.loaded[i].comp)
    ensures var t := n.loaded[NamedFrom(n, name, 0)].thread;
            var r := Unload(n, m, name, scratch, stop).1;
            && OneSlotLess(r.timers, n.timers, t, x)
            && ((forall u :: 0 <= u < |r.timers.heaps| ==> x !in r.timers.heaps[u]) <==>
                  forall u :: 0 <= u < |r.timers.heaps| ==> n.timers.heaps[u][x] == if u == t then 1 else 0)
  {
    var i := NamedFrom(n, name, 0);
    var p, t := n.loaded[i].comp, n.loaded[i].thread;
    UnloadTimersAre(n, m, name, scratch, stop);
    hide Inv, Unload, TakeOff, UnbindAll, DoAll, Hushed, OneSlotLess, NamedFrom;
    StopTakesOne(Detached(n, m, i, TakeOff(n.slots[t], p).value), m, n.loaded[i], scratch, stop, x);
    OneSlotLeftIff(Unload(n, m, name, scratch, stop).1.timers, n.timers, t, x);
  }

  // ----------------------------------------------------------------- reload

  /** The node once a reload has its new instance in place of the old one. */
  function Taken(n: Node, m: seq<Svc>, i: nat, load: Load, name: string): (r: Node)
    requires Sound(n) && i < |n.loaded| && load.Staged?
    requires var s := LoadStaged(n, load, n.life.mem[n.loaded[i].comp].id, name).0;
             && s.loaded == n.loaded && s.slots == n.slots
             && TakeOff(n.slots[n.loaded[i].thread], n.loaded[i].comp).Some?
    ensures Threads(r)
  {
    var o, t := n.loaded[i].comp, n.loaded[i].thread;
    var id := n.life.mem[o].id;
    Swapped(LoadStaged(n, load, id, name).0, m, i, id, load.ptr, TakeOff(n.slots[t], o).value)
  }

  /** The timers a good reload leaves are those the old instance's stop callback leaves of
      the cancelled ones, which are those the new instance's init callback left. */
  lemma ReloadTimersAre(n: Node, m: seq<Svc>, name: string, load: Load, scratch: bool, stop: seq<Act>)
    requires Inv(n, m) && Sound(n) && NamedFrom(n, name, 0) < |n.loaded| && load.Staged? && NewPointer(n, load)
    ensures var i := NamedFrom(n, name, 0);
            var o, t, p := n.loaded[i].comp, n.loaded[i].thread, load.ptr;
            var s := LoadStaged(n, load, n.life.mem[o].id, name).0;
            && OnlyLife(s, n) && TakeOff(n.slots[t], o).Some? && Unlisted(n, p)
            && var a := Taken(n, m, i, load, name);
            && a.timers == s.timers && a.slots == n.slots[t := TakeOff(n.slots[t], o).value + [p]]
            && Unlisted(a, o) && o in a.life.mem && t < |a.slots|
            && s.timers == DoAll(n.(life := Create(n.life, p, n.life.mem[o].id, name)), p, load.init).timers
            && Reload(n, m, name, load, scratch, stop).1.timers == DoAll(Hushed(a, m, n.loaded[i], scratch), o, stop).timers
  {
    var i := NamedFrom(n, name, 0);
    var o, t, p := n.loaded[i].comp, n.loaded[i].thread, load.ptr;
    var id := n.life.mem[o].id;
    StagedDoes(n, m, load, id, name);
    ReloadReady(n, m, i, p, name);
    NotListed(n, m, p);
    var s := LoadStaged(n, load, id, name).0;
    ReloadUnfolds(n, m, name, load, scratch, stop, s);
    assert s.timers == DoAll(n.(life := Create(n.life, p, id, name)), p, load.init).timers;
    hide Reload, Inv, TakeOff, Quieter, BindAll, Stop, Free, Create, LoadStaged, StopInstance, NeedsStop, DoAll, Hushed;
    var a := Taken(n, m, i, load, name);
    assert Unlisted(a, o);
    StopInstanceIs(a, m, n.loaded[i], scratch, stop);
  }

  /** From clean heaps a good reload takes away exactly the timers of the old instance and
      those the callbacks stop or delete. */
  lemma ReloadTimers(n: Node, m: seq<Svc>, name: string, load: Load, scratch: bool, stop: seq<Act>)
    requires Inv(n, m) && Sound(n) && NamedFrom(n, name, 0) < |n.loaded| && load.Staged? && NewPointer(n, load)
    requires !n.timers.restarted
    ensures var o := n.loaded[NamedFrom(n, name, 0)].comp;
            TimersOfOthers(Reload(n, m, name, load, scratch, stop).1.timers, n.timers, o, load.init + stop)
  {
    var i := NamedFrom(n, name, 0);
    hide Inv, Reload, TakeOff, ListsOk, MemOk, LifeOk, RegOk, DoAll, Hushed, Clean, TimersOfOthers, NamedFrom, Taken, LoadStaged, LessStopped;
    var o, t, p := n.loaded[i].comp, n.loaded[i].thread, load.ptr;
    ReloadTimersAre(n, m, name, load, scratch, stop);
    InvParts(n, m);
    OffAllLists(n.slots, n.loaded, i);
    var a, r := Taken(n, m, i, load, name), Reload(n, m, name, load, scratch, stop).1;
    StagedCleanly(n, p, n.life.mem[o].id, name, load.init);
    HushedTakesOwn(a, m, n.loaded[i], scratch, stop, n.slots, TakeOff(n.slots[t], o).value + [p]);
    CleanSlotsLive(n.timers, n.slots);
    LessThenOthers(Hushed(a, m, n.loaded[i], scratch).timers, a.timers, n.timers, o, load.init);
    OthersThenLess(r.timers, Hushed(a, m, n.loaded[i], scratch).timers, n.timers, o, load.init, stop);
  }

  /** The init callback of an instance no thread lists yet. */
  lemma StagedCleanly(n: Node, p: Ptr, id: nat, name: string, init: seq<Act>)
    requires Threads(n) && Unlisted(n, p) && Clean(n.timers, n.slots)
    ensures var s := DoAll(n.(life := Create(n.life, p, id, name)), p, init);
            LessStopped(s.timers, n.timers, init) && Clean(s.timers, n.slots)
  {
    var b := n.(life := Create(n.life, p, id, name));
    assert Unlisted(b, p);
    ActsTakeExactly(b, p, init);
    ActsCalm(b, p, init);
    hide DoAll, Clean, LessStopped;
  }

  /** Component code that neither stops nor deletes timer x, from a component no thread
      lists, leaves x and its slots alone. */
  lemma {:induction false} LeftAlone(n: Node, p: Ptr, acts: seq<Act>, x: nat)
    requires Threads(n) && Unlisted(n, p) && x in n.timers.recs && Disarm(x) !in acts && Delete(x) !in acts
    ensures var r := DoAll(n, p, acts).timers;
            && x in r.recs && r.recs[x] == n.timers.recs[x] && |r.heaps| == |n.timers.heaps|
            && forall u :: 0 <= u < |r.heaps| ==> r.heaps[u][x] == n.timers.heaps[u][x]
  {
    if acts != [] {
      var a, last := DoAll(n, p, acts[..|acts| - 1]), acts[|acts| - 1];
      ActsTouch(n, p, acts[..|acts| - 1]);
      LeftAlone(n, p, acts[..|acts| - 1], x);
      assert last in acts;
      LeftAloneOnce(a, p, last, x);
      hide Do;
    }
  }

  lemma LeftAloneOnce(n: Node, p: Ptr, a: Act, x: nat)
    requires Threads(n) && Unlisted(n, p) && x in n.timers.recs && a != Disarm(x) && a != Delete(x)
    ensures var r := Do(n, p, a).timers;
            && x in r.recs && r.recs[x] == n.timers.recs[x] && |r.heaps| == |n.timers.heaps|
            && forall u :: 0 <= u < |r.heaps| ==> r.heaps[u][x] == n.timers.heaps[u][x]
  {
    if a.Arm? { UnlistedStarts(n, p, a.timer); }
    hide Find;
  }

  lemma ReloadTakesOne(n: Node, m: seq<Svc>, name: string, load: Load, scratch: bool, stop: seq<Act>, x: nat)
    requires Inv(n, m) && Sound(n) && NamedFrom(n, name, 0) < |n.loaded| && load.Staged? && NewPointer(n, load)
    requires var i := NamedFrom(n, name, 0); x in OwnedIn(n.timers, n.loaded[i].thread, n.loaded[i].comp)
    requires Disarm(x) !in load.init && Delete(x) !in load.init
    ensures OneSlotLess(Reload(n, m, name, load, scratch, stop).1.timers, n.timers, n.loaded[NamedFrom(n, name, 0)].thread, x)
  {
    hide Inv, Reload, TakeOff, DoAll, Hushed, NamedFrom, Taken, LoadStaged, Quieter, Create, NewPointer;
    var i := NamedFrom(n, name, 0);
    var o, t, p := n.loaded[i].comp, n.loaded[i].thread, load.ptr;
    ReloadTimersAre(n, m, name, load, scratch, stop);
    var b := n.(life := Create(n.life, p, n.life.mem[o].id, name));
    assert Unlisted(b, p);
    LeftAlone(b, p, load.init, x);
    StopTakesOne(Taken(n, m, i, load, name), m, n.loaded[i], scratch, stop, x);
  }

  /** From any state: a good reload takes one slot of each timer the old instance has on its
      thread, if the new instance's init callback does not meddle with it; it leaves none
      if and only if that was the only one. */
  lemma ReloadLeavesIff(n: Node, m: seq<Svc>, name: string, load: Load, scratch: bool, stop: seq<Act>, x: nat)
    requires Inv(n, m) && Sound(n) && NamedFrom(n, name, 0) < |n.loaded| && load.Staged? && NewPointer(n, load)
    requires var i := NamedFrom(n, name, 0); x in OwnedIn(n.timers, n.loaded[i].thread, n.loaded[i].comp)
    requires Disarm(x) !in load.init && Delete(x) !in load.init
    ensures var t := n.loaded[NamedFrom(n, name, 0)].thread;
            var r := Reload(n, m, name, load, scratch, stop).1;
            && OneSlotLess(r.timers, n.timers, t, x)
            && ((forall u :: 0 <= u < |r.timers.heaps| ==> x !in r.timers.heaps[u]) <==>
                  forall u :: 0 <= u < |r.timers.heaps| ==> n.timers.heaps[u][x] == if u == t then 1 else 0)
  {
    ReloadTakesOne(n, m, name, load, scratch, stop, x);
    hide Inv, Reload, OwnedIn, OneSlotLess, NamedFrom;
    OneSlotLeftIff(Reload(n, m, name, load, scratch, stop).1.timers, n.timers, n.loaded[NamedFrom(n, name, 0)].thread, x);
  }
}
