/** What the node manager guarantees over every run, and what one unload or reload does. */
module NodeTheorems {
  import opened Common
  import opened RingQueue
  import opened NodeTimers
  import opened NodeSpec
  import opened NodeRegistry
  import opened NodeInv
  import opened NodeTables
  import opened NodeRuns
  import opened NodeCancel

  ghost predicate Init(n: Node) {
    && Threads(n) && n.life == Life(map[], 0, []) && n.loaded == [] && n.booting
    && n.registry.count == 0 && (forall i :: 0 <= i < MAX_SERVICES ==> n.registry.slots[i].provider == 0)
    && n.timers.recs == map[] && !n.timers.restarted
    && (forall t :: 0 <= t < |n.slots| ==> n.slots[t] == [] && n.timers.heaps[t] == multiset{} && n.queues[t] == [])
  }

  ghost predicate Run(r: seq<Node>, ops: seq<Op>, m: seq<Svc>) {
    && |r| == |ops| + 1 && Init(r[0])
    && forall i :: 0 <= i < |ops| ==> Sound(r[i]) && Possible(r[i], m, ops[i]) && r[i + 1] == Next(r[i], m, ops[i])
  }

  lemma InitInv(n: Node, m: seq<Svc>)
    requires Init(n)
    ensures Inv(n, m)
  {
  }

  lemma {:induction false} AlwaysInv(r: seq<Node>, ops: seq<Op>, m: seq<Svc>)
    requires Run(r, ops, m) && ManifestOk(m)
    ensures Inv(r[|r| - 1], m)
  {
    hide Inv, Init, Possible, Next;
    if |ops| == 0 {
      InitInv(r[0], m);
    } else {
      var k := |ops| - 1;
      assert Run(r[..|r| - 1], ops[..k], m);
      AlwaysInv(r[..|r| - 1], ops[..k], m);
      assert r[k + 1] == Next(r[k], m, ops[k]);
      NextKeeps(r[k], m, ops[k]);
    }
  }

  // ----------------------------------------------------------------- timers

  /** A turn of the firing loop that re-arms a timer which runs already: its callback
      started it again. */
  predicate Doubles(n: Node, op: Op)
    requires Threads(n)
  {
    && op.Firing? && op.thread < |n.slots| && op.periodic
    && var a := n.(timers := Popped(n.timers, op.thread, op.timer));
    && ActiveOwner(a, op.timer)
    && var b := DoAll(a, a.timers.recs[op.timer].owner, op.acts);
    ActiveOwner(b, op.timer) && b.timers.recs[op.timer].running
  }

  lemma FireDoubles(n: Node, op: Op)
    requires Threads(n) && op.Firing? && op.thread < |n.slots|
    ensures Fire(n, op.thread, op.timer, op.periodic, op.acts).timers.restarted == (n.timers.restarted || Doubles(n, op))
  {
    var a := n.(timers := Popped(n.timers, op.thread, op.timer));
    if ActiveOwner(a, op.timer) { ActsTouch(a, a.timers.recs[op.timer].owner, op.acts); }
    hide DoAll;
  }

  lemma PlaceRestartsNone(n: Node, m: seq<Svc>, t: nat, id: nat, name: string, load: Load)
    requires Inv(n, m) && t < |n.slots| && NewPointer(n, load)
    ensures Place(n, t, id, name, load).timers.restarted == n.timers.restarted
  {
    match load
    case Missing =>
    case Broken(_, _, _) =>
      BrokenDoes(n, m, load, id, name);
      hide LoadStaged, Inv, Clean;
    case Staged(p, _, stop) =>
      StagedDoes(n, m, load, id, name);
      NotListed(n, m, p);
      var s := LoadStaged(n, load, id, name).0;
      hide LoadStaged, Destroy, Inv, Clean;
      assert Unlisted(s, p);
      DestroyDoes(s, p, stop);
  }

  lemma UnloadRestartsNone(n: Node, m: seq<Svc>, name: string, scratch: bool, stop: seq<Act>)
    requires Inv(n, m) && Sound(n)
    ensures Unload(n, m, name, scratch, stop).1.timers.restarted == n.timers.restarted
  {
    if NamedFrom(n, name, 0) < |n.loaded| {
      UnloadDoes(n, m, name, scratch, stop);
      hide Unload, Inv, Clean, TakeOff;
    }
  }

  lemma ReloadRestartsNone(n: Node, m: seq<Svc>, name: string, load: Load, scratch: bool, stop: seq<Act>)
    requires Inv(n, m) && Sound(n) && NewPointer(n, load)
    ensures Reload(n, m, name, load, scratch, stop).1.timers.restarted == n.timers.restarted
  {
    var i := NamedFrom(n, name, 0);
    if i < |n.loaded| {
      var o := n.loaded[i].comp;
      if load.Broken? {
        BrokenDoes(n, m, load, n.life.mem[o].id, name);
        hide LoadStaged, Inv, Clean;
      } else if load.Staged? {
        ReloadTimersAre(n, m, name, load, scratch, stop);
        hide Reload, Inv, Clean, TakeOff, DoAll, Taken, LoadStaged, Hushed;
        HushedRestartsNone(Taken(n, m, i, load, name), m, n.loaded[i], scratch, stop);
      }
    }
  }

  lemma HushedRestartsNone(n: Node, m: seq<Svc>, info: Info, scratch: bool, stop: seq<Act>)
    requires Threads(n) && info.thread < |n.slots| && info.comp in n.life.mem
    ensures DoAll(Hushed(n, m, info, scratch), info.comp, stop).timers.restarted == n.timers.restarted
  {
    ActsTouch(Hushed(n, m, info, scratch), info.comp, stop);
    hide DoAll;
  }

  lemma NextDoubles(n: Node, m: seq<Svc>, op: Op)
    requires Inv(n, m) && Sound(n) && Possible(n, m, op)
    ensures Next(n, m, op).timers.restarted == (n.timers.restarted || Doubles(n, op))
  {
    match op
    case Placing(t, id, name, load) => hide Inv, Place; PlaceRestartsNone(n, m, t, id, name, load);
    case Starting(p, _, acts) => hide Inv, DoAll; ActsTouch(n, p, acts);
    case Working(p, acts) => hide Inv, DoAll; ActsTouch(n, p, acts);
    case Firing(_, _, _, _) => hide Inv, Fire, Doubles; FireDoubles(n, op);
    case Unloading(name, scratch, stop) => hide Inv, Unload; UnloadRestartsNone(n, m, name, scratch, stop);
    case Reloading(name, load, scratch, stop) => hide Inv, Reload; ReloadRestartsNone(n, m, name, load, scratch, stop);
    case _ => hide Inv;
  }

  /** No timer of the run was re-armed while it ran. */
  ghost predicate NeverDoubles(r: seq<Node>, ops: seq<Op>, m: seq<Svc>)
    requires Run(r, ops, m)
  {
    forall i :: 0 <= i < |ops| ==> !Doubles(r[i], ops[i])
  }

  lemma {:induction false} RestartedIff(r: seq<Node>, ops: seq<Op>, m: seq<Svc>)
    requires Run(r, ops, m) && ManifestOk(m)
    ensures r[|r| - 1].timers.restarted <==> !NeverDoubles(r, ops, m)
  {
    hide Inv, Init, Possible, Next, Doubles;
    if |ops| == 0 {
      assert !r[0].timers.restarted by { InitTimers(r[0]); }
    } else {
      var k := |ops| - 1;
      var q := r[..|r| - 1];
      assert Run(q, ops[..k], m);
      RestartedIff(q, ops[..k], m);
      AlwaysInv(q, ops[..k], m);
      assert q[|q| - 1] == r[k] && r[k + 1] == Next(r[k], m, ops[k]);
      NextDoubles(r[k], m, ops[k]);
      assert NeverDoubles(r, ops, m) <==> NeverDoubles(q, ops[..k], m) && !Doubles(r[k], ops[k]) by {
        DoublesSplit(r, ops, m);
      }
    }
  }

  lemma InitTimers(n: Node)
    requires Init(n)
    ensures !n.timers.restarted
  {
  }

  lemma DoublesSplit(r: seq<Node>, ops: seq<Op>, m: seq<Svc>)
    requires Run(r, ops, m) && |ops| > 0 && Run(r[..|r| - 1], ops[..|ops| - 1], m)
    ensures NeverDoubles(r, ops, m) <==>
              NeverDoubles(r[..|r| - 1], ops[..|ops| - 1], m) && !Doubles(r[|ops| - 1], ops[|ops| - 1])
  {
    hide Inv, Init, Possible, Next, Doubles;
    var q, os := r[..|r| - 1], ops[..|ops| - 1];
    assert forall i :: 0 <= i < |os| ==> q[i] == r[i] && os[i] == ops[i];
  }

  // --------------------------------------------------------------- pointers

  /** Over every run of load, unload and reload, with components and timers and messages
      moving in between: every registry entry, list place and loaded entry is a live
      component on the thread that is named with it. If no timer was re-armed while it ran,
      every heap slot is that of a live timer of a live component of that thread. */
  lemma NoDanglingComponent(r: seq<Node>, ops: seq<Op>, m: seq<Svc>)
    requires Run(r, ops, m) && ManifestOk(m)
    ensures var n := r[|r| - 1];
            && Threads(n)
            && (forall i :: 0 <= i < n.registry.count && !n.registry.slots[i].remote ==>
                  var e := n.registry.slots[i];
                  e.provider in n.life.mem && e.thread < |n.slots| && e.provider in n.slots[e.thread])
            && (forall t, p :: 0 <= t < |n.slots| && p in n.slots[t] ==> p in n.life.mem && Info(p, t) in n.loaded)
            && (forall i :: 0 <= i < |n.loaded| ==>
                  var f := n.loaded[i];
                  f.comp in n.life.mem && f.thread < |n.slots| && f.comp in n.slots[f.thread])
            && (NeverDoubles(r, ops, m) ==>
                  forall t, x :: 0 <= t < |n.slots| && x in n.timers.heaps[t] ==> LiveSlot(n, t, x))
  {
    AlwaysInv(r, ops, m);
    RestartedIff(r, ops, m);
    InvPoints(r[|r| - 1], m);
    hide Inv, LiveSlot;
  }

  predicate LiveSlot(n: Node, t: nat, x: nat)
    requires Threads(n) && t < |n.slots|
  {
    && x in n.timers.recs && n.timers.recs[x].running
    && n.timers.recs[x].owner in n.life.mem && n.timers.recs[x].owner in n.slots[t]
  }

  lemma InvPoints(n: Node, m: seq<Svc>)
    requires Inv(n, m)
    ensures Threads(n)
    ensures forall i :: 0 <= i < n.registry.count && !n.registry.slots[i].remote ==>
              var e := n.registry.slots[i];
              e.provider in n.life.mem && e.thread < |n.slots| && e.provider in n.slots[e.thread]
    ensures forall t, p :: 0 <= t < |n.slots| && p in n.slots[t] ==> p in n.life.mem && Info(p, t) in n.loaded
    ensures forall i :: 0 <= i < |n.loaded| ==>
              var f := n.loaded[i];
              f.comp in n.life.mem && f.thread < |n.slots| && f.comp in n.slots[f.thread]
    ensures !n.timers.restarted ==>
              forall t, x :: 0 <= t < |n.slots| && x in n.timers.heaps[t] ==> LiveSlot(n, t, x)
  {
    EntriesPoint(n, m);
    ListsPoint(n, m);
    if !n.timers.restarted {
      forall t, x | 0 <= t < |n.slots| && x in n.timers.heaps[t] ensures LiveSlot(n, t, x) {
        assert SlotOk(n.timers, n.slots, t, x);
      }
    }
  }

  lemma ListsPoint(n: Node, m: seq<Svc>)
    requires Inv(n, m)
    ensures forall t, p :: 0 <= t < |n.slots| && p in n.slots[t] ==> p in n.life.mem && Info(p, t) in n.loaded
    ensures forall i :: 0 <= i < |n.loaded| ==>
              var f := n.loaded[i];
              f.comp in n.life.mem && f.thread < |n.slots| && f.comp in n.slots[f.thread]
  {
    hide LifeOk, HeapsOk, RegOk, Blank;
    forall t, p | 0 <= t < |n.slots| && p in n.slots[t] ensures p in n.life.mem && Info(p, t) in n.loaded {
      assert Info(p, t) in n.loaded;
      assert Listed(n.loaded, p);
    }
    forall i | 0 <= i < |n.loaded| ensures n.loaded[i].comp in n.life.mem && n.loaded[i].comp in n.slots[n.loaded[i].thread] {
      assert Listed(n.loaded, n.loaded[i].comp);
      assert Info(n.loaded[i].comp, n.loaded[i].thread) in n.loaded;
    }
  }

  lemma EntriesPoint(n: Node, m: seq<Svc>)
    requires Inv(n, m)
    ensures forall i :: 0 <= i < n.registry.count && !n.registry.slots[i].remote ==>
              var e := n.registry.slots[i];
              e.provider in n.life.mem && e.thread < |n.slots| && e.provider in n.slots[e.thread]
  {
    hide LifeOk, HeapsOk, Blank, Provides;
    forall i | 0 <= i < n.registry.count && !n.registry.slots[i].remote
      ensures var e := n.registry.slots[i]; e.provider in n.life.mem && e.thread < |n.slots| && e.provider in n.slots[e.thread]
    {
      var e := n.registry.slots[i];
      assert Has(n.registry, e);
      assert EntryOk(e, n.life.mem, n.loaded, m);
    }
  }

  /** Stop is called at most once on any instance ever made, and exactly on those that are
      gone: unloaded, replaced, or failed to load. */
  lemma StoppedOnceIffGone(r: seq<Node>, ops: seq<Op>, m: seq<Svc>, serial: nat)
    requires Run(r, ops, m) && ManifestOk(m) && serial < r[|r| - 1].life.born
    ensures var l := r[|r| - 1].life;
            && multiset(l.stops)[serial] == (if HasSerial(l, serial) then 0 else 1)
  {
    AlwaysInv(r, ops, m);
    var l := r[|r| - 1].life;
    assert LifeOk(l);
    hide Run, Inv;
    CountOnce(l.stops, serial);
  }

  lemma {:induction false} CountOnce(s: seq<nat>, x: nat)
    requires forall i, j :: 0 <= i < j < |s| ==> s[i] != s[j]
    ensures multiset(s)[x] == if x in s then 1 else 0
  {
    if s != [] {
      var k := |s| - 1;
      assert s == s[..k] + [s[k]];
      CountOnce(s[..k], x);
    }
  }

  /** A worker that takes a message off its queue follows the provider of the entry it
      finds, local or remote: it is NULL or a live component. */
  lemma DispatchIsSafe(r: seq<Node>, ops: seq<Op>, m: seq<Svc>, service: nat)
    requires Run(r, ops, m) && ManifestOk(m)
    ensures var n := r[|r| - 1];
            && Threads(n)
            && var i := Find(n.registry, service);
            i < n.registry.count ==> n.registry.slots[i].provider == 0 || n.registry.slots[i].provider in n.life.mem
  {
    AlwaysInv(r, ops, m);
    var n := r[|r| - 1];
    var i := Find(n.registry, service);
    if i < n.registry.count { assert Has(n.registry, n.registry.slots[i]); }
  }

  // ------------------------------------------------------- unload and reload

  lemma ProviderIsUnique(m: seq<Svc>, service: nat, a: nat, b: nat)
    requires ManifestOk(m) && Provides(m, |m|, service, a)
    ensures Provides(m, |m|, service, b) ==> a == b
    ensures !ProvidedElsewhere(m, service)
  {
  }

  /** Which entries belong to instance p: those of the services its id provides here. */
  lemma OwnEntries(n: Node, m: seq<Svc>, p: Ptr, e: Entry)
    requires Inv(n, m) && ManifestOk(m) && p in n.life.mem && Has(n.registry, e)
    ensures Provides(m, |m|, e.service, n.life.mem[p].id) <==> !e.remote && e.provider == p
  {
    assert EntryOk(e, n.life.mem, n.loaded, m);
    if Provides(m, |m|, e.service, n.life.mem[p].id) {
      ProviderIsUnique(m, e.service, n.life.mem[p].id, if e.remote then 0 else n.life.mem[e.provider].id);
    }
    hide Provides, Has, Unique, LifeOk, ListsOk, HeapsOk, Blank, ProvidedElsewhere, Listed;
  }

  lemma UnloadMissing(n: Node, m: seq<Svc>, name: string, scratch: bool, stop: seq<Act>)
    requires Sound(n) && NamedFrom(n, name, 0) == |n.loaded|
    ensures Unload(n, m, name, scratch, stop) == (Err, n)
  {
  }

  /** An unload calls stop once and takes out exactly the component's registry entries and
      its place in the loaded table; from clean heaps exactly its timers and those its stop
      callback stops or deletes. */
  lemma UnloadForgetsExactly(n: Node, m: seq<Svc>, name: string, scratch: bool, stop: seq<Act>)
    requires Inv(n, m) && ManifestOk(m) && Sound(n)
    ensures var i := NamedFrom(n, name, 0);
            var (s, r) := Unload(n, m, name, scratch, stop);
            if i == |n.loaded| then s == Err && r == n
            else
              var p := n.loaded[i].comp;
              && s == Ok && p in n.life.mem && n.life.mem[p].name == name
              && r.life.stops == n.life.stops + [n.life.mem[p].serial] && r.life.mem == n.life.mem - {p}
              && RegShape(r.registry)
              && (forall e :: Has(r.registry, e) <==> Has(n.registry, e) && (e.remote || e.provider != p))
              && (!n.timers.restarted ==> TimersOfOthers(r.timers, n.timers, p, stop))
              && (forall x :: x in r.loaded <==> x in n.loaded && x.comp != p)
  {
    hide Unload, Inv, Has, LifeOk, ListsOk, MemOk, HeapsOk, RegOk, UnbindAll, Without, Once, Stop, Free, Quieter, TimersOfOthers, TakeOff, RegShape;
    var i := NamedFrom(n, name, 0);
    if i < |n.loaded| {
      UnloadDoes(n, m, name, scratch, stop);
      InvParts(n, m);
      UnbindsOwn(n, m, n.loaded[i].comp);
      WithoutComp(n.loaded, i);
      RetireKeeps(n.life, n.loaded[i].comp);
      if !n.timers.restarted { UnloadTimers(n, m, name, scratch, stop); }
    } else {
      UnloadMissing(n, m, name, scratch, stop);
    }
  }

  lemma WithoutComp(loaded: seq<Info>, i: nat)
    requires Once(loaded) && i < |loaded|
    ensures forall x :: x in Without(loaded, i) <==> x in loaded && x.comp != loaded[i].comp
  {
    WithoutMembers(loaded, i);
    hide Without, Listed;
    assert forall x :: x in loaded && x.comp == loaded[i].comp ==> x == loaded[i];
  }

  lemma UnbindsOwn(n: Node, m: seq<Svc>, p: Ptr)
    requires Inv(n, m) && ManifestOk(m) && p in n.life.mem
    ensures var q := UnbindAll(n.registry, m, |m|, n.life.mem[p].id);
            RegShape(q) && forall e :: Has(q, e) <==> Has(n.registry, e) && (e.remote || e.provider != p)
  {
    UnbindAllForgets(n.registry, m, |m|, n.life.mem[p].id);
    hide UnbindAll, Unique, Inv, Provides;
    assert RegShape(n.registry) by { InvHasShape(n, m); }
    hide Has;
    forall e | Has(n.registry, e)
      ensures Provides(m, |m|, e.service, n.life.mem[p].id) <==> !e.remote && e.provider == p
    {
      OwnEntries(n, m, p, e);
    }
  }

  lemma InvHasShape(n: Node, m: seq<Svc>)
    requires Inv(n, m)
    ensures RegShape(n.registry)
  {
  }

  /** A reload whose staged load fails leaves the old component in service: only the failed
      instance was made and stopped. */
  lemma FailedReloadKeepsTheOld(n: Node, m: seq<Svc>, name: string, load: Load, scratch: bool, stop: seq<Act>)
    requires Inv(n, m) && Sound(n) && NewPointer(n, load)
    ensures var (s, r) := Reload(n, m, name, load, scratch, stop);
            && (s == Ok <==> NamedFrom(n, name, 0) < |n.loaded| && load.Staged?)
            && (s != Ok ==>
                  && r.life.mem == n.life.mem && r.registry == n.registry && r.slots == n.slots && r.loaded == n.loaded
                  && Fewer(r.timers.heaps, n.timers.heaps)
                  && r.life.stops == n.life.stops +
                       (if NamedFrom(n, name, 0) < |n.loaded| && load.Broken? then [n.life.born] else []))
  {
    var i := NamedFrom(n, name, 0);
    if i < |n.loaded| {
      var id := n.life.mem[n.loaded[i].comp].id;
      match load
      case Missing =>
      case Broken(_, _, _) => BrokenDoes(n, m, load, id, name); hide LoadStaged, Inv;
      case Staged(_, _, _) => ReloadDoes(n, m, name, load, scratch, stop); hide Reload, Inv;
    }
  }

  /** A reload that goes through calls the old instance's stop once; services bound to it
      are bound to the new instance on the same thread; all other entries stay, and no entry
      is new but those of the manifest's services of that component; from clean heaps
      exactly the old instance's timers and those the callbacks stop or delete are gone. */
  lemma ReloadRebindsExactly(n: Node, m: seq<Svc>, name: string, load: Load, scratch: bool, stop: seq<Act>)
    requires Inv(n, m) && ManifestOk(m) && Sound(n) && NamedFrom(n, name, 0) < |n.loaded|
    requires load.Staged? && NewPointer(n, load)
    ensures var i := NamedFrom(n, name, 0);
            var o, t := n.loaded[i].comp, n.loaded[i].thread;
            var r := Reload(n, m, name, load, scratch, stop).1;
            && o in n.life.mem && r.life.stops == n.life.stops + [n.life.mem[o].serial]
            && r.life.mem == n.life.mem[load.ptr := Comp(n.life.mem[o].id, name, Inited, n.life.born)] - {o}
            && (!n.timers.restarted ==> TimersOfOthers(r.timers, n.timers, o, load.init + stop))
            && RegShape(r.registry)
            && (forall e :: Has(n.registry, e) ==>
                  Has(r.registry, if !e.remote && e.provider == o then Entry(e.service, load.ptr, t, false) else e))
            && (forall e :: Has(r.registry, e) ==>
                  || (Has(n.registry, e) && (e.remote || e.provider != o))
                  || (e == Entry(e.service, load.ptr, t, false) && Provides(m, |m|, e.service, n.life.mem[o].id)))
  {
    hide Reload, Inv, Has, LifeOk, ListsOk, MemOk, HeapsOk, RegOk, BindAll, Once, Stop, Free, Quieter, TimersOfOthers, TakeOff, RegShape;
    var i := NamedFrom(n, name, 0);
    var o, t := n.loaded[i].comp, n.loaded[i].thread;
    ReloadDoes(n, m, name, load, scratch, stop);
    InvParts(n, m);
    ReloadLife(n, m, o, load.ptr, name);
    RebindsOwn(n, m, o, load.ptr, t);
    if !n.timers.restarted { ReloadTimers(n, m, name, load, scratch, stop); }
  }

  lemma ReloadLife(n: Node, m: seq<Svc>, o: Ptr, p: Ptr, name: string)
    requires Inv(n, m) && o in n.life.mem && p !in n.life.mem && p != 0
    ensures var k := Free(Stop(Create(n.life, p, n.life.mem[o].id, name), o), o);
            && k.stops == n.life.stops + [n.life.mem[o].serial]
            && k.mem == n.life.mem[p := Comp(n.life.mem[o].id, name, Inited, n.life.born)] - {o}
  {
    InvParts(n, m);
    CreateKeeps(n.life, p, n.life.mem[o].id, name);
    RetireKeeps(Create(n.life, p, n.life.mem[o].id, name), o);
    hide Inv, LifeOk, ListsOk, MemOk, HeapsOk, RegOk, Free, Stop;
  }

  lemma RebindsOwn(n: Node, m: seq<Svc>, o: Ptr, p: Ptr, t: nat)
    requires Inv(n, m) && ManifestOk(m) && o in n.life.mem && p !in n.life.mem
    ensures var q := BindAll(n.registry, m, |m|, n.life.mem[o].id, p, t);
            && RegShape(q)
            && (forall e :: Has(n.registry, e) ==>
                  Has(q, if !e.remote && e.provider == o then Entry(e.service, p, t, false) else e))
            && (forall e :: Has(q, e) ==>
                  || (Has(n.registry, e) && (e.remote || e.provider != o))
                  || (e == Entry(e.service, p, t, false) && Provides(m, |m|, e.service, n.life.mem[o].id)))
  {
    var id := n.life.mem[o].id;
    BindAllSets(n.registry, m, |m|, id, p, t);
    hide BindAll, Unique, Inv, Provides;
    assert RegShape(n.registry) by { InvHasShape(n, m); }
    hide Has;
    forall e | Has(n.registry, e) ensures Provides(m, |m|, e.service, id) <==> !e.remote && e.provider == o {
      OwnEntries(n, m, o, e);
    }
  }

  // --------------------------------------------------------------- messages

  /** What component code sends goes to services that are bound here. */
  lemma {:induction false} ActsSend(n: Node, p: Ptr, acts: seq<Act>)
    requires Threads(n)
    ensures var r := DoAll(n, p, acts);
            && |r.queues| == |n.queues|
            && (forall t, v :: 0 <= t < |r.queues| && v in r.queues[t] ==>
                  v in n.queues[t] || exists e :: Has(n.registry, e) && !e.remote && e.service == v)
  {
    if acts != [] {
      var a := DoAll(n, p, acts[..|acts| - 1]);
      ActsSend(n, p, acts[..|acts| - 1]);
      ActsTouch(n, p, acts[..|acts| - 1]);
      ActSends(a, p, acts[|acts| - 1]);
      hide Do, Has;
    }
  }

  lemma ActSends(n: Node, p: Ptr, a: Act)
    requires Threads(n)
    ensures var r := Do(n, p, a);
            && |r.queues| == |n.queues|
            && (forall t, v :: 0 <= t < |r.queues| && v in r.queues[t] ==>
                  v in n.queues[t] || exists e :: Has(n.registry, e) && !e.remote && e.service == v)
  {
    if a.Send? {
      var i := Find(n.registry, a.service);
      if i < n.registry.count { assert Has(n.registry, n.registry.slots[i]); }
    }
    hide Has, Find;
  }

  lemma KeptSatisfy<T>(s: seq<T>, p: T -> bool)
    ensures forall x :: x in Keep(s, p) ==> p(x) && x in s
  {
    KeepIsStable(s, p);
    hide Keep;
    forall x | x in Keep(s, p) ensures p(x) && x in s {
      var k :| 0 <= k < |Keep(s, p)| && Keep(s, p)[k] == x;
      assert Positions(s, p)[k] in Positions(s, p);
    }
  }

  /** After an unload whose scratch queue could be had, the thread's queue holds no message
      for a service of the component, not even one its stop callback tried to send. */
  lemma NoMessagesLeft(n: Node, m: seq<Svc>, name: string, stop: seq<Act>)
    requires Inv(n, m) && ManifestOk(m) && Sound(n) && NamedFrom(n, name, 0) < |n.loaded|
    ensures var i := NamedFrom(n, name, 0);
            var p, t := n.loaded[i].comp, n.loaded[i].thread;
            var r := Unload(n, m, name, true, stop).1;
            && t < |r.queues| && p in n.life.mem
            && forall v :: v in r.queues[t] ==> !Provides(m, |m|, v, n.life.mem[p].id)
  {
    var i := NamedFrom(n, name, 0);
    var p, t := n.loaded[i].comp, n.loaded[i].thread;
    var id := n.life.mem[p].id;
    OffAllLists(n.slots, n.loaded, i);
    UnloadUnfolds(n, m, name, true, stop);
    UnbindAllForgets(n.registry, m, |m|, id);
    assert NeedsStop(n.life, p);
    hide Inv, Unload, TakeOff, UnbindAll, Has, Provides, Unique, StopInstance, Destroy, Stop, ListsOk, LifeOk, NeedsStop;
    var b := Detached(n, m, i, TakeOff(n.slots[t], p).value);
    StopInstanceDoes(b, m, n.loaded[i], true, stop);
    DrainedInstance(b, m, n.loaded[i], stop);
    QuietDestroy(StopInstance(b, m, n.loaded[i], true, stop), n.life, p, stop);
  }

  /** The queue of the thread when the instance has been stopped. */
  lemma DrainedInstance(n: Node, m: seq<Svc>, info: Info, stop: seq<Act>)
    requires Threads(n) && info.thread < |n.slots| && info.comp in n.life.mem
    ensures var r := StopInstance(n, m, info, true, stop);
            && info.thread < |r.queues|
            && forall v :: v in r.queues[info.thread] ==>
                 || !Provides(m, |m|, v, n.life.mem[info.comp].id)
                 || (exists e :: Has(n.registry, e) && !e.remote && e.service == v)
  {
    var p, t := info.comp, info.thread;
    var targets := TargetsFn(m, n.registry, n.life.mem[p].id, p);
    var kept := Keep(n.queues[t], Not(targets));
    var quiet := n.(life := Stop(n.life, p), queues := n.queues[t := kept],
                    timers := Cancelled(n.timers, t, p));
    KeptSatisfy(n.queues[t], Not(targets));
    forall v | v in kept ensures !Provides(m, |m|, v, n.life.mem[p].id) {
      assert Not(targets)(v);
    }
    ActsSend(quiet, p, stop);
    hide DoAll, Keep, Has, Provides, Stop;
  }
}
