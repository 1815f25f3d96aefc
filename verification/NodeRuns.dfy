/** Whole runs of the node manager. */
module NodeRuns {
  import opened Common
  import opened RingQueue
  import opened NodeTimers
  import opened NodeSpec
  import opened NodeRegistry
  import opened NodeInv
  import opened NodeTables

  // ------------------------------------------------------- staged and failed

  /** What malloc guarantees: a new pointer is not NULL and not in use. */
  predicate NewPointer(n: Node, load: Load) {
    load == Missing || (load.ptr != 0 && load.ptr !in n.life.mem)
  }

  lemma NotListed(n: Node, m: seq<Svc>, p: Ptr)
    requires Inv(n, m) && p !in n.life.mem
    ensures !Listed(n.loaded, p) && Unlisted(n, p)
  {
    assert forall t, i :: 0 <= t < |n.slots| && 0 <= i < |n.loaded| && n.loaded[i] == Info(p, t) ==> Listed(n.loaded, p);
  }

  /** Destroying a component no thread lists: it is stopped unless it was, given back, and
      its stop callback starts no timer. */
  lemma DestroyDoes(n: Node, p: Ptr, stop: seq<Act>)
    requires Threads(n) && Unlisted(n, p)
    ensures var r := Destroy(n, p, stop);
            && r == n.(life := Free(Stop(n.life, p), p), timers := r.timers, queues := r.queues)
            && Quieter(r.timers, n.timers, n.slots) && |r.queues| == |n.queues|
  {
    var a := n.(life := Stop(n.life, p));
    assert Unlisted(a, p);
    ActsTouch(a, p, stop);
    UnlistedQuiet(a, p, stop);
    hide DoAll, Stop, Free, Clean;
  }

  ghost predicate OnlyLife(s: Node, n: Node) {
    && s == n.(life := s.life, timers := s.timers, queues := s.queues)
    && Quieter(s.timers, n.timers, n.slots) && |s.queues| == |n.queues|
  }

  /** A failed load leaves everything as it was, but for one more instance made and
      stopped, and what its callbacks sent or stopped. */
  lemma BrokenDoes(n: Node, m: seq<Svc>, load: Load, id: nat, name: string)
    requires Inv(n, m) && load.Broken? && NewPointer(n, load)
    ensures var s := LoadStaged(n, load, id, name).0;
            && OnlyLife(s, n) && LifeOk(s.life)
            && s.life.mem == n.life.mem && s.life.stops == n.life.stops + [n.life.born] && s.life.born == n.life.born + 1
  {
    var p := load.ptr;
    hide DoAll, Destroy, Inv, Quieter;
    NotListed(n, m, p);
    var a := n.(life := Create(n.life, p, id, name));
    assert Unlisted(a, p);
    var made := DoAll(a, p, load.init);
    ActsTouch(a, p, load.init);
    UnlistedQuiet(a, p, load.init);
    var b := made.(life := SetStatus(made.life, p, Faulty));
    assert Unlisted(b, p);
    DestroyDoes(b, p, load.stop);
    QuietQuiet(Destroy(b, p, load.stop).timers, made.timers, n.timers, n.slots);
    assert LifeOk(n.life) by { InvParts(n, m); }
    FailedLife(n.life, p, id, name);
    hide Create, SetStatus, Free, Stop, LifeOk;
  }

  lemma InvParts(n: Node, m: seq<Svc>)
    requires Inv(n, m)
    ensures Threads(n) && LifeOk(n.life) && ListsOk(n.slots, n.loaded) && MemOk(n.life.mem, n.loaded)
    ensures HeapsOk(n.timers, n.slots) && RegOk(n.registry, n.life.mem, n.loaded, m) && Once(n.loaded)
  {
  }

  lemma FailedLife(l: Life, p: Ptr, id: nat, name: string)
    requires LifeOk(l) && p !in l.mem && p != 0
    ensures var k := Free(Stop(SetStatus(Create(l, p, id, name), p, Faulty), p), p);
            LifeOk(k) && k.mem == l.mem && k.stops == l.stops + [l.born] && k.born == l.born + 1
  {
    hide LifeOk;
    var a := Create(l, p, id, name);
    CreateKeeps(l, p, id, name);
    StatusKeeps(a, p, Faulty);
    RetireKeeps(SetStatus(a, p, Faulty), p);
    assert a.mem - {p} == l.mem;
  }

  lemma StagedDoes(n: Node, m: seq<Svc>, load: Load, id: nat, name: string)
    requires Inv(n, m) && load.Staged? && NewPointer(n, load)
    ensures var s := LoadStaged(n, load, id, name).0;
            && OnlyLife(s, n) && LifeOk(s.life) && s.life == Create(n.life, load.ptr, id, name)
  {
    var a := n.(life := Create(n.life, load.ptr, id, name));
    hide DoAll, Inv;
    NotListed(n, m, load.ptr);
    assert Unlisted(a, load.ptr);
    ActsTouch(a, load.ptr, load.init);
    UnlistedQuiet(a, load.ptr, load.init);
    assert LifeOk(n.life) by { InvParts(n, m); }
    assert load.ptr != 0 && load.ptr !in n.life.mem;
    CreateKeeps(n.life, load.ptr, id, name);
  }

  /** A node that differs only in its instances, timers and messages. */
  lemma OnlyLifeKeeps(s: Node, n: Node, m: seq<Svc>)
    requires Inv(n, m) && OnlyLife(s, n) && LifeOk(s.life) && s.life.mem == n.life.mem
    ensures Inv(s, m)
  {
    hide LifeOk, ListsOk, MemOk, HeapsOk, RegOk, Blank, Quieter;
    QuietKeeps(s.timers, n.timers, n.slots);
    QuietLength(s.timers, n.timers, n.slots);
  }

  lemma QuietLength(r: Timers, ts: Timers, slots: seq<seq<Ptr>>)
    requires Quieter(r, ts, slots)
    ensures |r.heaps| == |ts.heaps|
  {
  }

  // ------------------------------------------------------------------- boot

  ghost predicate NewId(n: Node, id: nat) {
    forall p :: p in n.life.mem ==> n.life.mem[p].id != id
  }

  lemma PlaceKeeps(n: Node, m: seq<Svc>, t: nat, id: nat, name: string, load: Load)
    requires Inv(n, m) && t < |n.slots| && NewPointer(n, load) && NewId(n, id)
    ensures Inv(Place(n, t, id, name, load), m)
  {
    match load
    case Missing =>
    case Broken(_, _, _) =>
      BrokenDoes(n, m, load, id, name);
      OnlyLifeKeeps(LoadStaged(n, load, id, name).0, n, m);
      hide LoadStaged, Inv;
    case Staged(p, _, stop) =>
      StagedDoes(n, m, load, id, name);
      NotListed(n, m, p);
      var s := LoadStaged(n, load, id, name).0;
      hide LoadStaged, Destroy;
      if |s.loaded| >= MAX_LOADED || |s.slots[t]| >= MAX_COMP_PER_THREAD {
        FullKeeps(n, m, s, id, name, load);
      } else {
        GoodKeeps(n, m, s, t, id, name, p);
      }
  }

  /** No room for the new component: it is destroyed again. */
  lemma FullKeeps(n: Node, m: seq<Svc>, s: Node, id: nat, name: string, load: Load)
    requires Inv(n, m) && load.Staged? && NewPointer(n, load) && OnlyLife(s, n)
    requires s.life == Create(n.life, load.ptr, id, name) && LifeOk(s.life)
    ensures Inv(Destroy(s, load.ptr, load.stop), m)
  {
    var p := load.ptr;
    hide Destroy, Inv, LifeOk, Free, Stop, Create, Quieter;
    NotListed(n, m, p);
    assert Unlisted(s, p);
    DestroyDoes(s, p, load.stop);
    RetireKeeps(s.life, p);
    assert s.life.mem - {p} == n.life.mem by { CreateThenTake(n.life, p, id, name); }
    var d := Destroy(s, p, load.stop);
    QuietQuiet(d.timers, s.timers, n.timers, n.slots);
    assert OnlyLife(d, n);
    OnlyLifeKeeps(d, n, m);
  }

  lemma CreateThenTake(l: Life, p: Ptr, id: nat, name: string)
    requires p !in l.mem
    ensures Create(l, p, id, name).mem - {p} == l.mem && p in Create(l, p, id, name).mem
  {
  }

  lemma GoodKeeps(n: Node, m: seq<Svc>, s: Node, t: nat, id: nat, name: string, p: Ptr)
    requires Inv(n, m) && p !in n.life.mem && t < |n.slots| && NewId(n, id)
    requires OnlyLife(s, n) && s.life == Create(n.life, p, id, name) && LifeOk(s.life)
    requires |n.loaded| < MAX_LOADED && |n.slots[t]| < MAX_COMP_PER_THREAD
    ensures Inv(s.(slots := s.slots[t := s.slots[t] + [p]], loaded := s.loaded + [Info(p, t)]), m)
  {
    var c := Comp(id, name, Inited, n.life.born);
    NotListed(n, m, p);
    InvParts(n, m);
    ListsAdd(n.slots, n.loaded, t, p);
    MemAdd(n.life.mem, n.loaded, p, t, c);
    QuietKeeps(s.timers, n.timers, n.slots);
    QuietLength(s.timers, n.timers, n.slots);
    HeapsAdd(s.timers, n.slots, t, p);
    RegAdd(n.registry, n.life.mem, n.loaded, m, p, t, c);
    hide LifeOk, ListsOk, MemOk, HeapsOk, RegOk, Blank;
  }

  lemma RouteKeeps(n: Node, m: seq<Svc>, k: nat)
    requires Inv(n, m) && ManifestOk(m) && n.booting && k < |m|
    ensures Sound(n) && Inv(Route(n, m[k]), m)
  {
    InvIsSound(n, m);
    InvParts(n, m);
    var s := m[k];
    var r := Route(n, s);
    if s.local {
      var i, t := LoadedFrom(n, s.provider, 0), WorkerFrom(n, s.provider, 0);
      if i < |n.loaded| && t < |n.slots| {
        BindSets(n.registry, s.service, n.loaded[i].comp, t);
        RouteLocalEntry(n, m, k, i, t);
        hide LifeOk, ListsOk, MemOk, HeapsOk, Blank, Bind, Has, Unique, EntryOk;
        assert RegOk(r.registry, r.life.mem, r.loaded, m);
      }
    } else if s.path {
      BindRemoteSets(n.registry, s.service);
      RouteRemoteEntries(n, m, k);
      hide LifeOk, ListsOk, MemOk, HeapsOk, Blank, BindRemote;
    }
  }

  lemma RouteLocalEntry(n: Node, m: seq<Svc>, k: nat, i: nat, t: nat)
    requires Inv(n, m) && k < |m| && m[k].local && i < |n.loaded| && t < |n.slots|
    requires n.loaded[i].comp in n.life.mem && n.life.mem[n.loaded[i].comp].id == m[k].provider
    requires exists p :: p in n.slots[t] && p in n.life.mem && n.life.mem[p].id == m[k].provider
    ensures EntryOk(Entry(m[k].service, n.loaded[i].comp, t, false), n.life.mem, n.loaded, m)
  {
  }

  lemma RouteRemoteEntries(n: Node, m: seq<Svc>, k: nat)
    requires Inv(n, m) && ManifestOk(m) && n.booting && k < |m| && !m[k].local
    ensures RegOk(BindRemote(n.registry, m[k].service), n.life.mem, n.loaded, m)
  {
    var r := n.registry;
    var q := BindRemote(r, m[k].service);
    BindRemoteSets(r, m[k].service);
    hide BindRemote, Unique, ListsOk, MemOk, HeapsOk, LifeOk;
    assert forall f :: Has(r, f) ==> EntryOk(f, n.life.mem, n.loaded, m);
  }

  // -------------------------------------------------------- unload and reload

  lemma StopInstanceDoes(n: Node, m: seq<Svc>, info: Info, scratch: bool, stop: seq<Act>)
    requires Threads(n) && info.thread < |n.slots| && NeedsStop(n.life, info.comp)
    requires Unlisted(n, info.comp)
    ensures var r, p, t := StopInstance(n, m, info, scratch, stop), info.comp, info.thread;
            && r == n.(life := Stop(n.life, p), timers := r.timers, queues := r.queues)
            && Quieter(r.timers, Cancelled(n.timers, t, p), n.slots) && |r.queues| == |n.queues|
  {
    var p, t := info.comp, info.thread;
    var targets := TargetsFn(m, n.registry, n.life.mem[p].id, p);
    var quiet := n.(life := Stop(n.life, p),
                    queues := if scratch then n.queues[t := Keep(n.queues[t], Not(targets))] else n.queues,
                    timers := Cancelled(n.timers, t, p));
    assert Unlisted(quiet, p);
    hide DoAll, Keep, Stop, Targets, RegShape, Clean;
    ActsTouch(quiet, p, stop);
    UnlistedQuiet(quiet, p, stop);
  }

  /** Once off its thread's list, a component is on no list. */
  lemma OffAllLists(slots: seq<seq<Ptr>>, loaded: seq<Info>, i: nat)
    requires ListsOk(slots, loaded) && i < |loaded|
    ensures forall u: nat :: u < |slots| && u != loaded[i].thread ==> loaded[i].comp !in slots[u]
    ensures TakeOff(slots[loaded[i].thread], loaded[i].comp).Some?
    ensures loaded[i].comp !in TakeOff(slots[loaded[i].thread], loaded[i].comp).value
    ensures forall x :: x in slots[loaded[i].thread] && x != loaded[i].comp ==>
              x in TakeOff(slots[loaded[i].thread], loaded[i].comp).value
  {
    var t, p := loaded[i].thread, loaded[i].comp;
    assert Info(p, t) in loaded;
    TakeOffMembers(slots[t], p);
    hide TakeOff;
  }

  lemma StopTwice(l: Life, p: Ptr)
    ensures Stop(Stop(l, p), p) == Stop(l, p)
  {
  }

  /** What an unload leaves in each table. */
  lemma UnloadDoes(n: Node, m: seq<Svc>, name: string, scratch: bool, stop: seq<Act>)
    requires Inv(n, m) && Sound(n) && NamedFrom(n, name, 0) < |n.loaded|
    ensures var i := NamedFrom(n, name, 0);
            var p, t := n.loaded[i].comp, n.loaded[i].thread;
            var (s, r) := Unload(n, m, name, scratch, stop);
            && s == Ok && TakeOff(n.slots[t], p).Some?
            && r.life == Free(Stop(n.life, p), p) && r.slots == n.slots[t := TakeOff(n.slots[t], p).value]
            && r.registry == UnbindAll(n.registry, m, |m|, n.life.mem[p].id)
            && r.loaded == Without(n.loaded, i) && r.booting == n.booting && |r.queues| == |n.queues|
            && Quieter(r.timers, Cancelled(n.timers, t, p), r.slots)
  {
    var i := NamedFrom(n, name, 0);
    var info := n.loaded[i];
    var p, t := info.comp, info.thread;
    assert NeedsStop(n.life, p);
    OffAllLists(n.slots, n.loaded, i);
    UnloadUnfolds(n, m, name, scratch, stop);
    hide Inv, Unload, TakeOff, StopInstance, Destroy, UnbindAll, Stop, Free, Quieter, Cancelled;
    var b := Detached(n, m, i, TakeOff(n.slots[t], p).value);
    assert Unlisted(b, p);
    StopInstanceDoes(b, m, info, scratch, stop);
    var c := StopInstance(b, m, info, scratch, stop);
    assert Unlisted(c, p);
    DestroyDoes(c, p, stop);
    StopTwice(n.life, p);
    QuietQuiet(Destroy(c, p, stop).timers, c.timers, Cancelled(n.timers, t, p), b.slots);
  }

  /** The first half of an unload: off the list and out of the registry. */
  function Detached(n: Node, m: seq<Svc>, i: nat, rest: seq<Ptr>): (r: Node)
    requires Sound(n) && i < |n.loaded|
    ensures Threads(r)
  {
    n.(slots := n.slots[n.loaded[i].thread := rest],
       registry := UnbindAll(n.registry, m, |m|, n.life.mem[n.loaded[i].comp].id))
  }

  lemma UnloadUnfolds(n: Node, m: seq<Svc>, name: string, scratch: bool, stop: seq<Act>)
    requires Sound(n) && NamedFrom(n, name, 0) < |n.loaded|
    requires var i := NamedFrom(n, name, 0); TakeOff(n.slots[n.loaded[i].thread], n.loaded[i].comp).Some?
    ensures var i := NamedFrom(n, name, 0);
            var p, t := n.loaded[i].comp, n.loaded[i].thread;
            var c := StopInstance(Detached(n, m, i, TakeOff(n.slots[t], p).value), m, n.loaded[i], scratch, stop);
            Unload(n, m, name, scratch, stop) == (Ok, Destroy(c, p, stop).(loaded := Without(n.loaded, i)))
  {
    hide TakeOff, UnbindAll, StopInstance, Destroy, NamedFrom;
  }

  lemma UnloadKeeps(n: Node, m: seq<Svc>, name: string, scratch: bool, stop: seq<Act>)
    requires Inv(n, m) && !n.booting
    ensures Sound(n) && Inv(Unload(n, m, name, scratch, stop).1, m)
  {
    InvIsSound(n, m);
    var i := NamedFrom(n, name, 0);
    if i < |n.loaded| {
      var p, t := n.loaded[i].comp, n.loaded[i].thread;
      UnloadDoes(n, m, name, scratch, stop);
      InvParts(n, m);
      hide Unload, Inv, LifeOk, ListsOk, MemOk, HeapsOk, RegOk, Blank, TakeOff, Quieter, Once, Cancelled;
      var r := Unload(n, m, name, scratch, stop).1;
      RetireKeeps(n.life, p);
      ListsRemove(n.slots, n.loaded, i);
      MemRemove(n.life.mem, n.loaded, i);
      RegRemove(n.registry, n.life.mem, n.loaded, m, i);
      OffAllLists(n.slots, n.loaded, i);
      HeapsTakeOff(n.timers, n.slots, t, p, TakeOff(n.slots[t], p).value);
      QuietKeeps(r.timers, Cancelled(n.timers, t, p), r.slots);
      InvFrom(r, m);
    }
  }

  lemma InvFrom(n: Node, m: seq<Svc>)
    requires |n.slots| == |n.queues| && LifeOk(n.life) && ListsOk(n.slots, n.loaded) && MemOk(n.life.mem, n.loaded)
    requires HeapsOk(n.timers, n.slots) && RegOk(n.registry, n.life.mem, n.loaded, m) && !n.booting
    ensures Inv(n, m)
  {
    hide LifeOk, ListsOk, MemOk;
  }

  /** A reload whose new instance is good goes through: the two refusals after the staged
      load do not happen. */
  lemma ReloadDoes(n: Node, m: seq<Svc>, name: string, load: Load, scratch: bool, stop: seq<Act>)
    requires Inv(n, m) && Sound(n) && NamedFrom(n, name, 0) < |n.loaded| && load.Staged? && NewPointer(n, load)
    ensures var i := NamedFrom(n, name, 0);
            var o, t := n.loaded[i].comp, n.loaded[i].thread;
            var id := n.life.mem[o].id;
            var (s, r) := Reload(n, m, name, load, scratch, stop);
            && s == Ok && TakeOff(n.slots[t], o).Some?
            && r.life == Free(Stop(Create(n.life, load.ptr, id, name), o), o)
            && r.slots == n.slots[t := TakeOff(n.slots[t], o).value + [load.ptr]]
            && r.registry == BindAll(n.registry, m, |m|, id, load.ptr, t)
            && r.loaded == n.loaded[i := Info(load.ptr, t)] && r.booting == n.booting && |r.queues| == |n.queues|
            && |r.timers.heaps| == |n.timers.heaps|
  {
    var i := NamedFrom(n, name, 0);
    var info := n.loaded[i];
    var o, t, p := info.comp, info.thread, load.ptr;
    var id := n.life.mem[o].id;
    StagedDoes(n, m, load, id, name);
    ReloadReady(n, m, i, p, name);
    var s := LoadStaged(n, load, id, name).0;
    ReloadUnfolds(n, m, name, load, scratch, stop, s);
    hide Reload, Inv, TakeOff, Quieter, BindAll, Stop, Free, Create, LoadStaged, StopInstance, NeedsStop, HeapsOk, Cancelled;
    var a := Swapped(s, m, i, id, p, TakeOff(s.slots[t], o).value);
    assert Unlisted(a, o);
    StopInstanceDoes(a, m, info, scratch, stop);
  }

  /** The timers after a good reload. */
  lemma ReloadHeaps(n: Node, m: seq<Svc>, name: string, load: Load, scratch: bool, stop: seq<Act>)
    requires Inv(n, m) && Sound(n) && NamedFrom(n, name, 0) < |n.loaded| && load.Staged? && NewPointer(n, load)
    ensures HeapsOk(Reload(n, m, name, load, scratch, stop).1.timers, Reload(n, m, name, load, scratch, stop).1.slots)
  {
    var i := NamedFrom(n, name, 0);
    var info := n.loaded[i];
    var o, t, p := info.comp, info.thread, load.ptr;
    var id := n.life.mem[o].id;
    StagedDoes(n, m, load, id, name);
    ReloadReady(n, m, i, p, name);
    InvParts(n, m);
    OffAllLists(n.slots, n.loaded, i);
    var s := LoadStaged(n, load, id, name).0;
    ReloadUnfolds(n, m, name, load, scratch, stop, s);
    hide Reload, Inv, TakeOff, Quieter, BindAll, Stop, Free, Create, LoadStaged, StopInstance, NeedsStop, HeapsOk, Cancelled;
    hide ListsOk, MemOk, RegOk, LifeOk;
    var a := Swapped(s, m, i, id, p, TakeOff(s.slots[t], o).value);
    assert Unlisted(a, o);
    StopInstanceDoes(a, m, info, scratch, stop);
    var c := StopInstance(a, m, info, scratch, stop);
    QuietKeeps(s.timers, n.timers, n.slots);
    HeapsTakeOff(s.timers, n.slots, t, o, TakeOff(n.slots[t], o).value + [p]);
    QuietKeeps(c.timers, Cancelled(s.timers, t, o), a.slots);
  }

  /** The swap of a reload: list, loaded table and registry name the new instance. */
  function Swapped(s: Node, m: seq<Svc>, i: nat, id: nat, p: Ptr, rest: seq<Ptr>): (r: Node)
    requires Threads(s) && i < |s.loaded| && s.loaded[i].thread < |s.slots|
    ensures Threads(r)
  {
    var t := s.loaded[i].thread;
    s.(slots := s.slots[t := rest + [p]], loaded := s.loaded[i := Info(p, t)],
       registry := BindAll(s.registry, m, |m|, id, p, t))
  }

  lemma ReloadUnfolds(n: Node, m: seq<Svc>, name: string, load: Load, scratch: bool, stop: seq<Act>, s: Node)
    requires Sound(n) && NamedFrom(n, name, 0) < |n.loaded|
    requires var i := NamedFrom(n, name, 0);
             var o, t := n.loaded[i].comp, n.loaded[i].thread;
             && LoadStaged(n, load, n.life.mem[o].id, name) == (s, true) && load.Staged? && s.loaded == n.loaded
             && |s.slots| == |n.slots| && o in s.life.mem
             && TakeOff(s.slots[t], o).Some? && |TakeOff(s.slots[t], o).value| < MAX_COMP_PER_THREAD
    ensures var i := NamedFrom(n, name, 0);
            var o, t := n.loaded[i].comp, n.loaded[i].thread;
            var a := Swapped(s, m, i, n.life.mem[o].id, load.ptr, TakeOff(s.slots[t], o).value);
            var c := StopInstance(a, m, n.loaded[i], scratch, stop);
            Reload(n, m, name, load, scratch, stop) == (Ok, c.(life := Free(c.life, o)))
  {
    hide LoadStaged, TakeOff, BindAll, StopInstance, Free, NamedFrom;
  }

  /** Why nothing refuses the swap after a good staged load. */
  lemma ReloadReady(n: Node, m: seq<Svc>, i: nat, p: Ptr, name: string)
    requires Inv(n, m) && Sound(n) && i < |n.loaded| && p !in n.life.mem && p != 0
    ensures var o, t := n.loaded[i].comp, n.loaded[i].thread;
            var off := TakeOff(n.slots[t], o);
            && off.Some? && |off.value| < MAX_COMP_PER_THREAD && o != p
            && NeedsStop(Create(n.life, p, n.life.mem[o].id, name), o)
            && o in Create(n.life, p, n.life.mem[o].id, name).mem
            && var w := n.slots[t := off.value + [p]];
            (forall u :: 0 <= u < |w| ==> o !in w[u])
  {
    ListsReplace(n.slots, n.loaded, i, p) by { NotListed(n, m, p); }
    OffAllLists(n.slots, n.loaded, i);
    hide TakeOff, ListsOk, MemOk, HeapsOk, RegOk, Blank;
  }

  lemma ReloadKeeps(n: Node, m: seq<Svc>, name: string, load: Load, scratch: bool, stop: seq<Act>)
    requires Inv(n, m) && !n.booting && NewPointer(n, load)
    ensures Sound(n) && Inv(Reload(n, m, name, load, scratch, stop).1, m)
  {
    InvIsSound(n, m);
    var i := NamedFrom(n, name, 0);
    if i < |n.loaded| && load.Broken? {
      BrokenDoes(n, m, load, n.life.mem[n.loaded[i].comp].id, name);
      OnlyLifeKeeps(LoadStaged(n, load, n.life.mem[n.loaded[i].comp].id, name).0, n, m);
      hide LoadStaged, Inv;
    } else if i < |n.loaded| && load.Staged? {
      ReloadDoes(n, m, name, load, scratch, stop);
      ReloadHeaps(n, m, name, load, scratch, stop);
      GoodReloadKeeps(n, m, i, name, load.ptr, Reload(n, m, name, load, scratch, stop).1);
      hide Reload, Inv;
    }
  }

  lemma GoodReloadKeeps(n: Node, m: seq<Svc>, i: nat, name: string, p: Ptr, r: Node)
    requires Inv(n, m) && Sound(n) && !n.booting && i < |n.loaded| && p !in n.life.mem && p != 0
    requires var o, t := n.loaded[i].comp, n.loaded[i].thread;
             var id := n.life.mem[o].id;
             && TakeOff(n.slots[t], o).Some?
             && r.life == Free(Stop(Create(n.life, p, id, name), o), o)
             && r.slots == n.slots[t := TakeOff(n.slots[t], o).value + [p]]
             && r.registry == BindAll(n.registry, m, |m|, id, p, t)
             && r.loaded == n.loaded[i := Info(p, t)] && r.booting == n.booting && |r.queues| == |n.queues|
             && HeapsOk(r.timers, r.slots)
    ensures Inv(r, m)
  {
    var o, t := n.loaded[i].comp, n.loaded[i].thread;
    var c := Comp(n.life.mem[o].id, name, Inited, n.life.born);
    NotListed(n, m, p);
    InvParts(n, m);
    CreateKeeps(n.life, p, c.id, name);
    OffAllLists(n.slots, n.loaded, i);
    hide Inv, LifeOk, ListsOk, MemOk, HeapsOk, RegOk, Blank, TakeOff, Once, BindAll, Listed;
    RetireKeeps(Create(n.life, p, c.id, name), o);
    ListsReplace(n.slots, n.loaded, i, p);
    MemReplace(n.life.mem, n.loaded, i, p, c);
    RegReplace(n.registry, n.life.mem, n.loaded, m, i, p, c);
    InvFrom(r, m);
  }

  // ------------------------------------------------------------- whole runs

  /** Calls of the node manager, and what the worker threads do in between: start a loaded
      component, run component code, let a timer fire, take a message off a queue. */
  datatype Op =
    | Placing(thread: nat, id: nat, name: string, load: Load)
    | Routing(k: nat)
    | Booted
    | Starting(comp: Ptr, ok: bool, acts: seq<Act>)
    | Working(comp: Ptr, acts: seq<Act>)
    | Firing(thread: nat, timer: nat, periodic: bool, acts: seq<Act>)
    | Dispatching(thread: nat)
    | Unloading(name: string, scratch: bool, stop: seq<Act>)
    | Reloading(name: string, load: Load, scratch: bool, stop: seq<Act>)

  /** Whether the operation can come next: boot comes first and places each component
      once, malloc hands out new pointers, only listed components run, the firing
      loop finds live timers in its heap, and a timer callback does not delete its own. */
  ghost predicate Possible(n: Node, m: seq<Svc>, op: Op) {
    match op
    case Placing(t, id, _, load) => n.booting && t < |n.slots| && NewPointer(n, load) && NewId(n, id)
    case Routing(k) => n.booting && k < |m|
    case Booted => n.booting
    case Starting(p, _, _) => p in n.life.mem && n.life.mem[p].status == Inited
    case Working(p, _) => p in n.life.mem && n.life.mem[p].status == Active
    case Firing(t, x, _, acts) =>
      && t < |n.slots| && t < |n.timers.heaps| && x in n.timers.heaps[t] && x in n.timers.recs && Delete(x) !in acts
    case Dispatching(t) => t < |n.queues|
    case Unloading(_, _, _) => !n.booting
    case Reloading(_, load, _, _) => !n.booting && NewPointer(n, load)
  }

  function Next(n: Node, m: seq<Svc>, op: Op): Node
    requires Sound(n)
  {
    match op
    case Placing(t, id, name, load) => if t < |n.slots| then Place(n, t, id, name, load) else n
    case Routing(k) => if k < |m| then Route(n, m[k]) else n
    case Booted => n.(booting := false)
    case Starting(p, ok, acts) =>
      var a := DoAll(n, p, acts);
      a.(life := SetStatus(a.life, p, if ok then Active else Faulty))
    case Working(p, acts) => DoAll(n, p, acts)
    case Firing(t, x, periodic, acts) => if t < |n.slots| then Fire(n, t, x, periodic, acts) else n
    case Dispatching(t) => if t < |n.queues| && n.queues[t] != [] then n.(queues := n.queues[t := n.queues[t][1..]]) else n
    case Unloading(name, scratch, stop) => Unload(n, m, name, scratch, stop).1
    case Reloading(name, load, scratch, stop) => Reload(n, m, name, load, scratch, stop).1
  }

  lemma StatusOnlyKeeps(n: Node, m: seq<Svc>, p: Ptr, s: CompStatus)
    requires Inv(n, m) && s != Stopped
    ensures Inv(n.(life := SetStatus(n.life, p, s)), m)
  {
    hide LifeOk, ListsOk, HeapsOk, RegOk, Blank, MemOk, SetStatus;
    StatusKeeps(n.life, p, s);
    StatusIds(n.life, p, s);
    SameIds(n, m, SetStatus(n.life, p, s).mem);
  }

  lemma StatusIds(l: Life, p: Ptr, s: CompStatus)
    ensures SetStatus(l, p, s).mem.Keys == l.mem.Keys
    ensures forall q :: q in SetStatus(l, p, s).mem ==> SetStatus(l, p, s).mem[q].id == l.mem[q].id
  {
  }

  /** The tables look at the ids of components only. */
  lemma SameIds(n: Node, m: seq<Svc>, mem: map<Ptr, Comp>)
    requires MemOk(n.life.mem, n.loaded) && RegOk(n.registry, n.life.mem, n.loaded, m)
    requires mem.Keys == n.life.mem.Keys && forall q :: q in mem ==> mem[q].id == n.life.mem[q].id
    ensures MemOk(mem, n.loaded) && RegOk(n.registry, mem, n.loaded, m)
  {
    assert RegShape(n.registry);
    hide Has, Unique, Provides, Listed;
    assert forall q :: q in mem <==> q in n.life.mem;
    forall e | Has(n.registry, e) ensures EntryOk(e, mem, n.loaded, m) {
      assert EntryOk(e, n.life.mem, n.loaded, m);
    }
  }

  lemma NextKeeps(n: Node, m: seq<Svc>, op: Op)
    requires Inv(n, m) && ManifestOk(m) && Possible(n, m, op)
    ensures Sound(n) && Inv(Next(n, m, op), m)
  {
    InvIsSound(n, m);
    match op
    case Placing(t, id, name, load) => hide Inv; PlaceKeeps(n, m, t, id, name, load);
    case Routing(k) => hide Inv; RouteKeeps(n, m, k);
    case Starting(p, ok, acts) =>
      hide Inv;
      ActsKeep(n, m, p, acts);
      StatusOnlyKeeps(DoAll(n, p, acts), m, p, if ok then Active else Faulty);
    case Working(p, acts) => hide Inv; ActsKeep(n, m, p, acts);
    case Firing(t, x, periodic, acts) => hide Inv, Fire; FireKeeps(n, m, t, x, periodic, acts);
    case Unloading(name, scratch, stop) => hide Inv; UnloadKeeps(n, m, name, scratch, stop);
    case Reloading(name, load, scratch, stop) => hide Inv; ReloadKeeps(n, m, name, load, scratch, stop);
    case _ => hide LifeOk, ListsOk, MemOk, HeapsOk, RegOk, Blank;
  }
}
