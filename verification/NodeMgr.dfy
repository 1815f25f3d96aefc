/** The node manager as it runs: the registry and the loaded table are arrays changed in
    place, services are bound and unbound in loops over the manifest. Each method does to
    the tables what NodeSpec says. */
module NodeMgr {
  import opened Common
  import opened RingQueue
  import opened NodeTimers
  import opened NodeSpec

  const Nobody: Entry := Entry(0, 0, 0, false)

  class NodeManager {
    const services: seq<Svc>
    const entries: array<Entry>
    const infos: array<Info>
    var serviceCount: nat
    var loadedCount: nat
    var life: Life
    var slots: seq<seq<Ptr>>
    var timers: Timers
    var queues: seq<seq<nat>>
    var booting: bool

    ghost predicate Valid()
      reads this
    {
      && entries.Length == MAX_SERVICES && serviceCount <= MAX_SERVICES
      && infos.Length == MAX_LOADED && loadedCount <= MAX_LOADED
      && |slots| == |timers.heaps| == |queues|
    }

    ghost function Reg(): (r: Registry)
      requires Valid()
      reads this, entries
      ensures RegShape(r)
    {
      Registry(entries[..], serviceCount)
    }

    ghost function Abs(): (n: Node)
      requires Valid()
      reads this, entries, infos
      ensures Threads(n) && n.registry == Reg()
    {
      Node(life, Reg(), slots, timers, queues, infos[..loadedCount], booting)
    }

    constructor (services: seq<Svc>, workers: nat)
      ensures Valid() && fresh(entries) && fresh(infos) && this.services == services
      ensures var n := Abs();
              && n.life == Life(map[], 0, []) && n.loaded == [] && n.booting && n.registry.count == 0
              && (forall i :: 0 <= i < MAX_SERVICES ==> n.registry.slots[i].provider == 0)
              && |n.slots| == workers && n.timers.recs == map[] && !n.timers.restarted
              && forall t :: 0 <= t < workers ==> n.slots[t] == [] && n.timers.heaps[t] == multiset{} && n.queues[t] == []
    {
      this.services := services;
      entries := new Entry[MAX_SERVICES](_ => Nobody);
      infos := new Info[MAX_LOADED](_ => Info(0, 0));
      serviceCount, loadedCount := 0, 0;
      life := Life(map[], 0, []);
      slots := seq(workers, _ => []);
      timers := Timers(map[], seq(workers, _ => multiset{}), false);
      queues := seq(workers, _ => []);
      booting := true;
    }

    // ------------------------------------------------------------- registry

    /** find_service_entry: the place of the entry, or serviceCount. */
    method FindEntry(service: nat) returns (i: nat)
      requires Valid()
      ensures i == Find(Reg(), service)
    {
      i := 0;
      while i < serviceCount && entries[i].service != service
        invariant i <= serviceCount
        invariant Find(Reg(), service) == FindFrom(entries[..], service, i, serviceCount)
      {
        i := i + 1;
      }
    }

    /** nos_service_register_provider_bind. */
    method RegisterProvider(service: nat, p: Ptr, t: nat) returns (s: Status)
      requires Valid()
      modifies this`serviceCount, entries
      ensures Valid() && Reg() == Bind(old(Reg()), service, p, t)
      ensures s == if Find(old(Reg()), service) == old(serviceCount) == MAX_SERVICES then Err else Ok
    {
      var i := FindEntry(service);
      if i == serviceCount {
        if serviceCount >= MAX_SERVICES { return Err; }
        serviceCount := serviceCount + 1;
      }
      entries[i] := Entry(service, p, t, false);
      s := Ok;
    }

    /** nos_service_register_remote. */
    method RegisterRemote(service: nat) returns (s: Status)
      requires Valid()
      modifies this`serviceCount, entries
      ensures Valid() && Reg() == BindRemote(old(Reg()), service)
      ensures s == if Find(old(Reg()), service) == old(serviceCount) == MAX_SERVICES then Err else Ok
    {
      var i := FindEntry(service);
      if i == serviceCount {
        if serviceCount >= MAX_SERVICES { return Err; }
        serviceCount := serviceCount + 1;
      }
      entries[i] := entries[i].(service := service, remote := true);
      s := Ok;
    }

    /** nos_service_unregister_provider. */
    method UnregisterProvider(service: nat) returns (s: Status)
      requires Valid()
      modifies this`serviceCount, entries
      ensures Valid() && Reg() == Unbind(old(Reg()), service)
      ensures s == if Find(old(Reg()), service) == old(serviceCount) then Err else Ok
    {
      var i := FindEntry(service);
      if i == serviceCount { return Err; }
      serviceCount := serviceCount - 1;
      entries[i] := entries[serviceCount];
      s := Ok;
    }

    /** node_register_local_providers. */
    method RegisterLocalProviders(id: nat, p: Ptr, t: nat)
      requires Valid()
      modifies this`serviceCount, entries
      ensures Valid() && Reg() == BindAll(old(Reg()), services, |services|, id, p, t)
    {
      for k := 0 to |services|
        invariant Valid() && Reg() == BindAll(old(Reg()), services, k, id, p, t)
      {
        if ProvidesHere(services[k], id) {
          var _ := RegisterProvider(services[k].service, p, t);
        }
      }
    }

    /** node_unregister_local_providers. */
    method UnregisterLocalProviders(id: nat)
      requires Valid()
      modifies this`serviceCount, entries
      ensures Valid() && Reg() == UnbindAll(old(Reg()), services, |services|, id)
    {
      for k := 0 to |services|
        invariant Valid() && Reg() == UnbindAll(old(Reg()), services, k, id)
      {
        if ProvidesHere(services[k], id) {
          var _ := UnregisterProvider(services[k].service);
        }
      }
    }

    // -------------------------------------------------------------- threads

    /** nos_scheduler_register_component. */
    method RegisterComponent(t: nat, p: Ptr) returns (s: Status)
      requires Valid() && t < |slots|
      modifies this`slots
      ensures Valid()
      ensures s == if |old(slots[t])| >= MAX_COMP_PER_THREAD then Err else Ok
      ensures slots == if s == Ok then old(slots)[t := old(slots[t]) + [p]] else old(slots)
    {
      if |slots[t]| >= MAX_COMP_PER_THREAD { return Err; }
      slots := slots[t := slots[t] + [p]];
      s := Ok;
    }

    /** nos_scheduler_unregister_component. */
    method UnregisterComponent(t: nat, p: Ptr) returns (s: Status)
      requires Valid() && t < |slots|
      modifies this`slots
      ensures Valid()
      ensures s == if TakeOff(old(slots[t]), p).Some? then Ok else Err
      ensures slots == if s == Ok then old(slots)[t := TakeOff(old(slots[t]), p).value] else old(slots)
    {
      var list := slots[t];
      var i: nat := 0;
      while i < |list| && list[i] != p
        invariant i <= |list| && IndexFrom(list, p, 0) == IndexFrom(list, p, i)
      {
        i := i + 1;
      }
      if i == |list| { return Err; }
      slots := slots[t := list[i := list[|list| - 1]][..|list| - 1]];
      s := Ok;
    }

    /** nos_timer_start called by component p. */
    method TimerStart(p: Ptr, timer: nat) returns (s: Status)
      requires Valid()
      modifies this`timers
      ensures Valid() && Abs() == Do(old(Abs()), p, Arm(timer))
      ensures s == Ok ==> exists t :: 0 <= t < |slots| && p in slots[t]
    {
      var t: nat := 0;
      while t < |slots| && p !in slots[t]
        invariant t <= |slots| && ThreadFrom(slots, p, 0) == ThreadFrom(slots, p, t)
      {
        t := t + 1;
      }
      if t == |slots| || timer !in timers.recs || timers.recs[timer].running { return Err; }
      if |timers.heaps[t]| >= TIMER_HEAP_CAPACITY { return Err; }
      timers := timers.(recs := timers.recs[timer := Timer(p, Some(t), true)],
                        heaps := timers.heaps[t := timers.heaps[t] + multiset{timer}]);
      s := Ok;
    }

    /** nos_timer_create: the memory of the timer is new. */
    method TimerCreate(timer: nat)
      requires Valid()
      modifies this`timers
      ensures Valid() && forall p :: Abs() == Do(old(Abs()), p, New(timer))
    {
      if timer !in timers.recs { timers := timers.(recs := timers.recs[timer := Cleared]); }
    }

    /** nos_timer_stop called by component p: the timer's own thread is tried first. */
    method TimerStop(p: Ptr, timer: nat) returns (s: Status)
      requires Valid()
      modifies this`timers
      ensures Valid() && Abs() == Do(old(Abs()), p, Disarm(timer))
    {
      if timer !in timers.recs { return Err; }
      var rec := timers.recs[timer];
      var t: nat := 0;
      if rec.thread.Some? {
        t := rec.thread.value;
      } else {
        while t < |slots| && p !in slots[t]
          invariant t <= |slots| && ThreadFrom(slots, p, 0) == ThreadFrom(slots, p, t)
        {
          t := t + 1;
        }
      }
      if t >= |timers.heaps| || !rec.running || timer !in timers.heaps[t] { return Err; }
      timers := timers.(recs := timers.recs[timer := Cleared],
                        heaps := timers.heaps[t := timers.heaps[t] - multiset{timer}]);
      s := Ok;
    }

    /** nos_timer_delete. */
    method TimerDelete(timer: nat)
      requires Valid()
      modifies this`timers
      ensures Valid() && forall p :: Abs() == Do(old(Abs()), p, Delete(timer))
    {
      if timer !in timers.recs { return; }
      var rec := timers.recs[timer];
      if rec.running && rec.thread.Some? && rec.thread.value < |timers.heaps| {
        var t := rec.thread.value;
        if timer in timers.heaps[t] {
          timers := timers.(heaps := timers.heaps[t := timers.heaps[t] - multiset{timer}]);
        }
      }
      assert timers.recs[timer := Cleared] - {timer} == timers.recs - {timer};
      timers := timers.(recs := timers.recs - {timer});
    }

    /** nos_service_msg_send of a message to a local service. */
    method SendLocal(service: nat) returns (s: Status)
      requires Valid()
      modifies this`queues
      ensures Valid() && forall p :: Abs() == Do(old(Abs()), p, Send(service))
    {
      var i := FindEntry(service);
      if i == serviceCount || entries[i].remote { return Err; }
      var t := entries[i].thread;
      if t >= |queues| { return Err; }
      if |queues[t]| >= QUEUE_ROOM { return Busy; }
      queues := queues[t := queues[t] + [service]];
      s := Ok;
    }

    /** A callback of component p. */
    method Callback(p: Ptr, acts: seq<Act>)
      requires Valid()
      modifies this`timers, this`queues
      ensures Valid() && Abs() == DoAll(old(Abs()), p, acts)
    {
      ghost var n := Abs();
      hide DoAll, Do;
      assert DoAll(n, p, acts[..0]) == n by { DoNone(n, p, acts); }
      for k := 0 to |acts|
        invariant Valid() && Abs() == DoAll(n, p, acts[..k])
      {
        DoNext(n, p, acts, k);
        match acts[k]
        case New(timer) => TimerCreate(timer);
        case Arm(timer) => var _ := TimerStart(p, timer);
        case Disarm(timer) => var _ := TimerStop(p, timer);
        case Delete(timer) => TimerDelete(timer);
        case Send(service) => var _ := SendLocal(service);
      }
      assert acts[..|acts|] == acts;
    }

    // ------------------------------------------------------------ instances

    /** node_destroy_loaded_component. */
    method DestroyComponent(p: Ptr, stop: seq<Act>)
      requires Valid()
      modifies this`life, this`timers, this`queues
      ensures Valid() && Abs() == Destroy(old(Abs()), p, stop)
    {
      hide DoAll;
      if NeedsStop(life, p) {
        life := NodeSpec.Stop(life, p);
        Callback(p, stop);
      }
      life := Free(life, p);
    }

    /** node_load_component_staged. */
    method LoadComponent(load: Load, id: nat, name: string) returns (good: bool)
      requires Valid()
      modifies this`life, this`timers, this`queues
      ensures Valid() && (Abs(), good) == LoadStaged(old(Abs()), load, id, name) && (good ==> load.Staged?)
    {
      hide DoAll, Destroy;
      match load
      case Missing => good := false;
      case Broken(p, init, stop) =>
        life := Create(life, p, id, name);
        Callback(p, init);
        life := SetStatus(life, p, Faulty);
        DestroyComponent(p, stop);
        good := false;
      case Staged(p, init, _) =>
        life := Create(life, p, id, name);
        Callback(p, init);
        good := true;
    }

    /** node_stop_component_instance: the status first, then messages and timers, then
        the stop callback. */
    method StopComponent(info: Info, scratch: bool, stop: seq<Act>)
      requires Valid() && info.thread < |slots| && info.comp in life.mem
      modifies this`life, this`timers, this`queues
      ensures Valid() && Abs() == StopInstance(old(Abs()), services, info, scratch, stop)
    {
      hide DoAll, Keep, Targets;
      var p, t := info.comp, info.thread;
      var shouldCallStop := NeedsStop(life, p);
      ghost var targets := TargetsFn(services, Reg(), life.mem[p].id, p);
      var id := life.mem[p].id;
      life := NodeSpec.Stop(life, p);
      if scratch {
        DropMessages(t, id, p);
      }
      timers := Cancelled(timers, t, p);
      if shouldCallStop { Callback(p, stop); }
    }

    /** nos_scheduler_drop_messages_for_provider on the messages of thread t. */
    method DropMessages(t: nat, id: nat, p: Ptr)
      requires Valid() && t < |queues|
      modifies this`queues
      ensures Valid()
      ensures queues == old(queues)[t := Keep(old(queues[t]), Not(TargetsFn(services, Reg(), id, p)))]
    {
      ghost var targets := TargetsFn(services, Reg(), id, p);
      var all := queues[t];
      var kept: seq<nat> := [];
      assert all[..0] == [];
      for k := 0 to |all|
        invariant queues == old(queues) && kept == Keep(all[..k], Not(targets))
      {
        KeepNext(all, k, Not(targets));
        var hit := IsTarget(id, p, all[k]);
        if !hit { kept := kept + [all[k]]; }
      }
      assert all[..|all|] == all;
      queues := queues[t := kept];
    }

    method IsTarget(id: nat, p: Ptr, service: nat) returns (hit: bool)
      requires Valid()
      ensures hit == Targets(services, Reg(), id, p, service)
    {
      var i := FindEntry(service);
      hit := i < serviceCount && !entries[i].remote && entries[i].provider == p;
      if hit { return; }
      for k := 0 to |services|
        invariant forall j :: 0 <= j < k ==> !(services[j].service == service && ProvidesHere(services[j], id))
      {
        if services[k].service == service && ProvidesHere(services[k], id) { return true; }
      }
    }

    // ----------------------------------------------------------- operations

    /** One placement of node_init_workers. */
    method PlaceComponent(t: nat, id: nat, name: string, load: Load)
      requires Valid() && t < |slots|
      modifies this, infos
      ensures Valid() && Abs() == Place(old(Abs()), t, id, name, load)
    {
      hide LoadStaged, Destroy;
      var good := LoadComponent(load, id, name);
      if !good || t >= |slots| { return; }
      if loadedCount >= MAX_LOADED {
        DestroyComponent(load.ptr, load.stop);
        return;
      }
      var s := RegisterComponent(t, load.ptr);
      if s != Ok {
        DestroyComponent(load.ptr, load.stop);
        return;
      }
      infos[loadedCount] := Info(load.ptr, t);
      loadedCount := loadedCount + 1;
    }

    /** The provider of node_get_loaded_comp_by_id and the worker that lists it. */
    method FindProvider(id: nat) returns (i: nat, t: nat)
      requires Valid() && Sound(Abs())
      ensures i == LoadedFrom(Abs(), id, 0) && t == WorkerFrom(Abs(), id, 0)
    {
      i := 0;
      while i < loadedCount && life.mem[infos[i].comp].id != id
        invariant i <= loadedCount && LoadedFrom(Abs(), id, 0) == LoadedFrom(Abs(), id, i)
      {
        i := i + 1;
      }
      t := 0;
      while t < |slots| && !exists p :: p in slots[t] && p in life.mem && life.mem[p].id == id
        invariant t <= |slots| && WorkerFrom(Abs(), id, 0) == WorkerFrom(Abs(), id, t)
      {
        t := t + 1;
      }
    }

    /** One service of node_setup_routing. */
    method RouteService(svc: Svc)
      requires Valid() && Sound(Abs())
      modifies this`serviceCount, entries
      ensures Valid() && Abs() == Route(old(Abs()), svc)
    {
      hide LoadedFrom, WorkerFrom, Bind, BindRemote;
      if svc.local {
        var i, t := FindProvider(svc.provider);
        if i < loadedCount && t < |slots| {
          var _ := RegisterProvider(svc.service, infos[i].comp, t);
        }
      } else if svc.path {
        var _ := RegisterRemote(svc.service);
      }
    }

    /** node_setup_routing. */
    method SetupRouting()
      requires Valid() && Sound(Abs())
      modifies this`serviceCount, entries
      ensures Valid() && Abs() == RouteAll(old(Abs()), services, |services|)
    {
      ghost var n := Abs();
      hide Route;
      for k := 0 to |services|
        invariant Valid() && Abs() == RouteAll(n, services, k)
      {
        RouteService(services[k]);
      }
    }

    /** The search of unload and reload by name. */
    method FindNamed(name: string) returns (i: nat)
      requires Valid() && Sound(Abs())
      ensures i == NamedFrom(Abs(), name, 0)
    {
      i := 0;
      while i < loadedCount && life.mem[infos[i].comp].name != name
        invariant i <= loadedCount
        invariant NamedFrom(Abs(), name, 0) == NamedFrom(Abs(), name, i)
      {
        i := i + 1;
      }
    }

    /** The loaded table closes up over place i, one entry at a time. */
    method CloseUp(i: nat)
      requires Valid() && i < loadedCount
      modifies this`loadedCount, infos
      ensures Valid() && loadedCount == old(loadedCount) - 1
      ensures infos[..loadedCount] == old(infos[..i] + infos[i + 1..loadedCount])
    {
      for k := i to loadedCount - 1
        invariant Valid() && loadedCount == old(loadedCount)
        invariant forall j :: 0 <= j < infos.Length ==>
                    infos[j] == if i <= j < k then old(infos[j + 1]) else old(infos[j])
      {
        infos[k] := infos[k + 1];
      }
      loadedCount := loadedCount - 1;
    }

    /** node_unload_component. */
    method UnloadComponent(name: string, scratch: bool, stop: seq<Act>) returns (s: Status)
      requires Valid() && Sound(Abs())
      modifies this, entries, infos
      ensures Valid() && (s, Abs()) == Unload(old(Abs()), services, name, scratch, stop)
    {
      hide NamedFrom, TakeOff, UnbindAll, StopInstance, Destroy;
      var i := FindNamed(name);
      if i == loadedCount { return Err; }
      var info := infos[i];
      var id := life.mem[info.comp].id;
      ghost var n := Abs();
      var _ := UnregisterComponent(info.thread, info.comp);
      UnregisterLocalProviders(id);
      StopComponent(info, scratch, stop);
      DestroyComponent(info.comp, stop);
      CloseUp(i);
      assert infos[..loadedCount] == n.loaded[..i] + n.loaded[i + 1..];
      s := Ok;
    }

    /** node_reload_component. */
    method ReloadComponent(name: string, load: Load, scratch: bool, stop: seq<Act>) returns (s: Status)
      requires Valid() && Sound(Abs())
      modifies this, entries, infos
      ensures Valid() && (s, Abs()) == Reload(old(Abs()), services, name, load, scratch, stop)
    {
      hide NamedFrom, TakeOff, BindAll, StopInstance, Destroy, LoadStaged;
      var i := FindNamed(name);
      if i == loadedCount { return Err; }
      var info := infos[i];
      var id := life.mem[info.comp].id;
      var good := LoadComponent(load, id, name);
      if !good || info.thread >= |slots| || info.comp !in life.mem { return Err; }
      ghost var m := Abs();
      var u := UnregisterComponent(info.thread, info.comp);
      if u != Ok {
        DestroyComponent(load.ptr, load.stop);
        return Err;
      }
      var g := RegisterComponent(info.thread, load.ptr);
      if g != Ok {
        var _ := RegisterComponent(info.thread, info.comp);
        DestroyComponent(load.ptr, load.stop);
        return Err;
      }
      assert slots == m.slots[info.thread := TakeOff(m.slots[info.thread], info.comp).value + [load.ptr]];
      SwapIn(i, info, id, load.ptr, scratch, stop);
      s := Ok;
    }

    /** The swap in the loaded table and the registry, and the end of the old instance. */
    method SwapIn(i: nat, info: Info, id: nat, p: Ptr, scratch: bool, stop: seq<Act>)
      requires Valid() && i < loadedCount && info.thread < |slots| && info.comp in life.mem
      modifies this, entries, infos
      ensures Valid()
      ensures var n := old(Abs());
              var a := n.(loaded := n.loaded[i := Info(p, info.thread)],
                          registry := BindAll(n.registry, services, |services|, id, p, info.thread));
              var c := StopInstance(a, services, info, scratch, stop);
              Abs() == c.(life := Free(c.life, info.comp))
    {
      hide BindAll, StopInstance;
      ghost var n := Abs();
      infos[i] := Info(p, info.thread);
      RegisterLocalProviders(id, p, info.thread);
      assert infos[..loadedCount] == n.loaded[i := Info(p, info.thread)];
      StopComponent(info, scratch, stop);
      life := Free(life, info.comp);
    }
  }

  lemma DoNone(n: Node, p: Ptr, acts: seq<Act>)
    requires Threads(n)
    ensures DoAll(n, p, acts[..0]) == n
  {
  }

  lemma DoNext(n: Node, p: Ptr, acts: seq<Act>, k: nat)
    requires Threads(n) && k < |acts|
    ensures DoAll(n, p, acts[..k + 1]) == Do(DoAll(n, p, acts[..k]), p, acts[k])
  {
    assert acts[..k + 1][..k] == acts[..k];
  }
}
