/** The node manager: components are loaded, unloaded and replaced while the service
    registry, the component lists and timers of the worker threads, their message queues
    and the loaded table all hold pointers to them. Memory is explicit: a pointer is good
    exactly while it is a key of mem, and a freed one may be handed out again. */
module NodeSpec {
  import opened Common
  import opened RingQueue
  import opened NodeTimers

  const MAX_SERVICES: nat := 64
  const MAX_LOADED: nat := 64
  const MAX_COMP_PER_THREAD: nat := 32
  const QUEUE_ROOM: nat := MAX_QUEUE_SIZE - 1

  /** serial numbers the instances in the order of their creation. */
  datatype Comp = Comp(id: nat, name: string, status: CompStatus, serial: nat)

  datatype Entry = Entry(service: nat, provider: Ptr, thread: nat, remote: bool)

  datatype Registry = Registry(slots: seq<Entry>, count: nat)

  datatype Info = Info(comp: Ptr, thread: nat)

  /** A service of the manifest: who provides it, whether on this node, and whether it has
      a path to a remote node. */
  datatype Svc = Svc(service: nat, provider: nat, local: bool, path: bool)

  /** Instances: those allocated, how many were ever made, and whose stop was called. */
  datatype Life = Life(mem: map<Ptr, Comp>, born: nat, stops: seq<nat>)

  /** What component code does from one of its callbacks. */
  datatype Act = New(timer: nat) | Arm(timer: nat) | Disarm(timer: nat) | Delete(timer: nat) | Send(service: nat)

  /** How a staged load goes: no instance at all, an instance that fails to export or to
      initialise, or a good one; with what its init and stop callbacks do. */
  datatype Load = Missing | Broken(ptr: Ptr, init: seq<Act>, stop: seq<Act>) | Staged(ptr: Ptr, init: seq<Act>, stop: seq<Act>)

  datatype Node = Node(
    life: Life, registry: Registry, slots: seq<seq<Ptr>>, timers: Timers,
    queues: seq<seq<nat>>, loaded: seq<Info>, booting: bool)

  // --------------------------------------------------------------- registry

  /** Index of the first entry of a service among the first k, or k. */
  function FindFrom(s: seq<Entry>, service: nat, i: nat, k: nat): (r: nat)
    requires i <= k <= |s|
    ensures i <= r <= k && (r < k ==> s[r].service == service)
    ensures forall j :: i <= j < r ==> s[j].service != service
    decreases k - i
  {
    if i == k || s[i].service == service then i else FindFrom(s, service, i + 1, k)
  }

  function Find(r: Registry, service: nat): nat
    requires r.count <= |r.slots|
  {
    FindFrom(r.slots, service, 0, r.count)
  }

  /** nos_service_register_provider_bind. */
  function Bind(r: Registry, service: nat, p: Ptr, t: nat): Registry
    requires r.count <= |r.slots| == MAX_SERVICES
  {
    var i := Find(r, service);
    if i == r.count && r.count >= MAX_SERVICES then r
    else Registry(r.slots[i := Entry(service, p, t, false)], if i == r.count then r.count + 1 else r.count)
  }

  /** nos_service_register_remote: the provider of the slot is left as it was. */
  function BindRemote(r: Registry, service: nat): Registry
    requires r.count <= |r.slots| == MAX_SERVICES
  {
    var i := Find(r, service);
    if i == r.count && r.count >= MAX_SERVICES then r
    else
      Registry(r.slots[i := r.slots[i].(service := service, remote := true)],
               if i == r.count then r.count + 1 else r.count)
  }

  /** nos_service_unregister_provider: the last entry takes the place. */
  function Unbind(r: Registry, service: nat): Registry
    requires r.count <= |r.slots| == MAX_SERVICES
  {
    var i := Find(r, service);
    if i == r.count then r else Registry(r.slots[i := r.slots[r.count - 1]], r.count - 1)
  }

  predicate RegShape(r: Registry) {
    r.count <= |r.slots| == MAX_SERVICES
  }

  predicate ProvidesHere(s: Svc, id: nat) {
    s.provider == id && s.local
  }

  /** node_register_local_providers over the first k services of the manifest. */
  function BindAll(r: Registry, m: seq<Svc>, k: nat, id: nat, p: Ptr, t: nat): (q: Registry)
    requires RegShape(r) && k <= |m|
    ensures RegShape(q)
  {
    if k == 0 then r
    else
      var q := BindAll(r, m, k - 1, id, p, t);
      if ProvidesHere(m[k - 1], id) then Bind(q, m[k - 1].service, p, t) else q
  }

  /** node_unregister_local_providers over the first k services of the manifest. */
  function UnbindAll(r: Registry, m: seq<Svc>, k: nat, id: nat): (q: Registry)
    requires RegShape(r) && k <= |m|
    ensures RegShape(q)
  {
    if k == 0 then r
    else
      var q := UnbindAll(r, m, k - 1, id);
      if ProvidesHere(m[k - 1], id) then Unbind(q, m[k - 1].service) else q
  }

  // ---------------------------------------------------------------- threads

  /** nos_scheduler_unregister_component: the last component takes the place. */
  function SwapOut(s: seq<Ptr>, p: Ptr, i: nat): seq<Ptr>
    requires i < |s| && s[i] == p
  {
    s[i := s[|s| - 1]][..|s| - 1]
  }

  function IndexFrom(s: seq<Ptr>, p: Ptr, i: nat): (r: nat)
    requires i <= |s|
    ensures i <= r <= |s| && (r < |s| ==> s[r] == p)
    ensures forall j :: i <= j < r ==> s[j] != p
    decreases |s| - i
  {
    if i == |s| || s[i] == p then i else IndexFrom(s, p, i + 1)
  }

  /** The components of a thread once p is taken off its list, if it is there. */
  function TakeOff(s: seq<Ptr>, p: Ptr): Option<seq<Ptr>> {
    var i := IndexFrom(s, p, 0);
    if i == |s| then None else Some(SwapOut(s, p, i))
  }

  /** find_thread_of_component among the threads from t on, or their number. */
  function ThreadFrom(slots: seq<seq<Ptr>>, p: Ptr, t: nat): (r: nat)
    requires t <= |slots|
    ensures t <= r <= |slots| && (r < |slots| ==> p in slots[r])
    ensures forall u :: t <= u < r ==> p !in slots[u]
    decreases |slots| - t
  {
    if t == |slots| || p in slots[t] then t else ThreadFrom(slots, p, t + 1)
  }

  predicate Threads(n: Node) {
    |n.slots| == |n.timers.heaps| == |n.queues| && RegShape(n.registry)
  }

  /** One act of component p. */
  function Do(n: Node, p: Ptr, a: Act): (r: Node)
    requires Threads(n)
    ensures Threads(r)
  {
    match a
    case New(timer) => n.(timers := Made(n.timers, timer))
    case Arm(timer) => n.(timers := Started(n.timers, p, ThreadFrom(n.slots, p, 0), timer))
    case Disarm(timer) => n.(timers := NodeTimers.Stopped(n.timers, ThreadFrom(n.slots, p, 0), timer))
    case Delete(timer) => n.(timers := Deleted(n.timers, timer))
    case Send(service) =>
      var i := Find(n.registry, service);
      if i == n.registry.count || n.registry.slots[i].remote then n
      else
        var t := n.registry.slots[i].thread;
        if t >= |n.queues| || |n.queues[t]| >= QUEUE_ROOM then n
        else n.(queues := n.queues[t := n.queues[t] + [service]])
  }

  function DoAll(n: Node, p: Ptr, acts: seq<Act>): (r: Node)
    requires Threads(n)
    ensures Threads(r)
  {
    if acts == [] then n else Do(DoAll(n, p, acts[..|acts| - 1]), p, acts[|acts| - 1])
  }

  // -------------------------------------------------------------- instances

  function Create(l: Life, p: Ptr, id: nat, name: string): Life {
    Life(l.mem[p := Comp(id, name, Inited, l.born)], l.born + 1, l.stops)
  }

  function SetStatus(l: Life, p: Ptr, s: CompStatus): Life {
    if p in l.mem then l.(mem := l.mem[p := l.mem[p].(status := s)]) else l
  }

  /** The stop callback runs unless the instance was stopped before. */
  predicate NeedsStop(l: Life, p: Ptr) {
    p in l.mem && l.mem[p].status != Stopped
  }

  function Stop(l: Life, p: Ptr): Life {
    if NeedsStop(l, p) then SetStatus(l, p, Stopped).(stops := l.stops + [l.mem[p].serial]) else l
  }

  function Free(l: Life, p: Ptr): Life {
    l.(mem := l.mem - {p})
  }

  /** node_destroy_loaded_component. */
  function Destroy(n: Node, p: Ptr, stop: seq<Act>): (r: Node)
    requires Threads(n)
    ensures Threads(r)
  {
    var acted := if NeedsStop(n.life, p) then DoAll(n.(life := Stop(n.life, p)), p, stop) else n;
    acted.(life := Free(acted.life, p))
  }

  /** node_load_component_staged: the new instance, if it is good. */
  function LoadStaged(n: Node, load: Load, id: nat, name: string): (r: (Node, bool))
    requires Threads(n)
    ensures Threads(r.0)
  {
    match load
    case Missing => (n, false)
    case Broken(p, init, stop) =>
      var made := DoAll(n.(life := Create(n.life, p, id, name)), p, init);
      (Destroy(made.(life := SetStatus(made.life, p, Faulty)), p, stop), false)
    case Staged(p, init, _) =>
      (DoAll(n.(life := Create(n.life, p, id, name)), p, init), true)
  }

  /** Whether a queued message goes to component id of this node by the manifest, or to
      instance p by the registry. */
  predicate Targets(m: seq<Svc>, r: Registry, id: nat, p: Ptr, service: nat)
    requires RegShape(r)
  {
    var i := Find(r, service);
    || (i < r.count && !r.slots[i].remote && r.slots[i].provider == p)
    || (exists k :: 0 <= k < |m| && m[k].service == service && ProvidesHere(m[k], id))
  }

  function TargetsFn(m: seq<Svc>, r: Registry, id: nat, p: Ptr): nat -> bool
    requires RegShape(r)
  {
    (service: nat) => Targets(m, r, id, p, service)
  }

  /** node_stop_component_instance; scratch says whether the scratch queue of the message
      drop could be allocated. */
  function StopInstance(n: Node, m: seq<Svc>, info: Info, scratch: bool, stop: seq<Act>): (r: Node)
    requires Threads(n) && info.thread < |n.slots| && info.comp in n.life.mem
    ensures Threads(r)
  {
    var p, t := info.comp, info.thread;
    var targets := TargetsFn(m, n.registry, n.life.mem[p].id, p);
    var quiet := n.(life := Stop(n.life, p),
                    queues := if scratch then n.queues[t := Keep(n.queues[t], Not(targets))] else n.queues,
                    timers := Cancelled(n.timers, t, p));
    if NeedsStop(n.life, p) then DoAll(quiet, p, stop) else quiet
  }

  // ----------------------------------------------------------------- firing

  predicate ActiveOwner(n: Node, x: nat) {
    x in n.timers.recs && n.timers.recs[x].owner in n.life.mem && n.life.mem[n.timers.recs[x].owner].status == Active
  }

  /** One turn of process_timers on thread t, with a slot of timer x at the root: popped; its
      callback, if its owner is active; in again, if it is periodic. */
  function Fire(n: Node, t: nat, x: nat, periodic: bool, acts: seq<Act>): (r: Node)
    requires Threads(n) && t < |n.slots|
    ensures Threads(r)
  {
    var a := n.(timers := Popped(n.timers, t, x));
    var b := if ActiveOwner(a, x) then DoAll(a, a.timers.recs[x].owner, acts) else a;
    if t < |b.timers.heaps| && periodic && ActiveOwner(b, x) then b.(timers := Rearmed(b.timers, t, x)) else b
  }

  // ------------------------------------------------------------- operations

  /** Index of the loaded component of a name, or the size of the table. */
  function NamedFrom(n: Node, name: string, i: nat): (r: nat)
    requires i <= |n.loaded| && forall j :: 0 <= j < |n.loaded| ==> n.loaded[j].comp in n.life.mem
    ensures i <= r <= |n.loaded|
    ensures r < |n.loaded| ==> n.life.mem[n.loaded[r].comp].name == name
    ensures forall j :: i <= j < r ==> n.life.mem[n.loaded[j].comp].name != name
    decreases |n.loaded| - i
  {
    if i == |n.loaded| || n.life.mem[n.loaded[i].comp].name == name then i else NamedFrom(n, name, i + 1)
  }

  predicate Sound(n: Node) {
    && Threads(n)
    && forall j :: 0 <= j < |n.loaded| ==> n.loaded[j].comp in n.life.mem && n.loaded[j].thread < |n.slots|
  }

  /** One placement of node_init_workers. */
  function Place(n: Node, t: nat, id: nat, name: string, load: Load): Node
    requires Threads(n) && t < |n.slots|
  {
    var (s, good) := LoadStaged(n, load, id, name);
    if !good || t >= |s.slots| then s
    else if |s.loaded| >= MAX_LOADED || |s.slots[t]| >= MAX_COMP_PER_THREAD then Destroy(s, load.ptr, load.stop)
    else s.(slots := s.slots[t := s.slots[t] + [load.ptr]], loaded := s.loaded + [Info(load.ptr, t)])
  }

  /** node_get_loaded_comp_by_id: index in the loaded table, or its size. */
  function LoadedFrom(n: Node, id: nat, i: nat): (r: nat)
    requires i <= |n.loaded| && forall j :: 0 <= j < |n.loaded| ==> n.loaded[j].comp in n.life.mem
    ensures i <= r <= |n.loaded| && (r < |n.loaded| ==> n.life.mem[n.loaded[r].comp].id == id)
    decreases |n.loaded| - i
  {
    if i == |n.loaded| || n.life.mem[n.loaded[i].comp].id == id then i else LoadedFrom(n, id, i + 1)
  }

  /** The thread one of whose components has the id, or the number of threads. */
  function WorkerFrom(n: Node, id: nat, t: nat): (r: nat)
    requires t <= |n.slots|
    ensures t <= r <= |n.slots|
    ensures r < |n.slots| ==> exists p :: p in n.slots[r] && p in n.life.mem && n.life.mem[p].id == id
    decreases |n.slots| - t
  {
    if t == |n.slots| || exists p :: p in n.slots[t] && p in n.life.mem && n.life.mem[p].id == id then t
    else WorkerFrom(n, id, t + 1)
  }

  /** One service of node_setup_routing. */
  function Route(n: Node, s: Svc): Node
    requires Sound(n)
  {
    if s.local then
      var i, t := LoadedFrom(n, s.provider, 0), WorkerFrom(n, s.provider, 0);
      if i < |n.loaded| && t < |n.slots| then n.(registry := Bind(n.registry, s.service, n.loaded[i].comp, t)) else n
    else if s.path then n.(registry := BindRemote(n.registry, s.service))
    else n
  }

  /** node_setup_routing over the first k services. */
  function RouteAll(n: Node, m: seq<Svc>, k: nat): (r: Node)
    requires Sound(n) && k <= |m|
    ensures Sound(r) && r == n.(registry := r.registry)
  {
    if k == 0 then n else Route(RouteAll(n, m, k - 1), m[k - 1])
  }

  /** node_unload_component. */
  function Unload(n: Node, m: seq<Svc>, name: string, scratch: bool, stop: seq<Act>): (r: (Status, Node))
    requires Sound(n)
  {
    var i := NamedFrom(n, name, 0);
    if i == |n.loaded| then (Err, n)
    else
      var info := n.loaded[i];
      var off := TakeOff(n.slots[info.thread], info.comp);
      var a := if off.Some? then n.(slots := n.slots[info.thread := off.value]) else n;
      var b := a.(registry := UnbindAll(a.registry, m, |m|, n.life.mem[info.comp].id));
      var c := StopInstance(b, m, info, scratch, stop);
      var d := Destroy(c, info.comp, stop);
      (Ok, d.(loaded := n.loaded[..i] + n.loaded[i + 1..]))
  }

  /** node_reload_component. */
  function Reload(n: Node, m: seq<Svc>, name: string, load: Load, scratch: bool, stop: seq<Act>): (r: (Status, Node))
    requires Sound(n)
  {
    var i := NamedFrom(n, name, 0);
    if i == |n.loaded| then (Err, n)
    else
      var info := n.loaded[i];
      var id := n.life.mem[info.comp].id;
      var (s, good) := LoadStaged(n, load, id, name);
      if !good || info.thread >= |s.slots| || info.comp !in s.life.mem then (Err, s)
      else
        var off := TakeOff(s.slots[info.thread], info.comp);
        if off.None? then (Err, Destroy(s, load.ptr, load.stop))
        else if |off.value| >= MAX_COMP_PER_THREAD then
          (Err, Destroy(s.(slots := s.slots[info.thread := off.value]), load.ptr, load.stop))
        else
          var a := s.(slots := s.slots[info.thread := off.value + [load.ptr]],
                      loaded := n.loaded[i := Info(load.ptr, info.thread)],
                      registry := BindAll(s.registry, m, |m|, id, load.ptr, info.thread));
          var c := StopInstance(a, m, info, scratch, stop);
          (Ok, c.(life := Free(c.life, info.comp)))
  }
}
