/** What holds between calls of the node manager: every pointer is to a live component, the
    tables agree, and stop is called once per instance that is gone. */
module NodeInv {
  import opened Common
  import opened RingQueue
  import opened NodeTimers
  import opened NodeSpec
  import opened NodeRegistry

  // ------------------------------------------------------------- invariant

  ghost predicate HasSerial(l: Life, s: nat) {
    exists p :: p in l.mem && l.mem[p].serial == s
  }

  /** Of all instances ever made, those still allocated were not stopped and all others
      were stopped once. */
  ghost predicate LifeOk(l: Life) {
    && 0 !in l.mem
    && (forall p :: p in l.mem ==> l.mem[p].serial < l.born && l.mem[p].status != Stopped && l.mem[p].serial !in l.stops)
    && (forall p, q :: p in l.mem && q in l.mem && p != q ==> l.mem[p].serial != l.mem[q].serial)
    && (forall i, j :: 0 <= i < j < |l.stops| ==> l.stops[i] != l.stops[j])
    && (forall i :: 0 <= i < |l.stops| ==> l.stops[i] < l.born)
    && (forall s: nat :: s < l.born ==> s in l.stops || HasSerial(l, s))
  }

  ghost predicate Different(s: seq<Ptr>) {
    forall i, j :: 0 <= i < j < |s| ==> s[i] != s[j]
  }

  /** The loaded table lists each component once, under the thread that lists it. */
  ghost predicate ListsOk(slots: seq<seq<Ptr>>, loaded: seq<Info>) {
    && |loaded| <= MAX_LOADED
    && (forall i, j :: 0 <= i < j < |loaded| ==> loaded[i].comp != loaded[j].comp)
    && (forall i :: 0 <= i < |loaded| ==> loaded[i].thread < |slots|)
    && (forall t :: 0 <= t < |slots| ==> Different(slots[t]) && |slots[t]| <= MAX_COMP_PER_THREAD)
    && (forall t: nat, p :: t < |slots| ==> (p in slots[t] <==> Info(p, t) in loaded))
  }

  ghost predicate Listed(loaded: seq<Info>, p: Ptr) {
    exists i :: 0 <= i < |loaded| && loaded[i].comp == p
  }

  /** Exactly the loaded components are allocated, under different ids. */
  ghost predicate MemOk(mem: map<Ptr, Comp>, loaded: seq<Info>) {
    && (forall p :: p in mem <==> Listed(loaded, p))
    && (forall p, q :: p in mem && q in mem && p != q ==> mem[p].id != mem[q].id)
  }

  /** Until a timer is restarted under its own re-arm, the heaps are clean. */
  ghost predicate HeapsOk(ts: Timers, slots: seq<seq<Ptr>>) {
    |ts.heaps| == |slots| && (!ts.restarted ==> Clean(ts, slots))
  }

  /** A local entry names a loaded component, its thread, and a service the manifest gives
      that component; a remote entry names none, and a service of another node. */
  ghost predicate EntryOk(e: Entry, mem: map<Ptr, Comp>, loaded: seq<Info>, m: seq<Svc>) {
    if e.remote then e.provider == 0 && ProvidedElsewhere(m, e.service)
    else e.provider in mem && Info(e.provider, e.thread) in loaded && Provides(m, |m|, e.service, mem[e.provider].id)
  }

  ghost predicate ProvidedElsewhere(m: seq<Svc>, service: nat) {
    exists k :: 0 <= k < |m| && m[k].service == service && !m[k].local
  }

  ghost predicate RegOk(r: Registry, mem: map<Ptr, Comp>, loaded: seq<Info>, m: seq<Svc>) {
    Unique(r) && forall e :: Has(r, e) ==> EntryOk(e, mem, loaded, m)
  }

  ghost predicate Inv(n: Node, m: seq<Svc>) {
    && Threads(n) && LifeOk(n.life) && ListsOk(n.slots, n.loaded) && MemOk(n.life.mem, n.loaded)
    && HeapsOk(n.timers, n.slots) && RegOk(n.registry, n.life.mem, n.loaded, m)
    && (n.booting ==> Blank(n.registry))
  }

  ghost predicate ManifestOk(m: seq<Svc>) {
    forall i, j :: 0 <= i < j < |m| ==> m[i].service != m[j].service
  }

  lemma InvIsSound(n: Node, m: seq<Svc>)
    requires Inv(n, m)
    ensures Sound(n)
  {
    forall j | 0 <= j < |n.loaded| ensures n.loaded[j].comp in n.life.mem {
      assert Listed(n.loaded, n.loaded[j].comp);
    }
  }

  // ----------------------------------------------------------- life of instances

  lemma CreateKeeps(l: Life, p: Ptr, id: nat, name: string)
    requires LifeOk(l) && p !in l.mem && p != 0
    ensures LifeOk(Create(l, p, id, name))
  {
    var k := Create(l, p, id, name);
    forall s: nat | s < k.born ensures s in k.stops || HasSerial(k, s) {
      if s == l.born {
        assert k.mem[p].serial == s;
      } else if s !in l.stops {
        var q :| q in l.mem && l.mem[q].serial == s;
        assert k.mem[q] == l.mem[q];
      }
    }
  }

  lemma StatusKeeps(l: Life, p: Ptr, s: CompStatus)
    requires LifeOk(l) && s != Stopped
    ensures LifeOk(SetStatus(l, p, s)) && SetStatus(l, p, s).mem.Keys == l.mem.Keys
  {
    var k := SetStatus(l, p, s);
    assert k.mem.Keys == l.mem.Keys && k.born == l.born && k.stops == l.stops;
    assert forall q :: q in l.mem ==> k.mem[q].serial == l.mem[q].serial && k.mem[q].status != Stopped;
    SameSerials(l, k);
  }

  lemma SameSerials(l: Life, k: Life)
    requires LifeOk(l) && k.mem.Keys == l.mem.Keys && k.born == l.born && k.stops == l.stops
    requires forall q :: q in l.mem ==> k.mem[q].serial == l.mem[q].serial && k.mem[q].status != Stopped
    ensures LifeOk(k)
  {
    assert forall q :: q in k.mem <==> q in l.mem;
    forall c: nat | c < k.born ensures c in k.stops || HasSerial(k, c) {
      if c !in l.stops {
        var q :| q in l.mem && l.mem[q].serial == c;
        assert k.mem[q].serial == c;
      }
    }
  }

  /** An instance is stopped and given back: its serial joins the stopped ones. */
  lemma RetireKeeps(l: Life, p: Ptr)
    requires LifeOk(l) && p in l.mem
    ensures var k := Free(Stop(l, p), p);
            LifeOk(k) && k.mem == l.mem - {p} && k.stops == l.stops + [l.mem[p].serial] && k.born == l.born
  {
    var k := Free(Stop(l, p), p);
    assert k.mem == l.mem - {p};
    forall s: nat | s < k.born ensures s in k.stops || HasSerial(k, s) {
      if s != l.mem[p].serial && s !in l.stops {
        var q :| q in l.mem && l.mem[q].serial == s;
        assert q in k.mem && k.mem[q] == l.mem[q];
      } else {
        assert k.stops[|l.stops|] == l.mem[p].serial;
      }
    }
    RetiredNew(l, p);
  }

  lemma RetiredNew(l: Life, p: Ptr)
    requires LifeOk(l) && p in l.mem
    ensures var k := l.stops + [l.mem[p].serial];
            && (forall i, j :: 0 <= i < j < |k| ==> k[i] != k[j])
            && (forall q :: q in l.mem && q != p ==> l.mem[q].serial !in k)
  {
  }

  // ------------------------------------------------------------ component code

  /** Component code moves timers and messages, and nothing else; and it re-arms nothing. */
  lemma {:induction false} ActsTouch(n: Node, p: Ptr, acts: seq<Act>)
    requires Threads(n)
    ensures var r := DoAll(n, p, acts);
            && r == n.(timers := r.timers, queues := r.queues)
            && |r.timers.heaps| == |n.timers.heaps| && r.timers.restarted == n.timers.restarted && |r.queues| == |n.queues|
  {
    if acts != [] {
      ActsTouch(n, p, acts[..|acts| - 1]);
      ActTouches(DoAll(n, p, acts[..|acts| - 1]), p, acts[|acts| - 1]);
      hide Do;
    }
  }

  lemma ActTouches(n: Node, p: Ptr, a: Act)
    requires Threads(n)
    ensures var r := Do(n, p, a);
            && r == n.(timers := r.timers, queues := r.queues)
            && |r.timers.heaps| == |n.timers.heaps| && r.timers.restarted == n.timers.restarted && |r.queues| == |n.queues|
  {
    hide Find;
  }

  /** Timers after component code: clean if they were. */
  ghost predicate Calm(r: Timers, ts: Timers, slots: seq<seq<Ptr>>) {
    r.restarted == ts.restarted && |r.heaps| == |ts.heaps| && (Clean(ts, slots) ==> Clean(r, slots))
  }

  lemma CalmCalm(r: Timers, q: Timers, ts: Timers, slots: seq<seq<Ptr>>)
    requires Calm(r, q, slots) && Calm(q, ts, slots)
    ensures Calm(r, ts, slots)
  {
    hide Clean;
  }

  lemma CalmKeeps(r: Timers, ts: Timers, slots: seq<seq<Ptr>>)
    requires Calm(r, ts, slots) && HeapsOk(ts, slots)
    ensures HeapsOk(r, slots)
  {
    hide Clean;
  }

  lemma ActCalm(n: Node, p: Ptr, a: Act)
    requires Threads(n)
    ensures Calm(Do(n, p, a).timers, n.timers, n.slots)
  {
    var t := ThreadFrom(n.slots, p, 0);
    match a
    case New(x) => MadeKeeps(n.timers, n.slots, x); hide Clean;
    case Arm(x) => StartedKeeps(n.timers, n.slots, p, t, x); hide Clean;
    case Disarm(x) => StoppedKeeps(n.timers, n.slots, t, x); hide Clean;
    case Delete(x) => DeletedKeeps(n.timers, n.slots, x); hide Clean;
    case Send(_) => hide Clean, Find;
  }

  lemma {:induction false} ActsCalm(n: Node, p: Ptr, acts: seq<Act>)
    requires Threads(n)
    ensures Calm(DoAll(n, p, acts).timers, n.timers, n.slots)
  {
    if acts != [] {
      var a := DoAll(n, p, acts[..|acts| - 1]);
      ActsTouch(n, p, acts[..|acts| - 1]);
      ActsCalm(n, p, acts[..|acts| - 1]);
      ActCalm(a, p, acts[|acts| - 1]);
      hide Do, Calm;
      CalmCalm(DoAll(n, p, acts).timers, a.timers, n.timers, n.slots);
    }
  }

  // -------------------------------------------------- code nobody lists

  ghost predicate Unlisted(n: Node, p: Ptr) {
    forall t :: 0 <= t < |n.slots| ==> p !in n.slots[t]
  }

  /** A component on no thread's list starts nothing. */
  lemma UnlistedStarts(n: Node, p: Ptr, x: nat)
    requires Threads(n) && Unlisted(n, p)
    ensures ThreadFrom(n.slots, p, 0) == |n.slots| && Do(n, p, Arm(x)) == n
  {
  }

  ghost predicate Fewer(h: seq<multiset<nat>>, g: seq<multiset<nat>>) {
    |h| == |g| && forall t :: 0 <= t < |h| ==> h[t] <= g[t]
  }

  /** A component that is on no thread's list starts no timer, whatever it tries. */
  lemma {:induction false} CannotArm(n: Node, p: Ptr, acts: seq<Act>)
    requires Threads(n) && Unlisted(n, p)
    ensures Fewer(DoAll(n, p, acts).timers.heaps, n.timers.heaps)
  {
    if acts != [] {
      var a, last := DoAll(n, p, acts[..|acts| - 1]), acts[|acts| - 1];
      ActsTouch(n, p, acts[..|acts| - 1]);
      CannotArm(n, p, acts[..|acts| - 1]);
      if last.Arm? { UnlistedStarts(a, p, last.timer); } else { ActTakes(a, p, last); }
      hide Do;
    }
  }

  lemma ActTakes(n: Node, p: Ptr, a: Act)
    requires Threads(n) && !a.Arm?
    ensures Fewer(Do(n, p, a).timers.heaps, n.timers.heaps)
  {
    hide Find;
  }

  /** Timers after the code of a component nobody lists. */
  ghost predicate Quieter(r: Timers, ts: Timers, slots: seq<seq<Ptr>>) {
    Calm(r, ts, slots) && Fewer(r.heaps, ts.heaps)
  }

  lemma UnlistedQuiet(n: Node, p: Ptr, acts: seq<Act>)
    requires Threads(n) && Unlisted(n, p)
    ensures Quieter(DoAll(n, p, acts).timers, n.timers, n.slots)
  {
    ActsCalm(n, p, acts);
    CannotArm(n, p, acts);
    hide DoAll, Calm, Fewer;
  }

  lemma QuietQuiet(r: Timers, q: Timers, ts: Timers, slots: seq<seq<Ptr>>)
    requires Quieter(r, q, slots) && Quieter(q, ts, slots)
    ensures Quieter(r, ts, slots)
  {
    CalmCalm(r, q, ts, slots);
    hide Calm;
  }

  lemma QuietKeeps(r: Timers, ts: Timers, slots: seq<seq<Ptr>>)
    requires Quieter(r, ts, slots) && HeapsOk(ts, slots)
    ensures HeapsOk(r, slots)
  {
    CalmKeeps(r, ts, slots);
  }

  /** The slots of r are those of ts whose timers no act stops or deletes; those timers are
      as they were. */
  ghost predicate LessStopped(r: Timers, ts: Timers, acts: seq<Act>) {
    && |r.heaps| == |ts.heaps|
    && forall t, x :: 0 <= t < |r.heaps| ==>
         && (x in r.heaps[t] <==> x in ts.heaps[t] && Disarm(x) !in acts && Delete(x) !in acts)
         && (x in r.heaps[t] && x in ts.recs ==> x in r.recs && r.recs[x] == ts.recs[x])
  }

  lemma LessAndLess(r: Timers, q: Timers, ts: Timers, later: seq<Act>, earlier: seq<Act>)
    requires LessStopped(r, q, later) && LessStopped(q, ts, earlier)
    ensures LessStopped(r, ts, earlier + later)
  {
    forall t, x | 0 <= t < |r.heaps|
      ensures x in r.heaps[t] <==> x in ts.heaps[t] && Disarm(x) !in earlier + later && Delete(x) !in earlier + later
      ensures x in r.heaps[t] && x in ts.recs ==> x in r.recs && r.recs[x] == ts.recs[x]
    {
      assert x in r.heaps[t] <==> x in q.heaps[t] && Disarm(x) !in later && Delete(x) !in later;
      assert x in q.heaps[t] <==> x in ts.heaps[t] && Disarm(x) !in earlier && Delete(x) !in earlier;
    }
  }

  /** While the heaps are clean, a component on no thread's list takes away exactly the
      timers it stops or deletes. */
  lemma {:induction false} ActsTakeExactly(n: Node, p: Ptr, acts: seq<Act>)
    requires Threads(n) && Unlisted(n, p) && Clean(n.timers, n.slots)
    ensures LessStopped(DoAll(n, p, acts).timers, n.timers, acts)
  {
    if acts != [] {
      var most, last := acts[..|acts| - 1], acts[|acts| - 1];
      var a := DoAll(n, p, most);
      ActsTakeExactly(n, p, most);
      ActsTouch(n, p, most);
      ActsCalm(n, p, most);
      ActTakesExactly(a, p, last);
      assert acts == most + [last] && DoAll(n, p, acts) == Do(a, p, last);
      hide Do, DoAll, Clean, LessStopped;
      LessAndLess(Do(a, p, last).timers, a.timers, n.timers, [last], most);
    }
  }

  lemma ActTakesExactly(n: Node, p: Ptr, a: Act)
    requires Threads(n) && Unlisted(n, p) && Clean(n.timers, n.slots)
    ensures LessStopped(Do(n, p, a).timers, n.timers, [a])
  {
    hide Clean, NodeTimers.Stopped, Deleted, Find, Lacks, Started;
    match a
    case New(_) =>
    case Arm(x) => UnlistedStarts(n, p, x);
    case Disarm(x) =>
      StopTakesExactly(n.timers, n.slots, ThreadFrom(n.slots, p, 0), x);
      LackingIsLess(Do(n, p, a).timers, n.timers, x);
      hide LessStopped;
    case Delete(x) =>
      DeleteTakesExactly(n.timers, n.slots, x);
      LackingIsLess(Do(n, p, a).timers, n.timers, x);
      hide LessStopped;
    case Send(_) =>
  }

  lemma LackingIsLess(r: Timers, ts: Timers, x: nat)
    requires Lacks(r, ts, x)
    ensures LessStopped(r, ts, [Disarm(x)]) && LessStopped(r, ts, [Delete(x)])
  {
  }

  /** Exactly the slots of x are gone. */
  ghost predicate Lacks(r: Timers, ts: Timers, x: nat) {
    && |r.heaps| == |ts.heaps|
    && (forall u, y :: 0 <= u < |r.heaps| ==> (y in r.heaps[u] <==> y in ts.heaps[u] && y != x))
    && (forall y :: y in ts.recs && y != x ==> y in r.recs && r.recs[y] == ts.recs[y])
  }

  lemma StopTakesExactly(ts: Timers, slots: seq<seq<Ptr>>, t: nat, x: nat)
    requires Clean(ts, slots)
    ensures Lacks(NodeTimers.Stopped(ts, t, x), ts, x)
  {
    forall u | 0 <= u < |ts.heaps| && x in ts.heaps[u] ensures Home(ts, t, x) == u && ts.heaps[u][x] == 1 {
      assert SlotOk(ts, slots, u, x);
    }
  }

  lemma DeleteTakesExactly(ts: Timers, slots: seq<seq<Ptr>>, x: nat)
    requires Clean(ts, slots)
    ensures Lacks(Deleted(ts, x), ts, x)
  {
    if x in ts.recs && ts.recs[x].running && ts.recs[x].thread.Some? {
      StopTakesExactly(ts, slots, |ts.heaps|, x);
      hide Clean, NodeTimers.Stopped;
    } else {
      assert forall u :: 0 <= u < |ts.heaps| ==> x !in ts.heaps[u];
    }
  }

  /** A timer that does not run and has no thread. */
  predicate Loose(ts: Timers, x: nat) {
    x in ts.recs ==> !ts.recs[x].running && ts.recs[x].thread == None
  }

  /** A slot of such a timer stays whatever a component on no thread's list tries: nothing
      finds it any more. */
  lemma {:induction false} LooseStays(n: Node, p: Ptr, acts: seq<Act>, x: nat)
    requires Threads(n) && Unlisted(n, p) && Loose(n.timers, x)
    ensures var r := DoAll(n, p, acts).timers;
            && Loose(r, x) && |r.heaps| == |n.timers.heaps|
            && forall t :: 0 <= t < |r.heaps| ==> r.heaps[t][x] == n.timers.heaps[t][x]
  {
    if acts != [] {
      var a, last := DoAll(n, p, acts[..|acts| - 1]), acts[|acts| - 1];
      ActsTouch(n, p, acts[..|acts| - 1]);
      LooseStays(n, p, acts[..|acts| - 1], x);
      if last.Arm? { UnlistedStarts(a, p, last.timer); }
      LooseStaysOnce(a, p, last, x);
      hide Do;
    }
  }

  lemma LooseStaysOnce(n: Node, p: Ptr, a: Act, x: nat)
    requires Threads(n) && Unlisted(n, p) && Loose(n.timers, x)
    ensures var r := Do(n, p, a).timers;
            && Loose(r, x) && |r.heaps| == |n.timers.heaps|
            && forall t :: 0 <= t < |r.heaps| ==> r.heaps[t][x] == n.timers.heaps[t][x]
  {
    if a.Arm? { UnlistedStarts(n, p, a.timer); }
    hide Find;
  }

  /** A popped timer of p on thread t while its callback runs: it waits for the re-arm, or
      was started again, or stopped after that. */
  predicate Waiting(ts: Timers, p: Ptr, t: nat, x: nat) {
    x in ts.recs && (ts.recs[x].running || ts.recs[x].owner == 0 || ts.recs[x] == Timer(p, Some(t), false))
  }

  lemma {:induction false} WaitingStays(n: Node, p: Ptr, acts: seq<Act>, t: nat, x: nat)
    requires Threads(n) && Waiting(n.timers, p, t, x) && Delete(x) !in acts
    ensures Waiting(DoAll(n, p, acts).timers, p, t, x)
  {
    if acts != [] {
      WaitingStays(n, p, acts[..|acts| - 1], t, x);
      WaitingStaysOnce(DoAll(n, p, acts[..|acts| - 1]), p, acts[|acts| - 1], t, x);
      hide Do, Waiting;
    }
  }

  lemma WaitingStaysOnce(n: Node, p: Ptr, a: Act, t: nat, x: nat)
    requires Threads(n) && Waiting(n.timers, p, t, x) && Delete(x) != a
    ensures Waiting(Do(n, p, a).timers, p, t, x)
  {
    hide Find;
  }

  /** A turn of the firing loop moves timers and messages, and nothing else. */
  lemma FireTouches(n: Node, t: nat, x: nat, periodic: bool, acts: seq<Act>)
    requires Threads(n) && t < |n.slots|
    ensures var r := Fire(n, t, x, periodic, acts);
            && r == n.(timers := r.timers, queues := r.queues)
            && |r.timers.heaps| == |n.timers.heaps| && |r.queues| == |n.queues|
            && (n.timers.restarted ==> r.timers.restarted)
  {
    var a := n.(timers := Popped(n.timers, t, x));
    if ActiveOwner(a, x) { ActsTouch(a, a.timers.recs[x].owner, acts); }
    hide DoAll;
  }

  /** A turn of the firing loop keeps clean heaps clean, unless the timer runs again when it
      is re-armed. */
  lemma FireCalm(n: Node, t: nat, x: nat, periodic: bool, acts: seq<Act>)
    requires Threads(n) && t < |n.slots| && x in n.timers.heaps[t] && Clean(n.timers, n.slots)
    requires 0 !in n.life.mem && Delete(x) !in acts
    ensures var r := Fire(n, t, x, periodic, acts).timers;
            r.restarted || Clean(r, n.slots)
  {
    var a := n.(timers := Popped(n.timers, t, x));
    PoppedKeeps(n.timers, n.slots, t, x);
    var p := a.timers.recs[x].owner;
    if ActiveOwner(a, x) {
      ActsTouch(a, p, acts);
      ActsCalm(a, p, acts);
      WaitingStays(a, p, acts, t, x);
      var b := DoAll(a, p, acts);
      hide Popped, DoAll, Clean, Rearmed;
      if periodic && ActiveOwner(b, x) {
        if b.timers.recs[x].running {
          RearmSees(b.timers, t, x);
        } else {
          RearmedKeeps(b.timers, b.slots, t, x);
        }
      }
    }
  }

  lemma RearmSees(ts: Timers, t: nat, x: nat)
    requires t < |ts.heaps| && x in ts.recs
    ensures Rearmed(ts, t, x).restarted == (ts.restarted || ts.recs[x].running)
  {
  }

  lemma FireKeeps(n: Node, m: seq<Svc>, t: nat, x: nat, periodic: bool, acts: seq<Act>)
    requires Inv(n, m) && t < |n.slots| && x in n.timers.heaps[t] && Delete(x) !in acts
    ensures Inv(Fire(n, t, x, periodic, acts), m)
  {
    FireTouches(n, t, x, periodic, acts);
    assert 0 !in n.life.mem;
    if !n.timers.restarted { FireCalm(n, t, x, periodic, acts); }
    hide Fire, LifeOk, ListsOk, MemOk, RegOk, Blank, Clean;
  }

  /** Component code running keeps everything. */
  lemma ActsKeep(n: Node, m: seq<Svc>, p: Ptr, acts: seq<Act>)
    requires Inv(n, m)
    ensures Inv(DoAll(n, p, acts), m)
  {
    hide DoAll, LifeOk, ListsOk, MemOk, HeapsOk, RegOk, Blank, Calm;
    ActsTouch(n, p, acts);
    ActsCalm(n, p, acts);
    CalmKeeps(DoAll(n, p, acts).timers, n.timers, n.slots);
  }
}
