/** What adding, removing and replacing a component does to the tables, one table at a
    time. */
module NodeTables {
  import opened Common
  import opened NodeTimers
  import opened NodeSpec
  import opened NodeRegistry
  import opened NodeInv

  /** The loaded table without its place i. */
  function Without(loaded: seq<Info>, i: nat): seq<Info>
    requires i < |loaded|
  {
    loaded[..i] + loaded[i + 1..]
  }

  ghost predicate Once(loaded: seq<Info>) {
    forall i, j :: 0 <= i < j < |loaded| ==> loaded[i].comp != loaded[j].comp
  }

  lemma WithoutMembers(loaded: seq<Info>, i: nat)
    requires Once(loaded) && i < |loaded|
    ensures Once(Without(loaded, i))
    ensures forall x :: x in Without(loaded, i) <==> x in loaded && x != loaded[i]
    ensures forall p :: Listed(Without(loaded, i), p) <==> Listed(loaded, p) && p != loaded[i].comp
  {
    var w := Without(loaded, i);
    assert forall j :: 0 <= j < |w| ==> w[j] == loaded[if j < i then j else j + 1];
    hide Without;
    forall j: nat | j < |loaded| && j != i ensures loaded[j] in w && Listed(w, loaded[j].comp) {
      WithoutAt(loaded, i, j);
    }
  }

  lemma WithoutAt(loaded: seq<Info>, i: nat, j: nat)
    requires i < |loaded| && j < |loaded| && j != i
    ensures loaded[j] in Without(loaded, i) && Listed(Without(loaded, i), loaded[j].comp)
  {
    assert Without(loaded, i)[if j < i then j else j - 1] == loaded[j];
  }

  lemma ReplacedMembers(loaded: seq<Info>, i: nat, y: Info)
    requires Once(loaded) && i < |loaded| && !Listed(loaded, y.comp)
    ensures Once(loaded[i := y])
    ensures forall x :: x in loaded[i := y] <==> (x in loaded && x != loaded[i]) || x == y
    ensures forall p :: Listed(loaded[i := y], p) <==> (Listed(loaded, p) && p != loaded[i].comp) || p == y.comp
  {
    var w := loaded[i := y];
    assert w[i] == y;
    assert forall j :: 0 <= j < |loaded| && j != i ==> w[j] == loaded[j];
  }

  lemma AddedMembers(loaded: seq<Info>, y: Info)
    requires Once(loaded) && !Listed(loaded, y.comp)
    ensures Once(loaded + [y])
    ensures forall x :: x in loaded + [y] <==> x in loaded || x == y
    ensures forall p :: Listed(loaded + [y], p) <==> Listed(loaded, p) || p == y.comp
  {
    var w := loaded + [y];
    assert w[|loaded|] == y;
    assert forall j :: 0 <= j < |loaded| ==> w[j] == loaded[j];
  }

  /** Taking a component off a thread's list takes off exactly that one. */
  lemma TakeOffMembers(s: seq<Ptr>, p: Ptr)
    requires Different(s)
    ensures TakeOff(s, p).Some? <==> p in s
    ensures p in s ==>
              var q := TakeOff(s, p).value;
              Different(q) && |q| == |s| - 1 && forall x :: x in q <==> x in s && x != p
  {
    var i := IndexFrom(s, p, 0);
    if i < |s| {
      var q := SwapOut(s, p, i);
      assert forall j :: 0 <= j < |q| ==> q[j] == s[if j == i then |s| - 1 else j];
      forall x | x in s && x != p ensures x in q {
        var j :| 0 <= j < |s| && s[j] == x;
        assert q[if j == |s| - 1 then i else j] == x;
      }
    }
  }

  // ---------------------------------------------------------- the two lists

  lemma ListsAdd(slots: seq<seq<Ptr>>, loaded: seq<Info>, t: nat, p: Ptr)
    requires ListsOk(slots, loaded) && t < |slots| && !Listed(loaded, p)
    requires |loaded| < MAX_LOADED && |slots[t]| < MAX_COMP_PER_THREAD
    ensures ListsOk(slots[t := slots[t] + [p]], loaded + [Info(p, t)])
  {
    AddedMembers(loaded, Info(p, t));
    assert Info(p, t) !in loaded;
    var w := slots[t := slots[t] + [p]];
    forall u: nat, q | u < |w| ensures q in w[u] <==> Info(q, u) in loaded + [Info(p, t)] {
      hide Once, Listed;
    }
  }

  lemma ListsRemove(slots: seq<seq<Ptr>>, loaded: seq<Info>, i: nat)
    requires ListsOk(slots, loaded) && i < |loaded|
    ensures var t, p := loaded[i].thread, loaded[i].comp;
            && TakeOff(slots[t], p).Some?
            && ListsOk(slots[t := TakeOff(slots[t], p).value], Without(loaded, i))
  {
    var t, p := loaded[i].thread, loaded[i].comp;
    assert Info(p, t) in loaded;
    TakeOffMembers(slots[t], p);
    WithoutMembers(loaded, i);
    var w := slots[t := TakeOff(slots[t], p).value];
    hide Listed, Without, TakeOff, Once;
    forall u: nat, q | u < |w| ensures q in w[u] <==> Info(q, u) in Without(loaded, i) {
    }
    assert |Without(loaded, i)| <= MAX_LOADED by { WithoutSize(loaded, i); }
    assert forall j :: 0 <= j < |Without(loaded, i)| ==> Without(loaded, i)[j] in Without(loaded, i);
    OnceIs(Without(loaded, i));
  }

  lemma WithoutSize(loaded: seq<Info>, i: nat)
    requires i < |loaded|
    ensures |Without(loaded, i)| == |loaded| - 1
  {
  }

  lemma OnceIs(loaded: seq<Info>)
    ensures Once(loaded) <==> forall i, j :: 0 <= i < j < |loaded| ==> loaded[i].comp != loaded[j].comp
  {
  }

  lemma ListsReplace(slots: seq<seq<Ptr>>, loaded: seq<Info>, i: nat, p: Ptr)
    requires ListsOk(slots, loaded) && i < |loaded| && !Listed(loaded, p)
    ensures var t, o := loaded[i].thread, loaded[i].comp;
            && TakeOff(slots[t], o).Some? && |TakeOff(slots[t], o).value| < MAX_COMP_PER_THREAD
            && ListsOk(slots[t := TakeOff(slots[t], o).value + [p]], loaded[i := Info(p, t)])
  {
    var t, o := loaded[i].thread, loaded[i].comp;
    assert Info(o, t) in loaded;
    TakeOffMembers(slots[t], o);
    ReplacedMembers(loaded, i, Info(p, t));
    var q := TakeOff(slots[t], o).value;
    var w := slots[t := q + [p]];
    assert forall u: nat :: u < |slots| ==> Info(p, u) !in loaded;
    assert p !in q;
    hide Listed, TakeOff, Once;
    forall u: nat, x | u < |w| ensures x in w[u] <==> Info(x, u) in loaded[i := Info(p, t)] {
    }
    assert Different(q + [p]);
    OnceIs(loaded[i := Info(p, t)]);
  }

  // ----------------------------------------------------------------- memory

  lemma MemAdd(mem: map<Ptr, Comp>, loaded: seq<Info>, p: Ptr, t: nat, c: Comp)
    requires MemOk(mem, loaded) && Once(loaded) && p !in mem
    requires forall q :: q in mem ==> mem[q].id != c.id
    ensures MemOk(mem[p := c], loaded + [Info(p, t)])
  {
    AddedMembers(loaded, Info(p, t));
    hide Listed, Once;
  }

  lemma MemRemove(mem: map<Ptr, Comp>, loaded: seq<Info>, i: nat)
    requires MemOk(mem, loaded) && Once(loaded) && i < |loaded|
    ensures MemOk(mem - {loaded[i].comp}, Without(loaded, i))
  {
    WithoutMembers(loaded, i);
    hide Listed, Once, Without;
  }

  lemma MemReplace(mem: map<Ptr, Comp>, loaded: seq<Info>, i: nat, p: Ptr, c: Comp)
    requires MemOk(mem, loaded) && Once(loaded) && i < |loaded| && p !in mem
    requires loaded[i].comp in mem && c.id == mem[loaded[i].comp].id
    ensures MemOk(mem[p := c] - {loaded[i].comp}, loaded[i := Info(p, loaded[i].thread)])
  {
    ReplacedMembers(loaded, i, Info(p, loaded[i].thread));
    hide Listed, Once;
  }

  // ----------------------------------------------------------------- timers

  lemma HeapsAdd(ts: Timers, slots: seq<seq<Ptr>>, t: nat, p: Ptr)
    requires HeapsOk(ts, slots) && t < |slots|
    ensures HeapsOk(ts, slots[t := slots[t] + [p]])
  {
    if !ts.restarted {
      var w := slots[t := slots[t] + [p]];
      forall u, x | 0 <= u < |ts.heaps| && x in ts.heaps[u] ensures SlotOk(ts, w, u, x) {
        assert SlotOk(ts, slots, u, x);
      }
    }
  }

  /** Timers once owner p is taken off thread t, where it was, and off no other. */
  lemma HeapsTakeOff(ts: Timers, slots: seq<seq<Ptr>>, t: nat, p: Ptr, rest: seq<Ptr>)
    requires HeapsOk(ts, slots) && t < |slots|
    requires forall x :: x in slots[t] && x != p ==> x in rest
    ensures HeapsOk(Cancelled(ts, t, p), slots[t := rest])
  {
    if !ts.restarted { CancelledKeeps(ts, slots, t, p, rest); }
    hide Clean, OwnedIn;
  }

  // --------------------------------------------------------------- registry

  lemma RegAdd(r: Registry, mem: map<Ptr, Comp>, loaded: seq<Info>, m: seq<Svc>, p: Ptr, t: nat, c: Comp)
    requires RegOk(r, mem, loaded, m) && p !in mem
    ensures RegOk(r, mem[p := c], loaded + [Info(p, t)], m)
  {
    assert RegShape(r);
    hide Has, Provides, Unique;
    forall e | Has(r, e) ensures EntryOk(e, mem[p := c], loaded + [Info(p, t)], m) {
      assert EntryOk(e, mem, loaded, m);
    }
  }

  lemma RegRemove(r: Registry, mem: map<Ptr, Comp>, loaded: seq<Info>, m: seq<Svc>, i: nat)
    requires RegOk(r, mem, loaded, m) && Once(loaded) && i < |loaded| && loaded[i].comp in mem
    ensures var p := loaded[i].comp;
            RegOk(UnbindAll(r, m, |m|, mem[p].id), mem - {p}, Without(loaded, i), m)
  {
    var p := loaded[i].comp;
    var q := UnbindAll(r, m, |m|, mem[p].id);
    UnbindAllForgets(r, m, |m|, mem[p].id);
    WithoutMembers(loaded, i);
    hide Has, Provides, Unique, Without, Listed, Once;
    forall e | Has(q, e) ensures EntryOk(e, mem - {p}, Without(loaded, i), m) {
      assert EntryOk(e, mem, loaded, m);
    }
  }

  lemma RegReplace(r: Registry, mem: map<Ptr, Comp>, loaded: seq<Info>, m: seq<Svc>, i: nat, p: Ptr, c: Comp)
    requires RegOk(r, mem, loaded, m) && Once(loaded) && i < |loaded| && loaded[i].comp in mem
    requires !Listed(loaded, p) && p !in mem && c.id == mem[loaded[i].comp].id
    ensures var o, t := loaded[i].comp, loaded[i].thread;
            RegOk(BindAll(r, m, |m|, c.id, p, t), mem[p := c] - {o}, loaded[i := Info(p, t)], m)
  {
    var o, t := loaded[i].comp, loaded[i].thread;
    var q, w := BindAll(r, m, |m|, c.id, p, t), loaded[i := Info(p, t)];
    BindAllSets(r, m, |m|, c.id, p, t);
    ReplacedMembers(loaded, i, Info(p, t));
    hide Has, Provides, Unique, Listed, Once;
    forall e | Has(q, e) ensures EntryOk(e, mem[p := c] - {o}, w, m) {
      if !Provides(m, |m|, e.service, c.id) { assert EntryOk(e, mem, loaded, m); }
    }
  }
}
