/** The timer min-heap of a scheduler thread, as pure functions on the sequence of
    its live slots. The in-place methods of TimerThread are proved equal to these
    functions; the lemmas here say what the functions achieve. */
module TimerHeap {

  /** One heap slot: the timer it points to and that timer's expire_at_ms. */
  datatype Slot<T> = Slot(timer: T, due: nat)

  function Parent(i: nat): (p: nat)
    requires i > 0
    ensures p < i
  {
    (i - 1) / 2
  }

  /** The edge between slot c and its parent is in order. */
  predicate EdgeOk<T>(h: seq<Slot<T>>, c: nat)
    requires 0 < c < |h|
  {
    h[Parent(c)].due <= h[c].due
  }

  predicate IsHeap<T>(h: seq<Slot<T>>) {
    forall c :: 0 < c < |h| ==> EdgeOk(h, c)
  }

  function Swap<T>(h: seq<T>, i: nat, j: nat): (r: seq<T>)
    requires i < |h| && j < |h|
    ensures |r| == |h|
  {
    h[i := h[j]][j := h[i]]
  }

  /** heapify_up: bubble slot i towards the root. */
  function SiftUp<T>(h: seq<Slot<T>>, i: nat): (r: seq<Slot<T>>)
    requires i < |h|
    ensures |r| == |h|
    decreases i
  {
    if i == 0 || h[i].due >= h[Parent(i)].due then h
    else SiftUp(Swap(h, i, Parent(i)), Parent(i))
  }

  function TimerSet<T(==)>(h: seq<Slot<T>>): set<T> {
    set s | s in h :: s.timer
  }

  lemma SameTimerSet<T>(h: seq<Slot<T>>, g: seq<Slot<T>>)
    requires multiset(h) == multiset(g)
    ensures TimerSet(h) == TimerSet(g)
  {
    forall s ensures s in h <==> s in g {
      assert s in h <==> s in multiset(h);
      assert s in g <==> s in multiset(g);
    }
  }

  /** The child heapify_down compares against: the right one only if strictly smaller. */
  function SmallerChild<T>(h: seq<Slot<T>>, i: nat): (c: nat)
    requires 2 * i + 1 < |h|
    ensures 0 < c < |h| && Parent(c) == i
    ensures forall d :: 0 < d < |h| && Parent(d) == i ==> h[c].due <= h[d].due
  {
    if 2 * i + 2 < |h| && h[2 * i + 2].due < h[2 * i + 1].due then 2 * i + 2 else 2 * i + 1
  }

  /** heapify_down: sink slot i. An index past the last slot is left alone. */
  function SiftDown<T>(h: seq<Slot<T>>, i: nat): (r: seq<Slot<T>>)
    ensures |r| == |h|
    decreases |h| - i
  {
    if 2 * i + 1 >= |h| then h
    else
      var c := SmallerChild(h, i);
      if h[i].due <= h[c].due then h else SiftDown(Swap(h, i, c), c)
  }

  // ---------------------------------------------------------------- sifting

  lemma SiftDownOnce<T>(h: seq<Slot<T>>, i: nat, c: nat)
    requires 2 * i + 1 < |h| && c == SmallerChild(h, i)
    ensures SiftDown(h, i) == if h[i].due <= h[c].due then h else SiftDown(Swap(h, i, c), c)
  {
  }

  lemma SiftDownStops<T>(h: seq<Slot<T>>, i: nat)
    requires 2 * i + 1 >= |h|
    ensures SiftDown(h, i) == h
  {
  }

  lemma SwapPermutes<T>(h: seq<T>, i: nat, j: nat)
    requires i < |h| && j < |h|
    ensures multiset(Swap(h, i, j)) == multiset(h)
  {
  }

  lemma {:induction false} SiftUpPermutes<T>(h: seq<Slot<T>>, i: nat)
    requires i < |h|
    ensures multiset(SiftUp(h, i)) == multiset(h)
    decreases i
  {
    if i > 0 && h[i].due < h[Parent(i)].due {
      SwapPermutes(h, i, Parent(i));
      SiftUpPermutes(Swap(h, i, Parent(i)), Parent(i));
    }
  }

  lemma {:induction false} SiftDownPermutes<T>(h: seq<Slot<T>>, i: nat)
    ensures multiset(SiftDown(h, i)) == multiset(h)
    decreases |h| - i
  {
    if 2 * i + 1 < |h| {
      var c := SmallerChild(h, i);
      if h[i].due > h[c].due {
        SwapPermutes(h, i, c);
        SiftDownPermutes(Swap(h, i, c), c);
      }
    }
  }

  /** Only slots from i on can change, and slot i itself ends no later than any of
      its old value and its old children. */
  lemma {:induction false} SiftDownFrame<T>(h: seq<Slot<T>>, i: nat)
    ensures forall j :: 0 <= j < i && j < |h| ==> SiftDown(h, i)[j] == h[j]
    ensures i < |h| ==> SiftDown(h, i)[i].due <= h[i].due
    decreases |h| - i
  {
    if 2 * i + 1 < |h| {
      var c := SmallerChild(h, i);
      if h[i].due > h[c].due {
        SiftDownFrame(Swap(h, i, c), c);
      }
    }
  }

  /** Every edge whose parent is lo or later is in order, except possibly below i. */
  ghost predicate AlmostFrom<T>(h: seq<Slot<T>>, lo: nat, i: nat) {
    && lo <= i
    && (forall c :: 0 < c < |h| && lo <= Parent(c) && Parent(c) != i ==> EdgeOk(h, c))
    && (forall c :: 0 < c < |h| && Parent(c) == i && i > 0 && lo <= Parent(i) ==>
          h[Parent(i)].due <= h[c].due)
  }

  ghost predicate HeapFrom<T>(h: seq<Slot<T>>, lo: nat) {
    forall c :: 0 < c < |h| && lo <= Parent(c) ==> EdgeOk(h, c)
  }

  /** Sinking the one misplaced slot repairs every edge from lo on. */
  lemma {:induction false} SiftDownRepairs<T>(h: seq<Slot<T>>, lo: nat, i: nat)
    requires AlmostFrom(h, lo, i)
    ensures HeapFrom(SiftDown(h, i), lo)
    decreases |h| - i
  {
    if 2 * i + 1 < |h| {
      var c := SmallerChild(h, i);
      if h[i].due > h[c].due {
        var g := Swap(h, i, c);
        assert EdgeOk(h, c) || Parent(c) == i;
        forall d | 0 < d < |g| && lo <= Parent(d) && Parent(d) != c ensures EdgeOk(g, d) {
          if Parent(d) == i {
          } else if d == i {
            assert h[Parent(i)].due <= h[c].due;
          } else {
            assert EdgeOk(h, d);
          }
        }
        forall d | 0 < d < |g| && Parent(d) == c ensures g[Parent(c)].due <= g[d].due {
          assert EdgeOk(h, d);
        }
        SiftDownRepairs(g, lo, c);
      }
    }
  }

  /** Every edge is in order except possibly the one above i. */
  ghost predicate AlmostAbove<T>(h: seq<Slot<T>>, i: nat) {
    && i < |h|
    && (forall c :: 0 < c < |h| && c != i ==> EdgeOk(h, c))
    && (forall c :: 0 < c < |h| && Parent(c) == i && i > 0 ==> h[Parent(i)].due <= h[c].due)
  }

  lemma {:induction false} SiftUpRepairs<T>(h: seq<Slot<T>>, i: nat)
    requires AlmostAbove(h, i)
    ensures IsHeap(SiftUp(h, i))
    decreases i
  {
    if i > 0 && h[i].due < h[Parent(i)].due {
      var p := Parent(i);
      var g := Swap(h, i, p);
      forall c | 0 < c < |g| && c != p ensures EdgeOk(g, c) {
        if c != i { assert EdgeOk(h, c); }
      }
      forall c | 0 < c < |g| && Parent(c) == p && p > 0 ensures g[Parent(p)].due <= g[c].due {
        assert EdgeOk(h, p);
        if c != i { assert EdgeOk(h, c); }
      }
      SiftUpRepairs(g, p);
    }
  }

  /** In a heap the root is the earliest timer. */
  lemma {:induction false} RootIsMinimal<T>(h: seq<Slot<T>>, j: nat)
    requires IsHeap(h) && j < |h|
    ensures h[0].due <= h[j].due
    decreases j
  {
    if j > 0 {
      assert EdgeOk(h, j);
      RootIsMinimal(h, Parent(j));
    }
  }

  // -------------------------------------------------------------- insertion

  /** nos_timer_start: append and bubble up. */
  function Insert<T>(h: seq<Slot<T>>, s: Slot<T>): (r: seq<Slot<T>>)
    ensures |r| == |h| + 1
  {
    SiftUp(h + [s], |h|)
  }

  lemma InsertAddsOne<T>(h: seq<Slot<T>>, s: Slot<T>)
    ensures multiset(Insert(h, s)) == multiset(h) + multiset{s}
  {
    SiftUpPermutes(h + [s], |h|);
  }

  lemma InsertKeepsHeap<T>(h: seq<Slot<T>>, s: Slot<T>)
    requires IsHeap(h)
    ensures IsHeap(Insert(h, s))
  {
    var g := h + [s];
    forall c | 0 < c < |g| && c != |h| ensures EdgeOk(g, c) {
      assert EdgeOk(h, c);
    }
    SiftUpRepairs(g, |h|);
  }

  // ---------------------------------------------------------------- removal

  /** The removal of slot i: the last slot moves into i, the heap shrinks by one. */
  function Vacate<T>(h: seq<Slot<T>>, i: nat): (r: seq<Slot<T>>)
    requires i < |h|
    ensures |r| == |h| - 1
  {
    h[i := h[|h| - 1]][..|h| - 1]
  }

  lemma VacateDropsOne<T>(h: seq<Slot<T>>, i: nat)
    requires i < |h|
    ensures multiset(h) == multiset(Vacate(h, i)) + multiset{h[i]}
  {
    var last := |h| - 1;
    var g := Vacate(h, i);
    assert h == h[..last] + [h[last]];
    if i < last {
      assert h[..last] == h[..i] + [h[i]] + h[i + 1..last];
      assert g == h[..i] + [h[last]] + h[i + 1..last];
    } else {
      assert g == h[..last];
    }
  }

  /** nos_timer_stop and nos_timer_delete: vacate, then heapify_down only. */
  function RemoveAt<T>(h: seq<Slot<T>>, i: nat): (r: seq<Slot<T>>)
    requires i < |h|
    ensures |r| == |h| - 1
  {
    SiftDown(Vacate(h, i), i)
  }

  /** Whatever the heap order, exactly the removed slot goes. */
  lemma RemoveAtDropsOne<T>(h: seq<Slot<T>>, i: nat)
    requires i < |h|
    ensures multiset(h) == multiset(RemoveAt(h, i)) + multiset{h[i]}
  {
    VacateDropsOne(h, i);
    SiftDownPermutes(Vacate(h, i), i);
  }

  lemma RemoveMembers<T>(h: seq<Slot<T>>, i: nat)
    requires i < |h|
    ensures forall s :: s in RemoveAt(h, i) ==> s in h
  {
    RemoveAtDropsOne(h, i);
    hide RemoveAt;
    forall s | s in RemoveAt(h, i) ensures s in h {
      assert s in multiset(RemoveAt(h, i)) && s in multiset(h);
    }
  }

  /** The guard a caller can check before the call: no slot is moved into i, or i is
      the root, or the moved slot belongs below i's parent. */
  predicate RemovalSafe<T>(h: seq<Slot<T>>, i: nat)
    requires i < |h|
  {
    i == |h| - 1 || i == 0 || h[|h| - 1].due >= h[Parent(i)].due
  }

  lemma VacateEdges<T>(h: seq<Slot<T>>, i: nat)
    requires IsHeap(h) && i < |h|
    ensures var g := Vacate(h, i);
            && (forall c :: 0 < c < |g| && Parent(c) != i && c != i ==> EdgeOk(g, c))
            && (forall c :: 0 < c < |g| && Parent(c) == i && i > 0 ==>
                  g[Parent(i)].due <= g[c].due)
  {
    var g := Vacate(h, i);
    forall c | 0 < c < |g| && c != i ensures Parent(c) != i ==> EdgeOk(g, c) {
      assert EdgeOk(h, c);
    }
    forall c | 0 < c < |g| && Parent(c) == i && i > 0 ensures g[Parent(i)].due <= g[c].due {
      assert EdgeOk(h, c) && EdgeOk(h, i);
    }
  }

  /** What heapify_down alone does to an unsafe removal: nothing. The moved slot stays
      at i, the edge above i is the only one out of order, and heapify_up at i would
      have repaired it. */
  lemma UnsafeRemovalBreaksOneEdge<T>(h: seq<Slot<T>>, i: nat)
    requires IsHeap(h) && i < |h| && !RemovalSafe(h, i)
    ensures var r := RemoveAt(h, i);
            && r == Vacate(h, i)
            && (forall c :: 0 < c < |r| ==> (EdgeOk(r, c) <==> c != i))
            && IsHeap(SiftUp(r, i))
  {
    var g := Vacate(h, i);
    VacateEdges(h, i);
    assert g[i] == h[|h| - 1] && g[Parent(i)] == h[Parent(i)];
    assert SiftDown(g, i) == g;
    forall c | 0 < c < |g| && c != i ensures EdgeOk(g, c) {
    }
    SiftUpRepairs(g, i);
  }

  /** Removal restores the heap exactly when the guard holds. */
  lemma RemovalRestoresHeapIff<T>(h: seq<Slot<T>>, i: nat)
    requires IsHeap(h) && i < |h|
    ensures IsHeap(RemoveAt(h, i)) <==> RemovalSafe(h, i)
  {
    var g := Vacate(h, i);
    VacateEdges(h, i);
    if !RemovalSafe(h, i) {
      UnsafeRemovalBreaksOneEdge(h, i);
      assert !EdgeOk(RemoveAt(h, i), i);
    } else {
      if 0 < i < |g| {
        assert EdgeOk(g, i);
      }
      assert AlmostFrom(g, 0, i);
      SiftDownRepairs(g, 0, i);
      assert HeapFrom(SiftDown(g, i), 0);
    }
  }

  /** Even an unsafe removal leaves the earliest timer at the root. */
  lemma RootMinimalAfterRemoval<T>(h: seq<Slot<T>>, i: nat, j: nat)
    requires IsHeap(h) && i < |h| && j < |RemoveAt(h, i)|
    ensures RemoveAt(h, i)[0].due <= RemoveAt(h, i)[j].due
  {
    RemovalRestoresHeapIff(h, i);
    if RemovalSafe(h, i) {
      RootIsMinimal(RemoveAt(h, i), j);
    } else {
      UnsafeRemovalBreaksOneEdge(h, i);
      RootIsMinimal(h, if j == i then |h| - 1 else j);
    }
  }

  /** h holds timers with these expiries, in this order. */
  ghost predicate Dues<T>(h: seq<Slot<T>>, d: seq<nat>) {
    |h| == |d| && forall k :: 0 <= k < |d| ==> h[k].due == d[k]
  }

  lemma StopFourth<T>(h: seq<Slot<T>>)
    requires Dues(h, [0, 10, 1, 11, 12, 20, 5])
    ensures IsHeap(h) && !RemovalSafe(h, 3)
    ensures Dues(RemoveAt(h, 3), [0, 10, 1, 5, 12, 20])
    ensures RemoveAt(h, 3)[3] == h[6]
  {
    forall c | 0 < c < |h| ensures EdgeOk(h, c) {
      assert c == 1 || c == 2 || c == 3 || c == 4 || c == 5 || c == 6;
    }
  }

  lemma PopFirst<T>(h: seq<Slot<T>>)
    requires Dues(h, [0, 10, 1, 5, 12, 20])
    ensures Dues(RemoveAt(h, 0), [1, 10, 20, 5, 12])
    ensures RemoveAt(h, 0)[3] == h[3]
  {
    var g := Vacate(h, 0);
    assert SmallerChild(g, 0) == 2;
    var g' := Swap(g, 0, 2);
    assert SiftDown(g', 2) == g';
  }

  lemma PopSecond<T>(h: seq<Slot<T>>)
    requires Dues(h, [1, 10, 20, 5, 12])
    ensures Dues(RemoveAt(h, 0), [10, 5, 20, 12])
    ensures RemoveAt(h, 0)[1] == h[3]
  {
    var g := Vacate(h, 0);
    assert SmallerChild(g, 0) == 1;
    var g' := Swap(g, 0, 1);
    assert SmallerChild(g', 1) == 3;
    var g'' := Swap(g', 1, 3);
    assert SiftDown(g'', 3) == g'';
    assert SiftDown(g', 1) == g'';
  }

  /** The damage is not harmless. These seven timers form a heap; after stopping the
      fourth and letting two fire, the root is due at 10 while the timer due at 5 is
      still waiting below it. */
  lemma UnsafeRemovalDelaysATimer<T>(h: seq<Slot<T>>)
    requires Dues(h, [0, 10, 1, 11, 12, 20, 5])
    ensures IsHeap(h) && !RemovalSafe(h, 3)
    ensures var r := RemoveAt(RemoveAt(RemoveAt(h, 3), 0), 0);
            r[0].due == 10 && r[1] == h[6] && h[6].due == 5
  {
    StopFourth(h);
    PopFirst(RemoveAt(h, 3));
    PopSecond(RemoveAt(RemoveAt(h, 3), 0));
  }

  // --------------------------------------------------- rebuild after cancel

  /** The bottom-up loop of the cancel: heapify_down at n-1, n-2, ..., 0. */
  function Rebuild<T>(h: seq<Slot<T>>, n: nat): (r: seq<Slot<T>>)
    ensures |r| == |h|
    decreases n
  {
    if n == 0 then h else Rebuild(SiftDown(h, n - 1), n - 1)
  }

  lemma {:induction false} RebuildPermutes<T>(h: seq<Slot<T>>, n: nat)
    ensures multiset(Rebuild(h, n)) == multiset(h)
    decreases n
  {
    hide SiftDown;
    if n > 0 {
      SiftDownPermutes(h, n - 1);
      RebuildPermutes(SiftDown(h, n - 1), n - 1);
    }
  }

  lemma {:induction false} RebuildFrom<T>(h: seq<Slot<T>>, n: nat)
    requires HeapFrom(h, n)
    ensures IsHeap(Rebuild(h, n))
    decreases n
  {
    if n > 0 {
      assert AlmostFrom(h, n - 1, n - 1);
      SiftDownRepairs(h, n - 1, n - 1);
      RebuildFrom(SiftDown(h, n - 1), n - 1);
    }
  }

  /** Starting at half the size is enough: whatever the order was, the result is a heap. */
  lemma RebuildMakesHeap<T>(h: seq<Slot<T>>)
    ensures IsHeap(Rebuild(h, |h| / 2))
  {
    RebuildFrom(h, |h| / 2);
  }

  /** The compaction of the cancel, in order: the first slot of each owned timer is left
      out. Taking it out clears the owner, so a second slot of that timer stays. */
  function Without<T(==)>(h: seq<Slot<T>>, owned: set<T>): (r: seq<Slot<T>>)
    ensures |r| <= |h|
  {
    if h == [] then []
    else
      var q, x := h[..|h| - 1], h[|h| - 1];
      if x.timer in owned && x.timer !in TimerSet(q) then Without(q, owned) else Without(q, owned) + [x]
  }

  /** The slots the compaction leaves out. */
  function Dropped<T(==)>(h: seq<Slot<T>>, owned: set<T>): (r: seq<Slot<T>>) {
    if h == [] then []
    else
      var q, x := h[..|h| - 1], h[|h| - 1];
      if x.timer in owned && x.timer !in TimerSet(q) then Dropped(q, owned) + [x] else Dropped(q, owned)
  }

  /** t sits in two slots. */
  ghost predicate Twice<T>(h: seq<Slot<T>>, t: T) {
    exists i, j :: 0 <= i < j < |h| && h[i].timer == t && h[j].timer == t
  }

  lemma TimerSetNext<T>(q: seq<Slot<T>>, x: Slot<T>)
    ensures TimerSet(q + [x]) == TimerSet(q) + {x.timer}
  {
    assert forall s :: s in q + [x] <==> s in q || s == x;
  }

  /** What is kept and what is left out make up the array. */
  lemma {:induction false} CompactionSplits<T>(h: seq<Slot<T>>, owned: set<T>)
    ensures multiset(Without(h, owned)) + multiset(Dropped(h, owned)) == multiset(h)
  {
    hide TimerSet;
    if h != [] {
      var q, x := h[..|h| - 1], h[|h| - 1];
      CompactionSplits(q, owned);
      assert h == q + [x];
    }
  }

  /** Of each owned timer in the array exactly one slot is left out. */
  lemma {:induction false} DropsOneEach<T>(h: seq<Slot<T>>, owned: set<T>)
    ensures TimerSet(Dropped(h, owned)) == TimerSet(h) * owned
    ensures |Dropped(h, owned)| == |TimerSet(h) * owned|
  {
    hide TimerSet;
    if h == [] {
      NoTimers(h);
    } else {
      var q, x := h[..|h| - 1], h[|h| - 1];
      DropsOneEach(q, owned);
      assert h == q + [x];
      TimerSetNext(q, x);
      TimerSetNext(Dropped(q, owned), x);
      MeetNext(TimerSet(q), x.timer, owned);
    }
  }

  lemma NoTimers<T>(h: seq<Slot<T>>)
    requires h == []
    ensures TimerSet(h) == {}
  {
  }

  lemma MeetNext<T>(a: set<T>, x: T, owned: set<T>)
    ensures (a + {x}) * owned == if x in owned && x !in a then a * owned + {x} else a * owned
  {
  }

  lemma TwiceNext<T>(q: seq<Slot<T>>, x: Slot<T>, t: T)
    ensures Twice(q + [x], t) <==> Twice(q, t) || (x.timer == t && t in TimerSet(q))
  {
    var h := q + [x];
    if Twice(q, t) {
      var i, j :| 0 <= i < j < |q| && q[i].timer == t && q[j].timer == t;
      assert h[i].timer == t && h[j].timer == t;
    }
    if x.timer == t && t in TimerSet(q) {
      var i :| 0 <= i < |q| && q[i].timer == t;
      assert h[i].timer == t && h[|q|].timer == t;
    }
  }

  /** An owned timer is still there after the compaction exactly if it sat twice. */
  lemma {:induction false} WithoutKeepsIff<T>(h: seq<Slot<T>>, owned: set<T>, t: T)
    requires t in owned
    ensures t in TimerSet(Without(h, owned)) <==> Twice(h, t)
  {
    if h != [] {
      var q, x := h[..|h| - 1], h[|h| - 1];
      WithoutKeepsIff(q, owned, t);
      assert h == q + [x];
      TwiceNext(q, x, t);
      TimerSetNext(Without(q, owned), x);
      hide Twice;
    }
  }

  /** nos_scheduler_cancel_timers_by_owner on the slots: compact, then rebuild. */
  function Cancel<T(==)>(h: seq<Slot<T>>, owned: set<T>): (r: seq<Slot<T>>) {
    var k := Without(h, owned);
    Rebuild(k, |k| / 2)
  }

  /** From any array at all, the cancel yields a heap; it takes out exactly one slot of each
      owned timer, and nothing else. */
  lemma CancelYieldsHeap<T>(h: seq<Slot<T>>, owned: set<T>)
    ensures IsHeap(Cancel(h, owned))
    ensures multiset(Cancel(h, owned)) + multiset(Dropped(h, owned)) == multiset(h)
    ensures TimerSet(Dropped(h, owned)) == TimerSet(h) * owned && |Dropped(h, owned)| == |TimerSet(h) * owned|
  {
    var k := Without(h, owned);
    RebuildMakesHeap(k);
    RebuildPermutes(k, |k| / 2);
    CompactionSplits(h, owned);
    DropsOneEach(h, owned);
  }

  /** The cancel leaves no slot of an owned timer if and only if none of them sat twice. */
  lemma CancelClearsIff<T>(h: seq<Slot<T>>, owned: set<T>)
    ensures (forall t :: t in owned ==> t !in TimerSet(Cancel(h, owned))) <==> forall t :: t in owned ==> !Twice(h, t)
  {
    var k := Without(h, owned);
    RebuildPermutes(k, |k| / 2);
    SameTimerSet(k, Cancel(h, owned));
    forall t | t in owned ensures t in TimerSet(Cancel(h, owned)) <==> Twice(h, t) {
      WithoutKeepsIff(h, owned, t);
    }
    hide Twice, Cancel, Without;
  }

  // ------------------------------------------------- the expiry of a timer

  /** The expiry is a field of the timer: writing it moves every slot the timer sits in. */
  function Retime<T(==)>(h: seq<Slot<T>>, t: T, d: nat): (r: seq<Slot<T>>)
    ensures |r| == |h|
    ensures forall i :: 0 <= i < |h| ==> r[i] == if h[i].timer == t then Slot(t, d) else h[i]
  {
    seq(|h|, i requires 0 <= i < |h| => if h[i].timer == t then Slot(t, d) else h[i])
  }

  lemma RetimeAbsent<T>(h: seq<Slot<T>>, t: T, d: nat)
    requires t !in TimerSet(h)
    ensures Retime(h, t, d) == h
  {
    forall i | 0 <= i < |h| ensures h[i].timer != t {
      assert h[i] in h;
    }
  }

  lemma RetimeKeepsTimers<T>(h: seq<Slot<T>>, t: T, d: nat)
    ensures TimerSet(Retime(h, t, d)) == TimerSet(h)
    ensures forall s :: s in Retime(h, t, d) ==> if s.timer == t then s.due == d else s in h
  {
    var r := Retime(h, t, d);
    forall u ensures u in TimerSet(r) <==> u in TimerSet(h) {
      if u in TimerSet(h) {
        var i :| 0 <= i < |h| && h[i].timer == u;
        assert r[i].timer == u && r[i] in r;
      }
      if u in TimerSet(r) {
        var i :| 0 <= i < |r| && r[i].timer == u;
        assert h[i].timer == u && h[i] in h;
      }
    }
  }

  /** The first slot of a timer. */
  function FirstOf<T(==)>(h: seq<Slot<T>>, t: T): (i: nat)
    requires t in TimerSet(h)
    ensures i < |h| && h[i].timer == t && forall j :: 0 <= j < i ==> h[j].timer != t
  {
    if h[0].timer == t then 0
    else
      TimerSetTail(h);
      1 + FirstOf(h[1..], t)
  }

  lemma TimerSetTail<T>(h: seq<Slot<T>>)
    requires h != []
    ensures TimerSet(h) == {h[0].timer} + TimerSet(h[1..])
  {
    assert forall s :: s in h <==> s == h[0] || s in h[1..];
  }

  /** Taking out one slot of a timer leaves another exactly if it sat twice. */
  lemma RemovalLeavesIff<T>(h: seq<Slot<T>>, i: nat)
    requires i < |h|
    ensures h[i].timer in TimerSet(RemoveAt(h, i)) <==> Twice(h, h[i].timer)
    ensures TimerSet(RemoveAt(h, i)) <= TimerSet(h)
    ensures forall u :: u in TimerSet(h) && u != h[i].timer ==> u in TimerSet(RemoveAt(h, i))
  {
    var g, t := Vacate(h, i), h[i].timer;
    SiftDownPermutes(g, i);
    SameTimerSet(g, RemoveAt(h, i));
    hide SiftDown, RemoveAt;
    forall u | u in TimerSet(g) ensures u in TimerSet(h) && (u == t ==> Twice(h, t)) {
      var j :| 0 <= j < |g| && g[j].timer == u;
      var k := if j == i then |h| - 1 else j;
      assert h[k].timer == u && h[k] in h && k != i;
    }
    forall j | 0 <= j < |h| && j != i ensures h[j].timer in TimerSet(g) {
      var k := if j == |h| - 1 then i else j;
      assert g[k] == h[j];
    }
    if Twice(h, t) {
      var j, k :| 0 <= j < k < |h| && h[j].timer == t && h[k].timer == t;
      assert h[if j == i then k else j].timer in TimerSet(g);
    }
    forall u | u in TimerSet(h) && u != t ensures u in TimerSet(g) {
      var j :| 0 <= j < |h| && h[j].timer == u;
    }
  }
}
