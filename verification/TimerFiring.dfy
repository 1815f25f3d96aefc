/** The firing loop of a scheduler thread with the clock held at now: which timers it
    pops, in which order, and what it leaves in the heap. */
module TimerFiring {
  import opened TimerHeap

  /** What the loop reads of a timer besides its expiry: whether its owner is present
      and ACTIVE, whether it has a callback, and its period. */
  datatype Attr = Attr(active: bool, callback: bool, periodic: bool, interval: nat) {
    predicate Rearms() { periodic && active }
    predicate Fires() { active && callback }
  }

  function At<T(==)>(a: map<T, Attr>, t: T): Attr {
    if t in a then a[t] else Attr(false, false, false, 0)
  }

  /** The slot a popped timer gets when it re-arms. */
  function Armed<T(==)>(a: map<T, Attr>, t: T, now: nat): Slot<T> {
    Slot(t, now + At(a, t).interval)
  }

  /** No timer sits in two slots; stated on the multiset so that reordering keeps it. */
  ghost predicate Distinct<T>(m: multiset<Slot<T>>) {
    && (forall s :: s in m ==> m[s] == 1)
    && (forall s, t :: s in m && t in m && s.timer == t.timer ==> s == t)
  }

  ghost predicate TimersDiffer<T>(p: seq<Slot<T>>) {
    forall i, j :: 0 <= i < j < |p| ==> p[i].timer != p[j].timer
  }

  /** Slots of pairwise different timers are distinct, and the other way round. */
  lemma DistinctIff<T>(h: seq<Slot<T>>)
    ensures Distinct(multiset(h)) <==> TimersDiffer(h)
  {
    if TimersDiffer(h) {
      forall s ensures multiset(h)[s] <= 1 {
        OccursOnce(h, s);
      }
      forall s: Slot<T>, t: Slot<T> | s in multiset(h) && t in multiset(h) && s.timer == t.timer ensures s == t {
        var i :| 0 <= i < |h| && h[i] == s;
        var j :| 0 <= j < |h| && h[j] == t;
        assert i == j;
      }
    } else {
      var i, j :| 0 <= i < j < |h| && h[i].timer == h[j].timer;
      assert h[i] in multiset(h) && h[j] in multiset(h);
      assert h == h[..j] + [h[j]] + h[j + 1..];
      assert h[i] in h[..j];
      if h[i] == h[j] {
        assert multiset(h)[h[i]] >= multiset(h[..j])[h[i]] + 1 >= 2;
      }
    }
  }

  lemma {:induction false} OccursOnce<T>(h: seq<Slot<T>>, s: Slot<T>)
    requires TimersDiffer(h)
    ensures multiset(h)[s] <= 1
  {
    if h != [] {
      var q, x := h[..|h| - 1], h[|h| - 1];
      OccursOnce(q, s);
      assert h == q + [x];
      if x == s {
        assert forall j :: 0 <= j < |q| ==> h[j].timer != x.timer;
        assert s !in q;
      }
    }
  }

  /** Reordering keeps the timers and their being different. */
  lemma SameSlots<T>(h: seq<Slot<T>>, g: seq<Slot<T>>)
    requires multiset(h) == multiset(g)
    ensures TimerSet(h) == TimerSet(g)
    ensures TimersDiffer(h) <==> TimersDiffer(g)
  {
    SameTimerSet(h, g);
    DistinctIff(h);
    DistinctIff(g);
  }

  lemma InsertKeepsDifferent<T>(h: seq<Slot<T>>, s: Slot<T>)
    requires TimersDiffer(h) && s.timer !in TimerSet(h)
    ensures TimersDiffer(Insert(h, s)) && TimerSet(Insert(h, s)) == TimerSet(h) + {s.timer}
  {
    var g := h + [s];
    SiftUpPermutes(g, |h|);
    SameSlots(g, Insert(h, s));
    assert forall i :: 0 <= i < |h| ==> h[i] in h && g[i] == h[i];
    forall x ensures x in g <==> x in h || x == s {
    }
  }

  lemma RemoveKeepsDifferent<T>(h: seq<Slot<T>>, i: nat)
    requires TimersDiffer(h) && i < |h|
    ensures TimersDiffer(RemoveAt(h, i)) && TimerSet(RemoveAt(h, i)) == TimerSet(h) - {h[i].timer}
  {
    var g := Vacate(h, i);
    SiftDownPermutes(g, i);
    SameSlots(g, RemoveAt(h, i));
    forall t | t in TimerSet(g) ensures t in TimerSet(h) && t != h[i].timer {
      var j :| 0 <= j < |g| && g[j].timer == t;
      assert g[j] == h[if j == i then |h| - 1 else j];
    }
    forall t | t in TimerSet(h) && t != h[i].timer ensures t in TimerSet(g) {
      var j :| 0 <= j < |h| && h[j].timer == t;
      assert h[j] == g[if j == |h| - 1 then i else j];
    }
  }

  lemma {:induction false} WithoutDiffers<T>(h: seq<Slot<T>>, owned: set<T>)
    requires TimersDiffer(h)
    ensures TimersDiffer(Without(h, owned))
    ensures TimerSet(Without(h, owned)) == TimerSet(h) - owned
  {
    if h != [] {
      var q, x := h[..|h| - 1], h[|h| - 1];
      WithoutDiffers(q, owned);
      var r := Without(q, owned);
      assert h == q + [x];
      assert forall t | t in TimerSet(h) :: t in TimerSet(q) || t == x.timer;
      assert x.timer !in TimerSet(q);
      assert TimerSet(h) == TimerSet(q) + {x.timer};
      if x.timer !in owned {
        assert TimerSet(r + [x]) == TimerSet(r) + {x.timer};
        forall i | 0 <= i < |r| ensures r[i].timer != x.timer {
          assert r[i].timer in TimerSet(r);
        }
      }
    }
  }

  ghost predicate Ready<T>(h: seq<Slot<T>>) {
    IsHeap(h) && Distinct(multiset(h))
  }

  /** The root is due: the loop goes round once more. */
  predicate RootDue<T>(h: seq<Slot<T>>, now: nat) {
    |h| > 0 && h[0].due <= now
  }

  /** Arming a timer: its expiry is written, then it goes in. */
  function Arm<T(==)>(h: seq<Slot<T>>, t: T, d: nat): (r: seq<Slot<T>>)
    ensures |r| == |h| + 1
  {
    Insert(Retime(h, t, d), Slot(t, d))
  }

  /** One iteration: pop the root, then re-arm it if it is periodic and active. */
  function Step<T(==)>(h: seq<Slot<T>>, a: map<T, Attr>, now: nat): (r: seq<Slot<T>>)
    requires RootDue(h, now)
    ensures |r| <= |h| && (!At(a, h[0].timer).Rearms() ==> |r| < |h|)
  {
    var t := h[0].timer;
    var g := RemoveAt(h, 0);
    if At(a, t).Rearms() then Arm(g, t, now + At(a, t).interval) else g
  }

  /** Every due timer that would be re-armed has a positive interval. */
  ghost predicate NoZeroPeriod<T>(h: seq<Slot<T>>, a: map<T, Attr>, now: nat) {
    forall s :: s in h && s.due <= now && At(a, s.timer).Rearms() ==> At(a, s.timer).interval > 0
  }

  ghost function DueTimers<T>(h: seq<Slot<T>>, now: nat): set<T> {
    set s | s in h && s.due <= now :: s.timer
  }

  // ---------------------------------------------------------- one iteration

  /** Taking x out of a distinct multiset and putting y, a slot of the same timer, in. */
  lemma ReplaceOne<T>(m: multiset<Slot<T>>, x: Slot<T>, y: Slot<T>)
    requires Distinct(m) && x in m && y.timer == x.timer
    ensures Distinct(m - multiset{x}) && Distinct(m - multiset{x} + multiset{y})
    ensures forall s :: s in m - multiset{x} <==> s in m && s != x
  {
  }

  /** In slots of different timers re-arming the popped one is a plain insertion. */
  lemma StepInserts<T>(h: seq<Slot<T>>, a: map<T, Attr>, now: nat)
    requires RootDue(h, now) && Distinct(multiset(h))
    ensures var t, g := h[0].timer, RemoveAt(h, 0);
            t !in TimerSet(g) && Step(h, a, now) == if At(a, t).Rearms() then Insert(g, Armed(a, t, now)) else g
  {
    DistinctIff(h);
    RemoveKeepsDifferent(h, 0);
    RetimeAbsent(RemoveAt(h, 0), h[0].timer, now + At(a, h[0].timer).interval);
    hide RemoveAt, Insert;
  }

  lemma ArmMembers<T>(h: seq<Slot<T>>, t: T, d: nat)
    ensures forall s :: s in Arm(h, t, d) ==> if s.timer == t then s.due == d else s in h
  {
    RetimeKeepsTimers(h, t, d);
    var g, x := Retime(h, t, d), Slot(t, d);
    InsertAddsOne(g, x);
    forall s | s in Arm(h, t, d) ensures if s.timer == t then s.due == d else s in h {
      assert s in multiset(Insert(g, x));
      assert s in g || s == x;
    }
  }

  /** Whatever the array, a turn makes progress: the popped timer is re-armed for later or
      there is one slot less, and no other timer becomes due. */
  lemma StepProgress<T>(h: seq<Slot<T>>, a: map<T, Attr>, now: nat)
    requires RootDue(h, now) && NoZeroPeriod(h, a, now)
    ensures var r, t := Step(h, a, now), h[0].timer;
            && NoZeroPeriod(r, a, now) && t in DueTimers(h, now)
            && DueTimers(r, now) <= DueTimers(h, now)
            && (At(a, t).Rearms() ==> DueTimers(r, now) < DueTimers(h, now))
            && (!At(a, t).Rearms() ==> |r| < |h|)
  {
    var r, t, g := Step(h, a, now), h[0].timer, RemoveAt(h, 0);
    assert h[0] in h;
    RemoveMembers(h, 0);
    ArmMembers(g, t, now + At(a, t).interval);
    hide RemoveAt, Arm;
    forall s | s in r && s.due <= now ensures s in h && (At(a, t).Rearms() ==> s.timer != t) {
    }
    assert forall u :: u in DueTimers(r, now) ==> u in DueTimers(h, now);
  }

  lemma StepSlots<T>(h: seq<Slot<T>>, a: map<T, Attr>, now: nat)
    requires RootDue(h, now) && Distinct(multiset(h))
    ensures var t := h[0].timer;
            multiset(Step(h, a, now)) ==
            if At(a, t).Rearms() then multiset(h) - multiset{h[0]} + multiset{Armed(a, t, now)}
            else multiset(h) - multiset{h[0]}
  {
    StepInserts(h, a, now);
    RemoveAtDropsOne(h, 0);
    InsertAddsOne(RemoveAt(h, 0), Armed(a, h[0].timer, now));
  }

  lemma StepKeepsHeap<T>(h: seq<Slot<T>>, a: map<T, Attr>, now: nat)
    requires Ready(h) && RootDue(h, now)
    ensures IsHeap(Step(h, a, now))
  {
    StepInserts(h, a, now);
    RemovalRestoresHeapIff(h, 0);
    InsertKeepsHeap(RemoveAt(h, 0), Armed(a, h[0].timer, now));
  }

  lemma StepKeepsDistinct<T>(h: seq<Slot<T>>, a: map<T, Attr>, now: nat)
    requires Distinct(multiset(h)) && RootDue(h, now)
    ensures Distinct(multiset(Step(h, a, now)))
  {
    StepSlots(h, a, now);
    assert h[0] in h;
    ReplaceOne(multiset(h), h[0], Armed(a, h[0].timer, now));
  }

  lemma StepMembers<T>(h: seq<Slot<T>>, a: map<T, Attr>, now: nat, s: Slot<T>)
    requires Distinct(multiset(h)) && RootDue(h, now)
    ensures var t := h[0].timer;
            s in Step(h, a, now) <==>
              (s in h && s != h[0]) || (At(a, t).Rearms() && s == Armed(a, t, now))
  {
    StepSlots(h, a, now);
    assert h[0] in h;
    ReplaceOne(multiset(h), h[0], Armed(a, h[0].timer, now));
    assert s in Step(h, a, now) <==> s in multiset(Step(h, a, now));
    assert s in h <==> s in multiset(h);
  }

  /** One iteration keeps a heap and the distinctness, and its slots are known. */
  lemma StepEffect<T>(h: seq<Slot<T>>, a: map<T, Attr>, now: nat)
    requires Distinct(multiset(h)) && RootDue(h, now)
    ensures Distinct(multiset(Step(h, a, now))) && (IsHeap(h) ==> IsHeap(Step(h, a, now)))
    ensures forall s :: s in Step(h, a, now) <==>
              (s in h && s != h[0]) || (At(a, h[0].timer).Rearms() && s == Armed(a, h[0].timer, now))
  {
    if IsHeap(h) { StepKeepsHeap(h, a, now); }
    StepKeepsDistinct(h, a, now);
    forall s ensures s in Step(h, a, now) <==>
              (s in h && s != h[0]) || (At(a, h[0].timer).Rearms() && s == Armed(a, h[0].timer, now)) {
      StepMembers(h, a, now, s);
    }
  }

  /** In a distinct heap two slots of one timer are the same slot. */
  lemma SameTimer<T>(h: seq<Slot<T>>, s: Slot<T>, t: Slot<T>)
    requires Distinct(multiset(h)) && s in h && t in h && s.timer == t.timer
    ensures s == t
  {
    assert s in multiset(h) && t in multiset(h);
  }

  lemma RootFirst<T>(h: seq<Slot<T>>, s: Slot<T>)
    requires IsHeap(h) && s in h
    ensures |h| > 0 && h[0].due <= s.due
  {
    var j :| 0 <= j < |h| && h[j] == s;
    RootIsMinimal(h, j);
  }

  lemma NoneDue<T>(h: seq<Slot<T>>, now: nat)
    requires IsHeap(h) && !RootDue(h, now)
    ensures forall s :: s in h ==> s.due > now
    ensures DueTimers(h, now) == {}
  {
    forall s | s in h ensures s.due > now {
      RootFirst(h, s);
    }
  }

  /** Each iteration takes the root's timer out of the due ones, for good, in whatever
      order the array is. */
  lemma DueShrinks<T>(h: seq<Slot<T>>, a: map<T, Attr>, now: nat)
    requires Distinct(multiset(h)) && NoZeroPeriod(h, a, now) && RootDue(h, now)
    ensures Distinct(multiset(Step(h, a, now))) && (IsHeap(h) ==> IsHeap(Step(h, a, now)))
    ensures NoZeroPeriod(Step(h, a, now), a, now)
    ensures h[0].timer in DueTimers(h, now)
    ensures DueTimers(Step(h, a, now), now) == DueTimers(h, now) - {h[0].timer}
  {
    StepEffect(h, a, now);
    var root := h[0];
    var r := Step(h, a, now);
    assert root in h;
    forall t | t in DueTimers(r, now) ensures t in DueTimers(h, now) && t != root.timer {
      var s :| s in r && s.due <= now && s.timer == t;
      assert s in h && s != root;
      if t == root.timer { SameTimer(h, s, root); }
    }
    forall t | t in DueTimers(h, now) && t != root.timer ensures t in DueTimers(r, now) {
      var s :| s in h && s.due <= now && s.timer == t;
      assert s in r;
    }
  }

  // --------------------------------------------------------- the whole loop

  /** The loop run to its end, from any array: the slots it pops, in order, and the array it
      leaves. */
  ghost function Fire<T>(h: seq<Slot<T>>, a: map<T, Attr>, now: nat): (r: (seq<Slot<T>>, seq<Slot<T>>))
    requires NoZeroPeriod(h, a, now)
    decreases DueTimers(h, now), |h|
  {
    if !RootDue(h, now) then ([], h)
    else
      StepProgress(h, a, now);
      var rest := Fire(Step(h, a, now), a, now);
      ([h[0]] + rest.0, rest.1)
  }

  lemma FireOnce<T>(h: seq<Slot<T>>, a: map<T, Attr>, now: nat)
    requires NoZeroPeriod(h, a, now) && RootDue(h, now)
    ensures NoZeroPeriod(Step(h, a, now), a, now)
    ensures Fire(h, a, now) == ([h[0]] + Fire(Step(h, a, now), a, now).0, Fire(Step(h, a, now), a, now).1)
  {
    StepProgress(h, a, now);
  }

  lemma FireDone<T>(h: seq<Slot<T>>, a: map<T, Attr>, now: nat)
    requires NoZeroPeriod(h, a, now) && !RootDue(h, now)
    ensures Fire(h, a, now) == ([], h)
  {
  }

  ghost predicate Sorted<T>(p: seq<Slot<T>>) {
    forall i, j :: 0 <= i < j < |p| ==> p[i].due <= p[j].due
  }

  lemma Prepend<T>(x: Slot<T>, q: seq<Slot<T>>)
    requires Sorted(q) && TimersDiffer(q)
    requires forall s :: s in q ==> x.due <= s.due && x.timer != s.timer
    ensures Sorted([x] + q) && TimersDiffer([x] + q)
    ensures forall s :: s in [x] + q <==> s == x || s in q
  {
    var p := [x] + q;
    assert forall i :: 0 < i < |p| ==> p[i] == q[i - 1] && p[i] in q;
  }

  /** The loop pops exactly the due slots, each once, in non-decreasing expiry order. */
  lemma {:induction false} PopsExactlyTheDue<T>(h: seq<Slot<T>>, a: map<T, Attr>, now: nat)
    requires Ready(h) && NoZeroPeriod(h, a, now)
    ensures forall s | s in Fire(h, a, now).0 :: s in h && s.due <= now
    ensures forall s | s in h && s.due <= now :: s in Fire(h, a, now).0
    ensures Sorted(Fire(h, a, now).0) && TimersDiffer(Fire(h, a, now).0)
    decreases DueTimers(h, now)
  {
    if !RootDue(h, now) {
      NoneDue(h, now);
    } else {
      DueShrinks(h, a, now);
      StepEffect(h, a, now);
      var r := Step(h, a, now);
      PopsExactlyTheDue(r, a, now);
      var q := Fire(r, a, now).0;
      assert Fire(h, a, now).0 == [h[0]] + q;
      assert h[0] in h;
      forall s | s in q ensures s in h && h[0].due <= s.due && h[0].timer != s.timer {
        assert s in r;
        assert s.timer in DueTimers(r, now);
        RootFirst(h, s);
      }
      Prepend(h[0], q);
      forall s | s in h && s.due <= now ensures s in [h[0]] + q {
        if s != h[0] {
          assert s in r;
        }
      }
    }
  }

  /** s is the new slot of a popped timer that re-arms. */
  ghost predicate Rearmed<T>(s: Slot<T>, h: seq<Slot<T>>, a: map<T, Attr>, now: nat) {
    s.timer in DueTimers(h, now) && At(a, s.timer).Rearms() && s == Armed(a, s.timer, now)
  }

  /** The heap left behind is a heap, holds no due timer, and holds exactly the timers
      that were not due plus the popped ones that re-arm, those at now + interval. */
  lemma {:induction false} LeavesExactly<T>(h: seq<Slot<T>>, a: map<T, Attr>, now: nat)
    requires Ready(h) && NoZeroPeriod(h, a, now)
    ensures var r := Fire(h, a, now).1;
            Ready(r) && |r| <= |h| && forall s :: s in r ==> s.due > now
    ensures forall s :: s in Fire(h, a, now).1 <==> (s in h && s.due > now) || Rearmed(s, h, a, now)
    decreases DueTimers(h, now)
  {
    if !RootDue(h, now) {
      NoneDue(h, now);
    } else {
      DueShrinks(h, a, now);
      StepEffect(h, a, now);
      var g := Step(h, a, now);
      LeavesExactly(g, a, now);
      var r := Fire(h, a, now).1;
      var t := h[0].timer;
      forall s ensures s in r <==> (s in h && s.due > now) || Rearmed(s, h, a, now) {
        assert s in r <==> (s in g && s.due > now) || Rearmed(s, g, a, now);
        if s.timer == t {
          assert !Rearmed(s, g, a, now);
          if s in h && s.due > now { SameTimer(h, s, h[0]); }
        }
      }
    }
  }

  /** From an array in any order, as unsafe stops may leave it: only due timers are popped,
      each once; what stays is what was not popped and what re-armed; and the loop ends at
      a root that is not due. */
  lemma {:induction false} PopsOnlyTheDue<T>(h: seq<Slot<T>>, a: map<T, Attr>, now: nat)
    requires Distinct(multiset(h)) && NoZeroPeriod(h, a, now)
    ensures var (p, r) := Fire(h, a, now);
            && Distinct(multiset(r)) && !RootDue(r, now) && TimersDiffer(p)
            && (forall s :: s in p ==> s in h && s.due <= now)
            && (forall s :: s in r <==> (s in h && s !in p) || RearmedFrom(s, p, a, now))
    decreases DueTimers(h, now)
  {
    if !RootDue(h, now) {
      FireDone(h, a, now);
    } else {
      DueShrinks(h, a, now);
      StepEffect(h, a, now);
      var g := Step(h, a, now);
      FireOnce(h, a, now);
      PopsOnlyTheDue(g, a, now);
      hide Step, Fire, IsHeap, Distinct, NoZeroPeriod;
      PoppedFirst(h, g, Fire(g, a, now).0, Fire(g, a, now).1, a, now);
    }
  }

  /** s is the new slot of a timer in p that re-arms. */
  ghost predicate RearmedFrom<T>(s: Slot<T>, p: seq<Slot<T>>, a: map<T, Attr>, now: nat) {
    Holds(p, s.timer) && At(a, s.timer).Rearms() && s == Armed(a, s.timer, now)
  }

  /** The root of h popped before those of p. */
  lemma PoppedFirst<T>(h: seq<Slot<T>>, g: seq<Slot<T>>, p: seq<Slot<T>>, r: seq<Slot<T>>, a: map<T, Attr>, now: nat)
    requires RootDue(h, now) && TimersDiffer(p)
    requires forall s :: s in g <==> (s in h && s != h[0]) || (At(a, h[0].timer).Rearms() && s == Armed(a, h[0].timer, now))
    requires DueTimers(g, now) == DueTimers(h, now) - {h[0].timer}
    requires forall s :: s in p ==> s in g && s.due <= now
    requires forall s :: s in r <==> (s in g && s !in p) || RearmedFrom(s, p, a, now)
    ensures TimersDiffer([h[0]] + p)
    ensures forall s :: s in [h[0]] + p ==> s in h && s.due <= now
    ensures forall s :: s in r <==> (s in h && s !in [h[0]] + p) || RearmedFrom(s, [h[0]] + p, a, now)
  {
    var x, q := h[0], [h[0]] + p;
    assert h[0] in h;
    forall s | s in p ensures s in h && s != x && s.timer != x.timer {
      assert s.timer in DueTimers(g, now);
      assert s.timer != x.timer;
    }
    assert forall i :: 0 < i < |q| ==> q[i] == p[i - 1] && q[i] in p;
    assert forall s :: s in q <==> s == x || s in p;
    forall s ensures s in r <==> (s in h && s !in q) || RearmedFrom(s, q, a, now) {
      assert Holds(q, s.timer) <==> s.timer == x.timer || Holds(p, s.timer) by {
        if s.timer == x.timer { assert x in q; }
      }
      if At(a, x.timer).Rearms() && s == Armed(a, x.timer, now) {
        assert s in p ==> s.timer != x.timer;
      }
    }
  }

  /** The timers whose callback ran, among the popped ones. */
  function Fired<T(==)>(p: seq<Slot<T>>, a: map<T, Attr>): (f: seq<T>) {
    if p == [] then []
    else Fired(p[..|p| - 1], a) +
         (if At(a, p[|p| - 1].timer).Fires() then [p[|p| - 1].timer] else [])
  }

  lemma FiredNone<T>(a: map<T, Attr>)
    ensures Fired([], a) == []
  {
  }

  lemma FiredNext<T>(p: seq<Slot<T>>, s: Slot<T>, a: map<T, Attr>)
    ensures Fired(p + [s], a) == Fired(p, a) + (if At(a, s.timer).Fires() then [s.timer] else [])
  {
    assert (p + [s])[..|p|] == p;
  }

  lemma FiredAppend<T>(p: seq<Slot<T>>, s: Slot<T>, a: map<T, Attr>)
    ensures Fired(p + [s], a) == Fired(p, a) + Fired([s], a)
  {
    FiredNext(p, s, a);
    FiredNext([], s, a);
    assert [] + [s] == [s];
  }

  lemma MoveHead<T>(p: seq<T>, x: T, q: seq<T>)
    ensures p + ([x] + q) == (p + [x]) + q
  {
  }

  ghost predicate Holds<T>(p: seq<Slot<T>>, t: T) {
    exists s :: s in p && s.timer == t
  }

  lemma {:induction false} FiredCount<T>(p: seq<Slot<T>>, a: map<T, Attr>, t: T)
    requires TimersDiffer(p)
    ensures multiset(Fired(p, a))[t] == if Holds(p, t) && At(a, t).Fires() then 1 else 0
  {
    if p != [] {
      var q, x := p[..|p| - 1], p[|p| - 1];
      FiredCount(q, a, t);
      assert p == q + [x];
      if x.timer == t {
        assert x in p;
        forall s | s in q ensures s.timer != t {
        }
        assert !Holds(q, t);
      } else {
        assert Holds(p, t) <==> Holds(q, t) by {
          assert forall s :: s in p <==> s in q || s == x;
        }
      }
    }
  }

  /** Exactly the due timers whose owner is ACTIVE and that have a callback run it,
      once each. */
  lemma FiresExactly<T>(h: seq<Slot<T>>, a: map<T, Attr>, now: nat, t: T)
    requires Ready(h) && NoZeroPeriod(h, a, now)
    ensures multiset(Fired(Fire(h, a, now).0, a))[t] ==
            if t in DueTimers(h, now) && At(a, t).Fires() then 1 else 0
  {
    PopsExactlyTheDue(h, a, now);
    var p := Fire(h, a, now).0;
    FiredCount(p, a, t);
    if t in DueTimers(h, now) {
      var s :| s in h && s.due <= now && s.timer == t;
      assert s in p;
    }
  }

  // ------------------------------------------------------------ termination

  /** The loop gets through n iterations and is not yet done. */
  predicate StillDue<T(==)>(h: seq<Slot<T>>, a: map<T, Attr>, now: nat, n: nat)
    decreases n
  {
    RootDue(h, now) && (n == 0 || StillDue(Step(h, a, now), a, now, n - 1))
  }

  ghost predicate Drains<T>(h: seq<Slot<T>>, a: map<T, Attr>, now: nat) {
    exists n: nat :: !StillDue(h, a, now, n)
  }

  ghost predicate Stuck<T>(s: Slot<T>, h: seq<Slot<T>>, a: map<T, Attr>, now: nat) {
    s in h && s.due <= now && At(a, s.timer).Rearms() && At(a, s.timer).interval == 0
  }

  lemma StuckAfterStep<T>(h: seq<Slot<T>>, a: map<T, Attr>, now: nat, s: Slot<T>) returns (s': Slot<T>)
    requires Distinct(multiset(h)) && RootDue(h, now) && Stuck(s, h, a, now)
    ensures Stuck(s', Step(h, a, now), a, now)
  {
    s' := if s == h[0] then Slot(s.timer, now) else s;
    StepMembers(h, a, now, s');
  }

  lemma OneMoreDue<T>(h: seq<Slot<T>>, a: map<T, Attr>, now: nat, n: nat)
    requires n > 0 && RootDue(h, now) && StillDue(Step(h, a, now), a, now, n - 1)
    ensures StillDue(h, a, now, n)
  {
  }

  lemma {:induction false} ZeroPeriodStays<T>(h: seq<Slot<T>>, a: map<T, Attr>, now: nat, n: nat, s: Slot<T>)
    requires Ready(h) && Stuck(s, h, a, now)
    ensures StillDue(h, a, now, n)
    decreases n
  {
    hide Step;
    RootFirst(h, s);
    if n > 0 {
      var g := Step(h, a, now);
      assert Ready(g) by {
        StepKeepsHeap(h, a, now);
        StepKeepsDistinct(h, a, now);
      }
      var s' := StuckAfterStep(h, a, now, s);
      ZeroPeriodStays(g, a, now, n - 1, s');
      OneMoreDue(h, a, now, n);
    }
  }

  lemma {:induction false} PositivePeriodsDrain<T>(h: seq<Slot<T>>, a: map<T, Attr>, now: nat)
    requires Ready(h) && NoZeroPeriod(h, a, now)
    ensures Drains(h, a, now)
    decreases DueTimers(h, now)
  {
    if RootDue(h, now) {
      DueShrinks(h, a, now);
      var g := Step(h, a, now);
      PositivePeriodsDrain(g, a, now);
      var m: nat :| !StillDue(g, a, now, m);
      assert !StillDue(h, a, now, m + 1);
    } else {
      assert !StillDue(h, a, now, 0);
    }
  }

  /** With the clock held still the loop ends if and only if no due, active, periodic
      timer has interval 0 (which nos_timer_start accepts). */
  lemma LoopEndsIff<T>(h: seq<Slot<T>>, a: map<T, Attr>, now: nat)
    requires Ready(h)
    ensures Drains(h, a, now) <==> NoZeroPeriod(h, a, now)
  {
    if NoZeroPeriod(h, a, now) {
      PositivePeriodsDrain(h, a, now);
    } else {
      var s :| s in h && s.due <= now && At(a, s.timer).Rearms() && At(a, s.timer).interval <= 0;
      forall n: nat ensures StillDue(h, a, now, n) {
        ZeroPeriodStays(h, a, now, n, s);
      }
    }
  }
}
