/** A run of the node in which an unload leaves a freed timer in a heap. */
module NodeDangling {
  import opened Common
  import opened RingQueue
  import opened NodeTimers
  import opened NodeSpec
  import opened NodeInv
  import opened NodeRuns
  import opened NodeTheorems

  const T: nat := 9
  const P: Ptr := 1

  function Component(s: CompStatus): Comp {
    Comp(1, "a", s, 0)
  }

  /** A node with one thread, an empty manifest and component P on it. */
  function With(s: CompStatus, timers: Timers, booting: bool): Node {
    Node(Life(map[P := Component(s)], 1, []), Registry(seq(MAX_SERVICES, _ => Entry(0, 0, 0, false)), 0),
         [[P]], timers, [[]], [Info(P, 0)], booting)
  }

  function Without(stops: seq<nat>, timers: Timers, booting: bool): Node {
    Node(Life(map[], |stops|, stops), Registry(seq(MAX_SERVICES, _ => Entry(0, 0, 0, false)), 0),
         [[]], timers, [[]], [], booting)
  }

  const NoTimer: Timers := Timers(map[], [multiset{}], false)
  const Once: Timers := Timers(map[T := Timer(P, Some(0), true)], [multiset{T}], false)
  const Twice: Timers := Timers(map[T := Timer(P, Some(0), true)], [multiset{T, T}], true)
  const Left: Timers := Timers(map[], [multiset{T}], true)

  lemma DoOne(n: Node, p: Ptr, a: Act)
    requires Threads(n)
    ensures DoAll(n, p, [a]) == Do(n, p, a)
  {
    assert [a][..0] == [];
    assert DoAll(n, p, []) == n;
    hide Do;
  }

  lemma DoTwo(n: Node, p: Ptr, a: Act, b: Act)
    requires Threads(n)
    ensures DoAll(n, p, [a, b]) == Do(Do(n, p, a), p, b)
  {
    assert [a, b][..1] == [a];
    DoOne(n, p, a);
    hide Do;
  }

  lemma Placed()
    ensures Place(Without([], NoTimer, true), 0, 1, "a", Staged(P, [], [])) == With(Inited, NoTimer, true)
  {
    hide Do;
    var n := Without([], NoTimer, true);
    var s := n.(life := Create(n.life, P, 1, "a"));
    assert DoAll(s, P, []) == s;
    assert s.slots[0] + [P] == [P];
  }

  /** The component starts its timer. */
  lemma Started()
    ensures Next(With(Inited, NoTimer, false), [], Starting(P, true, [New(T), Arm(T)])) == With(Active, Once, false)
  {
    var n := With(Inited, NoTimer, false);
    DoTwo(n, P, New(T), Arm(T));
    var made := n.(timers := Timers(map[T := Cleared], [multiset{}], false));
    assert Do(n, P, New(T)) == made;
    assert ThreadFrom(made.slots, P, 0) == 0;
    assert made.timers.heaps[0] + multiset{T} == multiset{T};
    assert NodeTimers.Started(made.timers, P, 0, T) == Once;
    assert Do(made, P, Arm(T)) == n.(timers := Once);
    hide DoAll, Do;
  }

  /** Its callback starts it again, and the firing loop puts it in a second time. */
  lemma Doubled()
    ensures Next(With(Active, Once, false), [], Firing(0, T, true, [Arm(T)])) == With(Active, Twice, false)
  {
    var n := With(Active, Once, false);
    var a := n.(timers := Timers(map[T := Timer(P, Some(0), false)], [multiset{}], false));
    assert n.timers.heaps[0] - multiset{T} == multiset{};
    assert n.(timers := Popped(n.timers, 0, T)) == a;
    assert ActiveOwner(a, T);
    DoOne(a, P, Arm(T));
    assert ThreadFrom(a.slots, P, 0) == 0;
    var b := n.(timers := Once);
    assert a.timers.heaps[0] + multiset{T} == multiset{T};
    assert NodeTimers.Started(a.timers, P, 0, T) == Once;
    assert Do(a, P, Arm(T)) == b;
    assert Once.heaps[0] + multiset{T} == multiset{T, T};
    assert ActiveOwner(b, T) && Rearmed(b.timers, 0, T) == Twice;
    hide DoAll, Do;
  }

  /** The component off its list. */
  function Off(life: Life, timers: Timers): Node {
    With(Active, timers, false).(slots := [[]], life := life)
  }

  /** The unload cancels one slot; the stop callback finds the timer not running and frees
      it. */
  lemma Emptied()
    ensures var n := Off(With(Active, Twice, false).life, Twice);
            StopInstance(n, [], Info(P, 0), false, [Delete(T)]) == Off(Stop(n.life, P), Left)
  {
    var n := Off(With(Active, Twice, false).life, Twice);
    var quiet := n.(life := Stop(n.life, P), timers := Cancelled(n.timers, 0, P));
    assert quiet.timers == Timers(map[T := Cleared], [multiset{T}], true) by {
      assert OwnedIn(n.timers, 0, P) == {T};
      assert Twice.heaps[0] - multiset({T}) == multiset{T};
    }
    DoOne(quiet, P, Delete(T));
    assert Do(quiet, P, Delete(T)) == Off(Stop(n.life, P), Left);
    hide DoAll, Do, Keep, Targets, Stop;
  }

  lemma Unloaded()
    ensures Sound(With(Active, Twice, false))
    ensures Unload(With(Active, Twice, false), [], "a", false, [Delete(T)]).1 == Without([0], Left, false)
  {
    var n := With(Active, Twice, false);
    assert NamedFrom(n, "a", 0) == 0;
    assert IndexFrom([P], P, 0) == 0 && TakeOff([P], P) == Some([]);
    hide DoAll, Do, StopInstance, NamedFrom, TakeOff;
    UnloadUnfolds(n, [], "a", false, [Delete(T)]);
    assert Detached(n, [], 0, []) == Off(n.life, Twice);
    Emptied();
    var c := Off(Stop(n.life, P), Left);
    var d := Destroy(c, P, [Delete(T)]);
    assert d == c.(life := Free(c.life, P)) && d.life == Life(map[], 1, [0]);
  }

  /** A periodic timer whose callback starts it again, and an unload whose stop callback
      deletes it: the component is gone, the timer is freed, and the heap of the thread
      still points to it. */
  lemma RestartDangles(r: seq<Node>, ops: seq<Op>)
    requires r == [Without([], NoTimer, true), With(Inited, NoTimer, true), With(Inited, NoTimer, false),
                   With(Active, Once, false), With(Active, Twice, false), Without([0], Left, false)]
    requires ops == [Placing(0, 1, "a", Staged(P, [], [])), Booted, Starting(P, true, [New(T), Arm(T)]),
                     Firing(0, T, true, [Arm(T)]), Unloading("a", false, [Delete(T)])]
    ensures Run(r, ops, []) && ManifestOk([]) && !NeverDoubles(r, ops, [])
    ensures var n := r[|r| - 1]; T in n.timers.heaps[0] && T !in n.timers.recs && P !in n.life.mem && n.loaded == []
  {
    Placed();
    Started();
    Doubled();
    Unloaded();
    hide Place, DoAll, Fire, Unload;
    assert Run(r, ops, []);
    RestartedIff(r, ops, []);
  }
}
