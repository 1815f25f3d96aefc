/** The representation of a KV table as one value: buckets, pool entries linked by index
    and the stack of free indices, with the chains and the key index they stand for. The
    in-place methods of KvTable are proved against the functions here. */
module KvRep {
  import opened KvSpec

  const INVALID_IDX: nat := 0xFFFF_FFFF

  /** nos_kv_entry_t with its data split into key and value bytes. */
  datatype Entry = Entry(next: nat, valLen: nat, subs: seq<Sub>, key: Bytes, data: Bytes)

  datatype Rep = Rep(
    first: seq<nat>, pool: seq<Entry>, free: seq<nat>,
    chains: seq<seq<nat>>, index: map<Bytes, nat>)

  type Hash = Bytes -> nat

  function Bucket(r: Rep, hash: Hash, k: Bytes): (b: nat)
    requires |r.first| > 0
    ensures b < |r.first|
  {
    hash(k) % |r.first|
  }

  ghost predicate AllDifferent(s: seq<nat>) {
    forall i, j :: 0 <= i < j < |s| ==> s[i] != s[j]
  }

  /** Pool slot x holds a live key. */
  ghost predicate Live(r: Rep, x: nat) {
    x < |r.pool| && r.pool[x].key in r.index && r.index[r.pool[x].key] == x
  }

  /** Sizes; the index names pool slots by the key they hold, so keys are unique. */
  ghost predicate Shape(r: Rep) {
    && |r.first| > 0 && |r.chains| == |r.first| && |r.pool| <= INVALID_IDX
    && (forall k :: k in r.index ==> r.index[k] < |r.pool| && r.pool[r.index[k]].key == k)
    && |r.index| + |r.free| == |r.pool|
  }

  /** The free stack holds, once each, exactly the slots that hold no live key. */
  ghost predicate FreeOk(r: Rep) {
    AllDifferent(r.free) && forall x: nat :: x in r.free <==> x < |r.pool| && !Live(r, x)
  }

  /** A chain holds, once each, exactly the live slots of its bucket. */
  ghost predicate ChainOk(r: Rep, hash: Hash, b: nat)
    requires |r.first| > 0 && b < |r.chains|
  {
    && AllDifferent(r.chains[b])
    && forall x: nat :: x in r.chains[b] <==> Live(r, x) && Bucket(r, hash, r.pool[x].key) == b
  }

  /** What next_idx or first_idx leads to from place i of a chain. */
  function Link(c: seq<nat>, i: nat): nat {
    if i < |c| then c[i] else INVALID_IDX
  }

  predicate InPool(r: Rep, b: nat)
    requires b < |r.chains|
  {
    forall i :: 0 <= i < |r.chains[b]| ==> r.chains[b][i] < |r.pool|
  }

  ghost predicate Linked(r: Rep, b: nat)
    requires |r.first| > 0 && |r.chains| == |r.first| && b < |r.chains|
  {
    && InPool(r, b)
    && r.first[b] == Link(r.chains[b], 0)
    && (forall i: nat :: i < |r.chains[b]| ==> r.pool[r.chains[b][i]].next == Link(r.chains[b], i + 1))
  }

  ghost predicate ValuesOk(r: Rep, maxValue: nat) {
    forall x: nat :: x < |r.pool| ==> |r.pool[x].data| == maxValue && r.pool[x].valLen <= maxValue
  }

  /** Everything that holds between calls. */
  ghost predicate Good(r: Rep, hash: Hash, maxValue: nat) {
    && Shape(r) && FreeOk(r) && ValuesOk(r, maxValue)
    && (forall b: nat :: b < |r.chains| ==> ChainOk(r, hash, b) && Linked(r, b))
  }

  function RecOf(e: Entry): Rec {
    Rec(if e.valLen <= |e.data| then e.data[..e.valLen] else e.data, e.subs)
  }

  /** The map the table stands for. */
  function View(r: Rep): map<Bytes, Rec>
    requires Shape(r)
  {
    map k | k in r.index :: RecOf(r.pool[r.index[k]])
  }

  lemma ViewAt(r: Rep)
    requires Shape(r)
    ensures View(r).Keys == r.index.Keys
    ensures forall k :: k in r.index ==> r.index[k] < |r.pool| && View(r)[k] == RecOf(r.pool[r.index[k]])
  {
    hide RecOf;
  }

  lemma Overwrites<K, V>(v: map<K, V>, w: map<K, V>, k: K, rec: V)
    requires w.Keys == v.Keys + {k} && w[k] == rec
    requires forall j :: j in v.Keys && j != k ==> w[j] == v[j]
    ensures w == v[k := rec]
  {
  }

  /** Two representations that differ in the entry of one key. */
  lemma ViewChange(r: Rep, t: Rep, k: Bytes, x: nat, rec: Rec)
    requires Shape(r) && Shape(t) && x < |t.pool| && t.index == r.index[k := x] && RecOf(t.pool[x]) == rec
    requires forall j :: j in r.index && j != k ==>
               r.index[j] < |t.pool| && RecOf(t.pool[r.index[j]]) == RecOf(r.pool[r.index[j]])
    ensures View(t) == View(r)[k := rec]
  {
    hide RecOf, View, Shape;
    ViewAt(r);
    ViewAt(t);
    Overwrites(View(r), View(t), k, rec);
  }

  lemma Sizes(r: Rep, hash: Hash, maxValue: nat)
    requires Good(r, hash, maxValue)
    ensures Shape(r) && |r.first| > 0 && |r.chains| == |r.first| && |r.pool| <= INVALID_IDX
    ensures forall x :: 0 <= x < |r.pool| ==> |r.pool[x].data| == maxValue && r.pool[x].valLen <= maxValue
  {
  }

  /** Place i of chain b holds pool slot x. */
  ghost predicate OnChain(r: Rep, b: nat, i: nat, x: nat) {
    b < |r.chains| && i < |r.chains[b]| && r.chains[b][i] == x
  }

  /** Every pool slot is on the free stack, or else at exactly one place of exactly one
      chain, which is that of the bucket of its key. */
  lemma PoolIsPartitioned(r: Rep, hash: Hash, maxValue: nat, x: nat)
    requires Good(r, hash, maxValue) && x < |r.pool|
    ensures x in r.free <==> !exists b: nat, i: nat :: OnChain(r, b, i, x)
    ensures forall b: nat, i: nat :: OnChain(r, b, i, x) ==> b == Bucket(r, hash, r.pool[x].key)
    ensures forall b: nat, i: nat, j: nat :: OnChain(r, b, i, x) && OnChain(r, b, j, x) ==> i == j
  {
    forall b: nat, i: nat | OnChain(r, b, i, x) ensures Live(r, x) && b == Bucket(r, hash, r.pool[x].key) {
      assert ChainOk(r, hash, b) && r.chains[b][i] in r.chains[b];
    }
    var own := Bucket(r, hash, r.pool[x].key);
    assert ChainOk(r, hash, own);
    if Live(r, x) {
      var i: nat :| i < |r.chains[own]| && r.chains[own][i] == x;
      assert OnChain(r, own, i, x);
    }
    OncePerChain(r, hash, maxValue, x);
  }

  lemma OncePerChain(r: Rep, hash: Hash, maxValue: nat, x: nat)
    requires Good(r, hash, maxValue)
    ensures forall b: nat, i: nat, j: nat :: OnChain(r, b, i, x) && OnChain(r, b, j, x) ==> i == j
  {
    forall b: nat, i: nat, j: nat | OnChain(r, b, i, x) && OnChain(r, b, j, x) ensures i == j {
      assert ChainOk(r, hash, b);
    }
  }

  /** A new table: all chains empty, all indices on the stack in order. */
  lemma NewGood(r: Rep, hash: Hash, maxValue: nat)
    requires |r.first| > 0 && |r.chains| == |r.first| && |r.pool| <= INVALID_IDX && r.index == map[]
    requires forall b :: 0 <= b < |r.first| ==> r.first[b] == INVALID_IDX && r.chains[b] == []
    requires |r.free| == |r.pool| && forall i :: 0 <= i < |r.free| ==> r.free[i] == i
    requires ValuesOk(r, maxValue)
    ensures Good(r, hash, maxValue) && View(r) == map[]
  {
    forall x: nat | x < |r.pool| ensures x in r.free {
      assert r.free[x] == x;
    }
  }

  // ---------------------------------------------------------------- lookup

  /** Pool slot x is the entry of key k. */
  lemma FoundIs(r: Rep, hash: Hash, maxValue: nat, b: nat, i: nat, k: Bytes)
    requires Good(r, hash, maxValue) && b < |r.chains| && i < |r.chains[b]|
    ensures var x := r.chains[b][i];
            x < |r.pool| && (r.pool[x].key == k ==> k in r.index && r.index[k] == x)
  {
    assert ChainOk(r, hash, b);
    assert r.chains[b][i] in r.chains[b];
  }

  /** A key of the table is on its chain. */
  lemma PresentIs(r: Rep, hash: Hash, maxValue: nat, k: Bytes)
    requires Good(r, hash, maxValue) && k in r.index
    ensures r.index[k] in r.chains[Bucket(r, hash, k)] && r.index[k] < |r.pool| && r.pool[r.index[k]].key == k
  {
    assert Live(r, r.index[k]);
    assert ChainOk(r, hash, Bucket(r, hash, k));
  }

  /** Reading through the index reads the map. */
  lemma ReadIs(r: Rep, hash: Hash, maxValue: nat, k: Bytes)
    requires Good(r, hash, maxValue)
    ensures k in View(r) <==> k in r.index
    ensures k in r.index ==>
              var x := r.index[k];
              x < |r.pool| && r.pool[x].valLen <= |r.pool[x].data| &&
              View(r)[k] == Rec(r.pool[x].data[..r.pool[x].valLen], r.pool[x].subs)
  {
  }

  // ---------------------------------------------------------------- update

  /** Overwriting value or subscribers of a live entry. */
  function SetEntry(r: Rep, x: nat, valLen: nat, data: Bytes, subs: seq<Sub>): Rep
    requires x < |r.pool|
  {
    r.(pool := r.pool[x := r.pool[x].(valLen := valLen, data := data, subs := subs)])
  }

  lemma SetEntryGood(r: Rep, hash: Hash, maxValue: nat, x: nat, valLen: nat, data: Bytes, subs: seq<Sub>)
    requires Good(r, hash, maxValue) && Live(r, x) && |data| == maxValue && valLen <= maxValue
    ensures var t := SetEntry(r, x, valLen, data, subs);
            && Good(t, hash, maxValue)
            && View(t) == View(r)[r.pool[x].key := Rec(data[..valLen], subs)]
  {
    var t := SetEntry(r, x, valLen, data, subs);
    var k := r.pool[x].key;
    assert r.index[k := x] == r.index;
    ViewChange(r, t, k, x, Rec(data[..valLen], subs));
    hide View;
    assert forall y: nat :: Live(t, y) <==> Live(r, y);
    forall b: nat | b < |t.chains| ensures ChainOk(t, hash, b) && Linked(t, b) {
      assert ChainOk(r, hash, b) && Linked(r, b);
    }
  }

  // ---------------------------------------------------------------- insert

  /** Pop a free slot, fill it, and put it at the head of its chain. */
  function InsertAt(r: Rep, b: nat, k: Bytes, valLen: nat, data: Bytes): Rep
    requires b < |r.first| && |r.chains| == |r.first| && r.free != [] && r.free[|r.free| - 1] < |r.pool|
  {
    var x := r.free[|r.free| - 1];
    Rep(r.first[b := x],
        r.pool[x := Entry(r.first[b], valLen, [], k, data)],
        r.free[..|r.free| - 1],
        r.chains[b := [x] + r.chains[b]],
        r.index[k := x])
  }

  ghost predicate CanInsert(r: Rep, hash: Hash, maxValue: nat, b: nat, k: Bytes, valLen: nat, data: Bytes) {
    && Good(r, hash, maxValue) && k !in r.index && r.free != []
    && b == Bucket(r, hash, k) && |data| == maxValue && valLen <= maxValue
  }

  lemma TopIsFree(r: Rep, hash: Hash, maxValue: nat)
    requires Good(r, hash, maxValue) && r.free != []
    ensures var x := r.free[|r.free| - 1]; x < |r.pool| && !Live(r, x)
  {
    assert r.free[|r.free| - 1] in r.free;
  }

  lemma InsertLive(r: Rep, hash: Hash, maxValue: nat, b: nat, k: Bytes, valLen: nat, data: Bytes)
    requires CanInsert(r, hash, maxValue, b, k, valLen, data) && r.free[|r.free| - 1] < |r.pool|
    ensures var t, x := InsertAt(r, b, k, valLen, data), r.free[|r.free| - 1];
            && Shape(t)
            && (forall y: nat :: Live(t, y) <==> Live(r, y) || y == x)
            && (forall y: nat :: Live(r, y) ==> t.pool[y] == r.pool[y])
  {
    hide Good;
    TopIsFree(r, hash, maxValue);
    Sizes(r, hash, maxValue);
    InsertShape(r, b, k, valLen, data);
    var x := r.free[|r.free| - 1];
    forall j | j in r.index ensures r.index[j] != x {
      assert Live(r, r.index[j]);
    }
  }

  lemma InsertShape(r: Rep, b: nat, k: Bytes, valLen: nat, data: Bytes)
    requires Shape(r) && b < |r.first| && r.free != [] && r.free[|r.free| - 1] < |r.pool|
    requires k !in r.index && !Live(r, r.free[|r.free| - 1])
    ensures Shape(InsertAt(r, b, k, valLen, data))
  {
    var t, x := InsertAt(r, b, k, valLen, data), r.free[|r.free| - 1];
    assert t.index.Keys == r.index.Keys + {k};
    forall j | j in r.index ensures r.index[j] != x {
      assert Live(r, r.index[j]);
    }
  }

  lemma InsertFree(r: Rep, hash: Hash, maxValue: nat, b: nat, k: Bytes, valLen: nat, data: Bytes)
    requires CanInsert(r, hash, maxValue, b, k, valLen, data) && r.free[|r.free| - 1] < |r.pool|
    ensures FreeOk(InsertAt(r, b, k, valLen, data)) && ValuesOk(InsertAt(r, b, k, valLen, data), maxValue)
  {
    InsertLive(r, hash, maxValue, b, k, valLen, data);
    var t, x := InsertAt(r, b, k, valLen, data), r.free[|r.free| - 1];
    assert r.free == t.free + [x];
    assert forall y: nat :: y in r.free <==> y in t.free || y == x;
    assert x !in t.free;
  }

  /** Chain c knows a new live slot exactly if it is the chain the slot joined. */
  lemma InsertChain(r: Rep, hash: Hash, b: nat, k: Bytes, valLen: nat, data: Bytes, c: nat)
    requires |r.first| > 0 && |r.chains| == |r.first| && b == Bucket(r, hash, k) && c < |r.chains|
    requires r.free != [] && r.free[|r.free| - 1] < |r.pool| && !Live(r, r.free[|r.free| - 1])
    requires ChainOk(r, hash, c)
    requires var t, x := InsertAt(r, b, k, valLen, data), r.free[|r.free| - 1];
             && (forall y: nat :: Live(t, y) <==> Live(r, y) || y == x)
             && (forall y: nat :: Live(r, y) ==> t.pool[y] == r.pool[y])
    ensures ChainOk(InsertAt(r, b, k, valLen, data), hash, c)
  {
    hide Live;
    var t, x := InsertAt(r, b, k, valLen, data), r.free[|r.free| - 1];
    assert x !in r.chains[c];
    if c == b {
      assert t.chains[c] == [x] + r.chains[c];
      assert forall y: nat :: y in t.chains[c] <==> y == x || y in r.chains[c];
    }
  }

  lemma InsertLinks(r: Rep, b: nat, k: Bytes, valLen: nat, data: Bytes, c: nat)
    requires |r.first| > 0 && |r.chains| == |r.first| && b < |r.chains| && c < |r.chains|
    requires r.free != [] && r.free[|r.free| - 1] < |r.pool| && r.free[|r.free| - 1] !in r.chains[c]
    requires Linked(r, c)
    ensures Linked(InsertAt(r, b, k, valLen, data), c)
  {
    var t, x := InsertAt(r, b, k, valLen, data), r.free[|r.free| - 1];
    assert forall i :: 0 <= i < |r.chains[c]| ==> r.chains[c][i] in r.chains[c];
    if c == b {
      assert t.chains[c] == [x] + r.chains[c];
    }
  }

  lemma InsertView(r: Rep, b: nat, k: Bytes, valLen: nat, data: Bytes)
    requires Shape(r) && b < |r.first| && r.free != [] && r.free[|r.free| - 1] < |r.pool|
    requires !Live(r, r.free[|r.free| - 1]) && k !in r.index && valLen <= |data|
    requires Shape(InsertAt(r, b, k, valLen, data))
    ensures View(InsertAt(r, b, k, valLen, data)) == View(r)[k := Rec(data[..valLen], [])]
  {
    var t, x := InsertAt(r, b, k, valLen, data), r.free[|r.free| - 1];
    forall j | j in r.index ensures j in t.index && t.pool[t.index[j]] == r.pool[r.index[j]] {
      assert Live(r, r.index[j]);
    }
    ViewChange(r, t, k, x, Rec(data[..valLen], []));
  }

  lemma InsertGood(r: Rep, hash: Hash, maxValue: nat, b: nat, k: Bytes, valLen: nat, data: Bytes)
    requires CanInsert(r, hash, maxValue, b, k, valLen, data)
    ensures r.free[|r.free| - 1] < |r.pool|
    ensures var t := InsertAt(r, b, k, valLen, data);
            && Good(t, hash, maxValue)
            && View(t) == View(r)[k := Rec(data[..valLen], [])]
  {
    TopIsFree(r, hash, maxValue);
    hide Live, ChainOk, Linked, FreeOk, View, Bucket;
    InsertLive(r, hash, maxValue, b, k, valLen, data);
    InsertView(r, b, k, valLen, data);
    InsertFree(r, hash, maxValue, b, k, valLen, data);
    var t, x := InsertAt(r, b, k, valLen, data), r.free[|r.free| - 1];
    forall c: nat | c < |t.chains| ensures ChainOk(t, hash, c) && Linked(t, c) {
      assert ChainOk(r, hash, c) && Linked(r, c);
      InsertChain(r, hash, b, k, valLen, data, c);
      NotOnChain(r, hash, c, x);
      InsertLinks(r, b, k, valLen, data, c);
    }
  }

  lemma NotOnChain(r: Rep, hash: Hash, c: nat, x: nat)
    requires |r.first| > 0 && c < |r.chains| && ChainOk(r, hash, c) && !Live(r, x)
    ensures x !in r.chains[c]
  {
  }

  // ---------------------------------------------------------------- remove

  function Cut(c: seq<nat>, i: nat): seq<nat>
    requires i < |c|
  {
    c[..i] + c[i + 1..]
  }

  /** Unlink place i of chain b, push its slot back and forget its key. */
  function RemoveAt(r: Rep, b: nat, i: nat): Rep
    requires |r.chains| == |r.first| && b < |r.chains| && i < |r.chains[b]|
    requires InPool(r, b)
  {
    var c := r.chains[b];
    var x := c[i];
    var e := r.pool[x];
    var first := if i == 0 then r.first[b := e.next] else r.first;
    var pool := if i == 0 then r.pool else r.pool[c[i - 1] := r.pool[c[i - 1]].(next := e.next)];
    Rep(first, pool[x := pool[x].(subs := [])], r.free + [x], r.chains[b := Cut(c, i)], r.index - {e.key})
  }

  ghost predicate CanRemove(r: Rep, hash: Hash, maxValue: nat, b: nat, i: nat) {
    Good(r, hash, maxValue) && b < |r.chains| && i < |r.chains[b]|
  }

  /** Room to take an entry back, and the places the unlink writes to. */
  lemma UnlinkRoom(r: Rep, hash: Hash, maxValue: nat, b: nat, i: nat)
    requires CanRemove(r, hash, maxValue, b, i)
    ensures |r.free| < |r.pool| <= INVALID_IDX && InPool(r, b)
  {
    PlaceIsLive(r, hash, maxValue, b, i);
    assert r.index != map[];
  }

  lemma PlaceIsLive(r: Rep, hash: Hash, maxValue: nat, b: nat, i: nat)
    requires CanRemove(r, hash, maxValue, b, i)
    ensures InPool(r, b)
    ensures Live(r, r.chains[b][i]) && Bucket(r, hash, r.pool[r.chains[b][i]].key) == b
  {
    assert ChainOk(r, hash, b) && Linked(r, b);
    assert r.chains[b][i] in r.chains[b];
  }

  lemma RemoveLive(r: Rep, hash: Hash, maxValue: nat, b: nat, i: nat)
    requires CanRemove(r, hash, maxValue, b, i) && InPool(r, b)
    ensures var t, x := RemoveAt(r, b, i), r.chains[b][i];
            && Shape(t) && ValuesOk(t, maxValue)
            && (forall y: nat :: Live(t, y) <==> Live(r, y) && y != x)
            && (forall y: nat :: y < |r.pool| ==> t.pool[y].key == r.pool[y].key)
            && (forall y: nat :: y < |r.pool| && y != x ==> RecOf(t.pool[y]) == RecOf(r.pool[y]))
  {
    PlaceIsLive(r, hash, maxValue, b, i);
    var t, x := RemoveAt(r, b, i), r.chains[b][i];
    assert t.index.Keys == r.index.Keys - {r.pool[x].key};
    assert i > 0 ==> r.chains[b][i - 1] in r.chains[b];
  }

  lemma RemoveFree(r: Rep, hash: Hash, maxValue: nat, b: nat, i: nat)
    requires CanRemove(r, hash, maxValue, b, i) && InPool(r, b)
    ensures FreeOk(RemoveAt(r, b, i))
  {
    hide Live, Shape, Linked, ChainOk, ValuesOk, RecOf, Cut;
    PlaceIsLive(r, hash, maxValue, b, i);
    RemoveLive(r, hash, maxValue, b, i);
    var t, x := RemoveAt(r, b, i), r.chains[b][i];
    assert x !in r.free;
    assert forall y: nat :: y in t.free <==> y in r.free || y == x;
  }

  lemma CutMembers(c: seq<nat>, i: nat)
    requires AllDifferent(c) && i < |c|
    ensures AllDifferent(Cut(c, i))
    ensures forall y :: y in Cut(c, i) <==> y in c && y != c[i]
    ensures forall j: nat :: j < i ==> Link(Cut(c, i), j) == Link(c, j)
    ensures forall j: nat :: j >= i ==> Link(Cut(c, i), j) == Link(c, j + 1)
  {
    var d := Cut(c, i);
    forall y ensures y in d <==> y in c && y != c[i] {
      if y in c && y != c[i] {
        var j :| 0 <= j < |c| && c[j] == y;
        assert d[if j < i then j else j - 1] == y;
      }
    }
  }

  lemma RemoveChain(r: Rep, hash: Hash, maxValue: nat, b: nat, i: nat, d: nat)
    requires CanRemove(r, hash, maxValue, b, i) && InPool(r, b) && d < |r.chains|
    ensures ChainOk(RemoveAt(r, b, i), hash, d)
  {
    PlaceIsLive(r, hash, maxValue, b, i);
    RemoveLive(r, hash, maxValue, b, i);
    assert ChainOk(r, hash, b) && ChainOk(r, hash, d);
    CutMembers(r.chains[b], i);
  }

  /** The links of the chain itself after the unlink: the predecessor, or the bucket,
      skips the removed slot. */
  lemma RemoveOwnLinks(r: Rep, b: nat, i: nat)
    requires |r.first| > 0 && |r.chains| == |r.first| && b < |r.chains| && i < |r.chains[b]|
    requires Linked(r, b) && AllDifferent(r.chains[b])
    ensures Linked(RemoveAt(r, b, i), b)
  {
    var t, c := RemoveAt(r, b, i), r.chains[b];
    CutMembers(c, i);
    forall j: nat | j < |t.chains[b]|
      ensures t.chains[b][j] < |t.pool| && t.pool[t.chains[b][j]].next == Link(t.chains[b], j + 1)
    {
      RemoveOwnLink(r, b, i, if j < i then j else j + 1);
    }
  }

  /** The link out of place q of the chain, q not the removed place. */
  lemma RemoveOwnLink(r: Rep, b: nat, i: nat, q: nat)
    requires |r.first| > 0 && |r.chains| == |r.first| && b < |r.chains| && i < |r.chains[b]|
    requires Linked(r, b) && AllDifferent(r.chains[b]) && q < |r.chains[b]| && q != i
    ensures RemoveAt(r, b, i).pool[r.chains[b][q]].next ==
              if q + 1 == i then Link(r.chains[b], i + 1) else Link(r.chains[b], q + 1)
  {
    hide Cut, Link;
    var c := r.chains[b];
    assert c[q] != c[i];
    if i > 0 && q != i - 1 { assert c[q] != c[i - 1]; }
  }

  lemma RemoveOtherLinks(r: Rep, b: nat, i: nat, d: nat)
    requires |r.first| > 0 && |r.chains| == |r.first| && b < |r.chains| && i < |r.chains[b]| && InPool(r, b)
    requires d < |r.chains| && d != b && Linked(r, d)
    requires forall y :: y in r.chains[d] ==> y !in r.chains[b]
    ensures Linked(RemoveAt(r, b, i), d)
  {
    var t, c := RemoveAt(r, b, i), r.chains[b];
    hide Cut;
    forall j: nat | j < |r.chains[d]|
      ensures r.chains[d][j] < |t.pool| && t.pool[r.chains[d][j]].next == r.pool[r.chains[d][j]].next
    {
      var y := r.chains[d][j];
      assert y in r.chains[d];
      assert i > 0 ==> c[i - 1] in c;
      assert c[i] in c;
    }
  }

  lemma RemoveLinks(r: Rep, hash: Hash, maxValue: nat, b: nat, i: nat, d: nat)
    requires CanRemove(r, hash, maxValue, b, i) && InPool(r, b) && d < |r.chains|
    ensures Linked(RemoveAt(r, b, i), d)
  {
    assert ChainOk(r, hash, b) && ChainOk(r, hash, d) && Linked(r, b) && Linked(r, d);
    hide Linked, Live;
    if d == b { RemoveOwnLinks(r, b, i); } else { RemoveOtherLinks(r, b, i, d); }
  }

  lemma RemoveView(r: Rep, hash: Hash, maxValue: nat, b: nat, i: nat)
    requires CanRemove(r, hash, maxValue, b, i) && InPool(r, b)
    ensures var t, k := RemoveAt(r, b, i), r.pool[r.chains[b][i]].key;
            Shape(t) && k in r.index && View(t) == View(r) - {k}
  {
    PlaceIsLive(r, hash, maxValue, b, i);
    RemoveLive(r, hash, maxValue, b, i);
    var t, x := RemoveAt(r, b, i), r.chains[b][i];
    assert forall k :: k in r.index ==> Live(r, r.index[k]);
    forall k | k in t.index ensures View(t)[k] == View(r)[k] {
      assert r.index[k] != x;
    }
    hide Good;
  }

  lemma RemoveGood(r: Rep, hash: Hash, maxValue: nat, b: nat, i: nat)
    requires CanRemove(r, hash, maxValue, b, i)
    ensures InPool(r, b)
    ensures var t, k := RemoveAt(r, b, i), r.pool[r.chains[b][i]].key;
            Good(t, hash, maxValue) && k in r.index && View(t) == View(r) - {k}
  {
    PlaceIsLive(r, hash, maxValue, b, i);
    hide Live, ChainOk, Linked, FreeOk, View;
    RemoveLive(r, hash, maxValue, b, i);
    RemoveFree(r, hash, maxValue, b, i);
    RemoveView(r, hash, maxValue, b, i);
    var t := RemoveAt(r, b, i);
    forall d: nat | d < |t.chains| ensures ChainOk(t, hash, d) && Linked(t, d) {
      RemoveChain(r, hash, maxValue, b, i, d);
      RemoveLinks(r, hash, maxValue, b, i, d);
    }
  }
}
