/** The KV engine as it runs: arrays of buckets and entries, a stack of free indices,
    chains walked by index. Every call is proved to do to the table what KvSpec.Apply
    does to the map it stands for, for any hash function. */
module KvTable {
  import opened Common
  import opened KvSpec
  import opened KvRep
  import opened KvLayout

  const MIN_BUCKETS: nat := 1024
  const MAX_CAPACITY: nat := 0x8000_0000

  function Copied(data: Bytes, value: Bytes): Bytes
    requires |value| <= |data|
  {
    value + data[|value|..]
  }

  /** The bucket count after k doublings. */
  function Doubled(k: nat): (n: nat)
    ensures n >= MIN_BUCKETS
  {
    if k == 0 then MIN_BUCKETS else 2 * Doubled(k - 1)
  }

  class Table {
    const name: string
    const hash: Hash
    const keySize: nat
    const maxValue: nat
    const buckets: array<nat>
    const pool: array<Entry>
    const freeStack: array<nat>
    var freeTop: int
    var usedCount: nat
    ghost var chains: seq<seq<nat>>
    ghost var index: map<Bytes, nat>

    ghost function R(): Rep
      requires -1 <= freeTop < freeStack.Length
      reads this, buckets, pool, freeStack
    {
      Rep(buckets[..], pool[..], freeStack[..freeTop + 1], chains, index)
    }

    ghost predicate Valid()
      reads this, buckets, pool, freeStack
    {
      && buckets != freeStack && freeStack.Length == pool.Length && -1 <= freeTop < freeStack.Length
      && Good(R(), hash, maxValue)
      && usedCount + freeTop + 1 == pool.Length
      && Fits(pool.Length, EntryBytes(keySize, maxValue))
    }

    /** The bounded map the table stands for. */
    ghost function Abs(): Store
      requires Valid()
      reads this, buckets, pool, freeStack
    {
      Store(View(R()), pool.Length, maxValue)
    }

    /** The entries are separate places of memory, as an array of them says. */
    lemma EntriesApart(i: nat, j: nat)
      requires Valid() && i < j < pool.Length
      ensures !Overlap(i, j, EntryBytes(keySize, maxValue))
    {
      FitsApart(pool.Length, EntryBytes(keySize, maxValue), i, j);
    }

    constructor (name: string, hash: Hash, bucketCount: nat, keySize: nat, maxValue: nat, capacity: nat)
      requires bucketCount > 0 && capacity <= MAX_CAPACITY
      ensures fresh(this) && fresh(buckets) && fresh(pool) && fresh(freeStack)
      ensures this.name == name && this.hash == hash && this.keySize == keySize && this.maxValue == maxValue
      ensures buckets.Length == bucketCount && pool.Length == capacity
      ensures Valid() <==> Fits(capacity, EntryBytes(keySize, maxValue))
      ensures Valid() ==> Abs() == Store(map[], capacity, maxValue)
    {
      this.name, this.hash, this.keySize, this.maxValue := name, hash, keySize, maxValue;
      buckets := new nat[bucketCount](_ => INVALID_IDX);
      var zeros: Bytes := seq(maxValue, _ => 0);
      pool := new Entry[capacity](_ => Entry(0, 0, [], [], zeros));
      freeStack := new nat[capacity](_ => 0);
      freeTop, usedCount := -1, 0;
      chains, index := seq(bucketCount, _ => []), map[];
      new;
      for i := 0 to capacity
        invariant freeTop == i - 1 && freeStack.Length == capacity && usedCount == 0
        invariant chains == seq(bucketCount, _ => []) && index == map[]
        invariant fresh(freeStack) && buckets != freeStack
        invariant forall b :: 0 <= b < buckets.Length ==> buckets[b] == INVALID_IDX
        invariant pool.Length == capacity && forall x :: 0 <= x < pool.Length ==> pool[x] == Entry(0, 0, [], [], zeros)
        invariant forall k :: 0 <= k < i ==> freeStack[k] == k
      {
        freeTop := freeTop + 1;
        freeStack[freeTop] := i;
      }
      NewGood(R(), hash, maxValue);
    }

    /** The entry count is the size of the map, and it never exceeds the capacity. */
    lemma CountIsSize()
      requires Valid()
      ensures usedCount == |Abs().recs| && usedCount + freeTop + 1 == pool.Length
    {
      assert View(R()).Keys == index.Keys;
      assert |View(R())| == |View(R()).Keys| && |index| == |index.Keys|;
    }

    /** The walk along a chain that every call starts with. */
    method Find(key: Bytes) returns (curr: nat, prev: nat, b: nat, ghost i: nat)
      requires Valid()
      ensures b < buckets.Length && b == Bucket(R(), hash, key)
      ensures curr == INVALID_IDX <==> key !in index
      ensures curr != INVALID_IDX ==>
                && index[key] == curr < pool.Length && b < |chains| && i < |chains[b]| && chains[b][i] == curr
                && prev == if i == 0 then INVALID_IDX else chains[b][i - 1]
    {
      b := hash(key) % buckets.Length;
      ghost var c := chains[b];
      ghost var r := R();
      i, prev, curr := 0, INVALID_IDX, buckets[b];
      FirstIs(r, b);
      hide *;
      while curr != INVALID_IDX
        invariant i <= |c| && curr == Link(c, i)
        invariant prev == if i == 0 then INVALID_IDX else c[i - 1]
        invariant forall j :: 0 <= j < i ==> c[j] < pool.Length && pool[c[j]].key != key
        decreases |c| - i
      {
        LinkInside(c, i);
        FoundIs(r, hash, maxValue, b, i, key);
        if pool[curr].key == key { return; }
        NextIs(r, hash, maxValue, b, i);
        prev := curr;
        curr := pool[curr].next;
        i := i + 1;
      }
      EndIs(r, hash, maxValue, b, i);
      if key in index {
        PresentIs(r, hash, maxValue, key);
        assert false;
      }
    }

    /** nos_kv_get into a buffer of room bytes. */
    method GetValue(key: Bytes, room: nat) returns (answer: Option<(Bytes, nat)>)
      requires Valid()
      ensures answer == Get(Abs(), key, room)
    {
      hide Good, View, Bucket, Shape;
      var curr, _, _, _ := Find(key);
      ReadIs(R(), hash, maxValue, key);
      if curr == INVALID_IDX { return None; }
      var e := pool[curr];
      var n := if room < e.valLen then room else e.valLen;
      assert e.data[..n] == e.data[..e.valLen][..n];
      answer := Some((e.data[..n], e.valLen));
    }

    /** Overwrites value or subscribers of the entry at place x, which holds key. */
    method SetLive(key: Bytes, x: nat, valLen: nat, data: Bytes, subs: seq<Sub>)
      requires Valid() && key in index && x == index[key] && |data| == maxValue && valLen <= maxValue
      modifies pool
      ensures Valid() && Abs() == old(Abs()).(recs := old(Abs()).recs[key := Rec(data[..valLen], subs)])
    {
      ghost var r := R();
      SetEntryGood(r, hash, maxValue, x, valLen, data, subs);
      pool[x] := pool[x].(valLen := valLen, data := data, subs := subs);
      assert R() == SetEntry(r, x, valLen, data, subs);
    }

    /** Takes a free place and puts it, filled, at the head of its chain. */
    method InsertNew(key: Bytes, b: nat, value: Bytes)
      requires Valid() && key !in index && freeTop >= 0 && b == Bucket(R(), hash, key) && |value| <= maxValue
      modifies this, buckets, pool
      ensures Valid() && Abs() == old(Abs()).(recs := old(Abs()).recs[key := Rec(value, [])])
    {
      hide Good, View, Bucket, Live, Shape;
      ghost var r := R();
      Sizes(r, hash, maxValue);
      var x := freeStack[freeTop];
      TopIsFree(r, hash, maxValue);
      var data := Copied(pool[x].data, value);
      InsertGood(r, hash, maxValue, b, key, |value|, data);
      freeTop := freeTop - 1;
      pool[x] := Entry(buckets[b], |value|, [], key, data);
      buckets[b] := x;
      usedCount := usedCount + 1;
      chains, index := chains[b := [x] + chains[b]], index[key := x];
      assert R().free == r.free[..|r.free| - 1];
      assert R().pool == r.pool[x := pool[x]] && R().first == r.first[b := x];
    }

    /** nos_kv_put. */
    method PutValue(key: Bytes, value: Bytes) returns (reply: Reply)
      requires Valid()
      modifies this, buckets, pool
      ensures Valid() && (Abs(), reply) == Apply(old(Abs()), Put(key, value))
    {
      if |value| > maxValue { return Reply(Err, []); }
      CountIsSize();
      var curr, _, b, _ := Find(key);
      if curr != INVALID_IDX {
        var e := pool[curr];
        SetLive(key, curr, |value|, Copied(e.data, value), e.subs);
        reply := Reply(Ok, NoticesTo(e.subs, key, value));
      } else if freeTop < 0 {
        reply := Reply(Busy, []);
      } else {
        InsertNew(key, b, value);
        reply := Reply(Ok, []);
      }
    }

    /** Cuts the entry out of its chain and gives its place back. */
    method Unlink(b: nat, curr: nat, prev: nat, ghost i: nat)
      requires Valid() && b < |chains| && i < |chains[b]| && chains[b][i] == curr < pool.Length
      requires prev == if i == 0 then INVALID_IDX else chains[b][i - 1]
      modifies this, buckets, pool, freeStack
      ensures Valid()
      ensures Abs() == old(Abs()).(recs := old(Abs()).recs - {old(pool[curr].key)})
    {
      hide Good, View, Shape;
      ghost var r, e := R(), pool[curr];
      Sizes(r, hash, maxValue);
      UnlinkRoom(r, hash, maxValue, b, i);
      RemoveGood(r, hash, maxValue, b, i);
      ghost var t := KvRep.RemoveAt(r, b, i);
      if prev == INVALID_IDX { buckets[b] := pool[curr].next; }
      else { pool[prev] := pool[prev].(next := pool[curr].next); }
      assert buckets[..] == t.first;
      pool[curr] := pool[curr].(subs := []);
      assert pool[..] == t.pool;
      freeTop := freeTop + 1;
      freeStack[freeTop] := curr;
      usedCount := usedCount - 1;
      chains, index := chains[b := Cut(chains[b], i)], index - {e.key};
      assert R().free == t.free;
      assert R() == t;
    }

    /** nos_kv_del. */
    method Delete(key: Bytes) returns (reply: Reply)
      requires Valid()
      modifies this, buckets, pool, freeStack
      ensures Valid() && (Abs(), reply) == Apply(old(Abs()), Del(key))
    {
      var curr, prev, b, i := Find(key);
      if curr == INVALID_IDX { return Reply(Err, []); }
      Unlink(b, curr, prev, i);
      reply := Reply(Ok, []);
    }

    /** nos_kv_subscribe: the scan for a duplicate, then the new node in front. */
    method AddSubscriber(key: Bytes, sub: Sub) returns (reply: Reply)
      requires Valid()
      modifies pool
      ensures Valid() && (Abs(), reply) == Apply(old(Abs()), Subscribe(key, sub))
    {
      hide Good, View, Bucket, Shape;
      var curr, _, _, _ := Find(key);
      ReadIs(R(), hash, maxValue, key);
      if curr == INVALID_IDX { return Reply(Err, []); }
      Sizes(R(), hash, maxValue);
      var e := pool[curr];
      var n := Scan(e.subs, sub);
      if n == |e.subs| {
        SetLive(key, curr, e.valLen, e.data, [sub] + e.subs);
      }
      reply := Reply(Ok, []);
    }

    /** nos_kv_unsubscribe: the scan, then the node unlinked. */
    method DropSubscriber(key: Bytes, sub: Sub) returns (reply: Reply)
      requires Valid()
      modifies pool
      ensures Valid() && (Abs(), reply) == Apply(old(Abs()), Unsubscribe(key, sub))
    {
      hide Good, View, Bucket, Shape;
      var curr, _, _, _ := Find(key);
      ReadIs(R(), hash, maxValue, key);
      if curr == INVALID_IDX { return Reply(Err, []); }
      Sizes(R(), hash, maxValue);
      var e := pool[curr];
      var n := Scan(e.subs, sub);
      if n == |e.subs| { return Reply(Err, []); }
      WithoutAt(e.subs, sub, n);
      SetLive(key, curr, e.valLen, e.data, e.subs[..n] + e.subs[n + 1..]);
      reply := Reply(Ok, []);
    }
  }

  /** The walk along a subscriber list: the first place that holds sub. */
  method Scan(subs: seq<Sub>, sub: Sub) returns (n: nat)
    ensures n <= |subs| && sub !in subs[..n] && (n < |subs| ==> subs[n] == sub)
  {
    n := 0;
    while n < |subs| && subs[n] != sub
      invariant n <= |subs| && sub !in subs[..n]
    {
      n := n + 1;
    }
  }

  /** 21 doublings reach the largest capacity without leaving 32 bits. */
  lemma {:induction false} DoublingFits(k: nat)
    requires k <= 21
    ensures MIN_BUCKETS <= Doubled(k) <= MAX_CAPACITY && (k == 21 ==> Doubled(k) == MAX_CAPACITY)
    decreases 21 - k
  {
    if k == 21 {
      assert Doubled(7) == 0x2_0000;
      assert Doubled(14) == 0x100_0000;
    } else {
      DoublingFits(k + 1);
      assert Doubled(k + 1) == 2 * Doubled(k);
    }
  }

  /** The bucket count nos_kv_table_create settles on: the least doubling of 1024 that
      the capacity does not exceed. */
  method BucketCount(capacity: nat) returns (n: nat, ghost k: nat)
    requires capacity <= MAX_CAPACITY
    ensures n == Doubled(k) && MIN_BUCKETS <= n <= MAX_CAPACITY && capacity <= n
    ensures k > 0 ==> Doubled(k - 1) < capacity
  {
    n, k := MIN_BUCKETS, 0;
    DoublingFits(k);
    while n < capacity
      invariant n == Doubled(k) && k <= 21 && MIN_BUCKETS <= n <= MAX_CAPACITY
      invariant k > 0 ==> Doubled(k - 1) < capacity
      decreases 21 - k
    {
      DoublingFits(k);
      if k < 21 { DoublingFits(k + 1); }
      n, k := n * 2 % 0x1_0000_0000, k + 1;
    }
  }

  lemma FirstIs(r: Rep, b: nat)
    requires |r.first| > 0 && |r.chains| == |r.first| && b < |r.chains| && Linked(r, b)
    ensures r.first[b] == Link(r.chains[b], 0)
  {
  }

  lemma LinkInside(c: seq<nat>, i: nat)
    requires Link(c, i) != INVALID_IDX
    ensures i < |c| && Link(c, i) == c[i]
  {
  }

  lemma NextIs(r: Rep, hash: Hash, maxValue: nat, b: nat, i: nat)
    requires Good(r, hash, maxValue) && b < |r.chains| && i < |r.chains[b]|
    ensures r.chains[b][i] < |r.pool| && r.pool[r.chains[b][i]].next == Link(r.chains[b], i + 1)
  {
    assert Linked(r, b);
  }

  /** A walk that meets INVALID_IDX is at the end of the chain. */
  lemma EndIs(r: Rep, hash: Hash, maxValue: nat, b: nat, i: nat)
    requires Good(r, hash, maxValue) && b < |r.chains| && i <= |r.chains[b]|
    requires Link(r.chains[b], i) == INVALID_IDX
    ensures i == |r.chains[b]|
  {
    assert Linked(r, b);
  }
}
