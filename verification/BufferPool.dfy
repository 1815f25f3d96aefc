/** The buffer pool: bins of equal chunks, each with a stack of free indices, and the
    reference count and headroom geometry of every buffer. */
module BufferPool {
  import opened Common

  const MAX_BINS: nat := 8
  const CACHE_LINE_SIZE: nat := 64

  /** A buffer is named by its bin and its index in the bin. */
  datatype BufId = BufId(bin: nat, idx: nat)

  /** nos_buffer_t. The data pointer is kept as its distance from raw_data; the count is
      what retain and release move. */
  datatype Buf = Buf(capacity: nat, data: nat, headroom: nat, len: nat, tailroom: nat, refCnt: nat) {
    /** The three regions fill the chunk and data sits right behind the headroom. */
    predicate Geometry() {
      data == headroom && headroom + len + tailroom == capacity
    }

    predicate Reset() {
      headroom == 0 && len == 0 && tailroom == capacity && data == 0
    }
  }

  function FreshBuf(chunk: nat): Buf {
    Buf(chunk, 0, 0, 0, chunk, 0)
  }

  /** nos_buffer_push and nos_buffer_pull on the buffer header. */
  function Pushed(b: Buf, size: nat): Option<Buf> {
    if b.headroom < size || b.data < size then None
    else Some(b.(headroom := b.headroom - size, data := b.data - size, len := b.len + size))
  }

  function Pulled(b: Buf, size: nat): Option<Buf> {
    if b.len < size then None
    else Some(b.(headroom := b.headroom + size, data := b.data + size, len := b.len - size))
  }

  /** Encapsulating and decapsulating undo each other, succeed exactly when there is
      room, and keep the geometry. */
  lemma PushPullRoundTrip(b: Buf, size: nat)
    requires b.Geometry()
    ensures Pushed(b, size).Some? <==> size <= b.headroom
    ensures Pulled(b, size).Some? <==> size <= b.len
    ensures Pushed(b, size).Some? ==>
              Pushed(b, size).value.Geometry() && Pulled(Pushed(b, size).value, size) == Some(b)
    ensures Pulled(b, size).Some? ==>
              Pulled(b, size).value.Geometry() && Pushed(Pulled(b, size).value, size) == Some(b)
  {
  }

  /** (size + 63) & ~63. */
  function RoundUp(size: nat): (r: nat)
    ensures size <= r < size + CACHE_LINE_SIZE && r % CACHE_LINE_SIZE == 0
  {
    (size + CACHE_LINE_SIZE - 1) / CACHE_LINE_SIZE * CACHE_LINE_SIZE
  }

  // ------------------------------------------------------------- pigeonhole

  ghost predicate AllDifferent(s: seq<nat>) {
    forall i, j :: 0 <= i < j < |s| ==> s[i] != s[j]
  }

  function Below(n: nat): (r: set<nat>)
    ensures |r| == n
    ensures forall i: nat :: i in r <==> i < n
  {
    if n == 0 then {} else Below(n - 1) + {n - 1}
  }

  lemma {:induction false} DifferentFit(s: seq<nat>, room: set<nat>)
    requires AllDifferent(s) && forall i :: 0 <= i < |s| ==> s[i] in room
    ensures |s| <= |room|
  {
    if s != [] {
      var x := s[|s| - 1];
      DifferentFit(s[..|s| - 1], room - {x});
    }
  }

  /** A stack of different indices below n that misses x has room for x. */
  lemma RoomForOne(s: seq<nat>, n: nat, x: nat)
    requires AllDifferent(s) && (forall i :: 0 <= i < |s| ==> s[i] < n) && x < n && x !in s
    ensures |s| < n
  {
    DifferentFit(s, Below(n) - {x});
    assert |Below(n) - {x}| == n - 1;
  }

  // -------------------------------------------------------------------- bin

  class Bin {
    const chunkSize: nat
    const buffers: array<Buf>
    const freeStack: array<nat>
    var freeTop: int
    var usedCount: nat
    var peakCount: nat
    ghost var leaving: set<nat>

    ghost function FreeList(): (s: seq<nat>)
      requires -1 <= freeTop < freeStack.Length
      reads this, freeStack
    {
      freeStack[..freeTop + 1]
    }

    /** An index whose count is zero is on the free stack, once, or its last release is
        between its two sections; a free buffer is reset; every buffer has its geometry. */
    ghost predicate Valid()
      reads this, buffers, freeStack
    {
      && freeStack.Length == buffers.Length
      && -1 <= freeTop < freeStack.Length
      && AllDifferent(FreeList())
      && (forall i :: 0 <= i < |FreeList()| ==> FreeList()[i] < buffers.Length)
      && (forall j :: j in leaving ==> j < buffers.Length && j !in FreeList())
      && (forall j: nat :: j < buffers.Length ==> (j in FreeList() || j in leaving <==> buffers[j].refCnt == 0))
      && (forall j: nat :: j < buffers.Length ==>
            buffers[j].Geometry() && buffers[j].capacity == chunkSize && (j in FreeList() ==> buffers[j].Reset()))
      && usedCount + freeTop + 1 == buffers.Length
      && usedCount <= peakCount <= buffers.Length
    }

    ghost function Repr(): set<object>
    {
      {this, buffers, freeStack}
    }

    constructor (chunk: nat, count: nat)
      ensures Valid() && fresh(Repr())
      ensures chunkSize == chunk && buffers.Length == count && usedCount == 0 && leaving == {}
      ensures forall k: nat :: k < count ==> buffers[k] == FreshBuf(chunk)
    {
      chunkSize := chunk;
      buffers := new Buf[count](_ => FreshBuf(chunk));
      freeStack := new nat[count](_ => 0);
      freeTop, usedCount, peakCount := -1, 0, 0;
      leaving := {};
      new;
      for j := 0 to count
        invariant freeTop == j - 1 && forall k :: 0 <= k < j ==> freeStack[k] == k
        invariant freeStack.Length == buffers.Length == count && usedCount == 0 && peakCount == 0 && leaving == {}
        invariant forall k: nat :: k < count ==> buffers[k] == FreshBuf(chunk)
      {
        freeTop := freeTop + 1;
        freeStack[freeTop] := j;
      }
      forall k: nat | k < count ensures k in FreeList() {
        assert FreeList()[k] == k;
      }
    }

    /** The pop of nos_buffer_alloc once this bin was chosen. */
    method Take(size: nat, headroom: nat) returns (idx: nat)
      requires Valid() && freeTop >= 0 && size + headroom <= chunkSize
      modifies this, buffers
      ensures Valid() && leaving == old(leaving)
      ensures idx < buffers.Length && old(buffers[idx].refCnt) == 0
      ensures buffers[idx] == Buf(chunkSize, headroom, headroom, size, chunkSize - headroom - size, 1)
      ensures forall j: nat :: j < buffers.Length && j != idx ==> buffers[j] == old(buffers[j])
      ensures freeTop == old(freeTop) - 1
    {
      ghost var before := FreeList();
      idx := freeStack[freeTop];
      freeTop := freeTop - 1;
      assert FreeList() == before[..|before| - 1];
      buffers[idx] := Buf(buffers[idx].capacity, headroom, headroom, size, buffers[idx].capacity - headroom - size, 1);
      usedCount := usedCount + 1;
      if usedCount > peakCount { peakCount := usedCount; }
    }

    method Retain(idx: nat)
      requires Valid() && idx < buffers.Length && buffers[idx].refCnt > 0
      modifies buffers
      ensures Valid()
      ensures buffers[idx] == old(buffers[idx]).(refCnt := old(buffers[idx].refCnt) + 1)
      ensures forall j: nat :: j < buffers.Length && j != idx ==> buffers[j] == old(buffers[j])
    {
      buffers[idx] := buffers[idx].(refCnt := buffers[idx].refCnt + 1);
    }

    /** The first section of a release, without the lock: the count goes down, and the one
        who takes it to zero goes on. Until then the buffer is neither in use nor free. */
    method Decrement(idx: nat) returns (last: bool)
      requires Valid() && idx < buffers.Length && buffers[idx].refCnt > 0
      modifies this`leaving, buffers
      ensures Valid() && last == (old(buffers[idx].refCnt) == 1)
      ensures leaving == if last then old(leaving) + {idx} else old(leaving)
      ensures buffers[idx] == old(buffers[idx]).(refCnt := old(buffers[idx].refCnt) - 1)
      ensures forall j: nat :: j < buffers.Length && j != idx ==> buffers[j] == old(buffers[j])
    {
      last := buffers[idx].refCnt == 1;
      buffers[idx] := buffers[idx].(refCnt := buffers[idx].refCnt - 1);
      if last { leaving := leaving + {idx}; }
    }

    /** The second section, under the lock: the buffer is put back and reset. */
    method Return(idx: nat)
      requires Valid() && idx in leaving
      modifies this, buffers, freeStack
      ensures Valid() && leaving == old(leaving) - {idx}
      ensures freeTop == old(freeTop) + 1 && freeStack[freeTop] == idx && FreeList() == old(FreeList()) + [idx]
      ensures buffers[idx].refCnt == 0 && usedCount == old(usedCount) - 1
      ensures forall j: nat :: j < buffers.Length && j != idx ==> buffers[j] == old(buffers[j])
    {
      ghost var before := FreeList();
      RoomForOne(before, buffers.Length, idx);
      var b := buffers[idx];
      freeTop := freeTop + 1;
      freeStack[freeTop] := idx;
      assert FreeList() == before + [idx];
      usedCount := usedCount - 1;
      buffers[idx] := Buf(b.capacity, 0, 0, 0, b.capacity, 0);
      leaving := leaving - {idx};
    }

    /** Both, with nobody in between. */
    method Release(idx: nat)
      requires Valid() && idx < buffers.Length && buffers[idx].refCnt > 0
      modifies this, buffers, freeStack
      ensures Valid() && leaving == old(leaving)
      ensures buffers[idx].refCnt == old(buffers[idx].refCnt) - 1
      ensures buffers[idx].refCnt > 0 ==>
                buffers[idx] == old(buffers[idx]).(refCnt := old(buffers[idx].refCnt) - 1) && freeTop == old(freeTop)
      ensures buffers[idx].refCnt == 0 ==> freeTop == old(freeTop) + 1 && freeStack[freeTop] == idx
      ensures forall j: nat :: j < buffers.Length && j != idx ==> buffers[j] == old(buffers[j])
    {
      assert idx !in leaving;
      var last := Decrement(idx);
      if last { Return(idx); }
    }

    /** nos_buffer_push / nos_buffer_pull on a live buffer. */
    method PushHeader(idx: nat, size: nat) returns (ok: bool)
      requires Valid() && idx < buffers.Length && buffers[idx].refCnt > 0
      modifies buffers
      ensures Valid() && ok == old(Pushed(buffers[idx], size)).Some?
      ensures ok ==> buffers[..] == old(buffers[..])[idx := old(Pushed(buffers[idx], size)).value]
      ensures !ok ==> unchanged(buffers)
    {
      var b := buffers[idx];
      if b.headroom < size { return false; }
      buffers[idx] := b.(headroom := b.headroom - size, data := b.data - size, len := b.len + size);
      ok := true;
    }

    method PullHeader(idx: nat, size: nat) returns (ok: bool)
      requires Valid() && idx < buffers.Length && buffers[idx].refCnt > 0
      modifies buffers
      ensures Valid() && ok == old(Pulled(buffers[idx], size)).Some?
      ensures ok ==> buffers[..] == old(buffers[..])[idx := old(Pulled(buffers[idx], size)).value]
      ensures !ok ==> unchanged(buffers)
    {
      var b := buffers[idx];
      if b.len < size { return false; }
      buffers[idx] := b.(headroom := b.headroom + size, data := b.data + size, len := b.len - size);
      ok := true;
    }
  }
  // ------------------------------------------------------------------- pool

  /** g_bins: the bins of one node, tried in order. */
  class Pool {
    const bins: seq<Bin>

    ghost function Repr(): (r: set<object>)
      ensures forall b | b in bins :: b.Repr() <= r
      ensures forall i :: 0 <= i < |bins| ==> bins[i] in r && bins[i].buffers in r && bins[i].freeStack in r
    {
      var r := (set b | b in bins :: b as object) + (set b | b in bins :: b.buffers as object) +
               (set b | b in bins :: b.freeStack as object);
      assert forall b | b in bins :: b in r && b.buffers in r && b.freeStack in r;
      r
    }

    ghost predicate Valid()
      reads Repr()
    {
      && (forall i, j :: 0 <= i < j < |bins| ==> bins[i].Repr() !! bins[j].Repr())
      && (forall i :: 0 <= i < |bins| ==> bins[i].Valid())
    }

    ghost predicate Has(b: BufId) {
      b.bin < |bins| && b.idx < bins[b.bin].buffers.Length
    }

    ghost function BufOf(b: BufId): Buf
      requires Has(b)
      reads Repr()
    {
      bins[b.bin].buffers[b.idx]
    }

    ghost function RefOf(b: BufId): nat
      requires Has(b)
      reads Repr()
    {
      BufOf(b).refCnt
    }

    ghost predicate IsFree(b: BufId)
      requires Valid() && Has(b)
      reads Repr()
    {
      b.idx in bins[b.bin].FreeList()
    }

    /** No release is between its two sections. */
    ghost predicate Settled()
      reads Repr()
    {
      forall i :: 0 <= i < |bins| ==> bins[i].leaving == {}
    }

    /** A buffer sits on its bin's free stack exactly when its count is zero, but for last
        releases that are under way. */
    lemma FreeIffUnreferenced(b: BufId)
      requires Valid() && Has(b)
      ensures IsFree(b) <==> RefOf(b) == 0 && b.idx !in bins[b.bin].leaving
    {
      assert bins[b.bin].Valid();
    }

    constructor (bins: seq<Bin>)
      requires forall i, j :: 0 <= i < j < |bins| ==> bins[i].Repr() !! bins[j].Repr()
      requires forall i :: 0 <= i < |bins| ==> bins[i].Valid()
      ensures this.bins == bins && Valid()
    {
      this.bins := bins;
    }

    /** Bin i could serve the request. */
    ghost predicate Serves(i: nat, size: nat, headroom: nat)
      requires i < |bins|
      reads bins[i]
    {
      bins[i].chunkSize >= size + headroom && bins[i].freeTop >= 0
    }

    /** The first bin from i on that could serve the request, or their number. */
    ghost function FirstFit(i: nat, size: nat, headroom: nat): (r: nat)
      requires i <= |bins|
      reads bins
      ensures i <= r <= |bins| && (r < |bins| ==> Serves(r, size, headroom))
      decreases |bins| - i
    {
      if i == |bins| || Serves(i, size, headroom) then i else FirstFit(i + 1, size, headroom)
    }

    lemma {:induction false} FirstFitIsFirst(i: nat, size: nat, headroom: nat)
      requires i <= |bins|
      ensures forall k: nat | i <= k < FirstFit(i, size, headroom) :: !Serves(k, size, headroom)
      decreases |bins| - i
    {
      if i < |bins| && !Serves(i, size, headroom) {
        FirstFitIsFirst(i + 1, size, headroom);
      }
    }

    /** The scan over the bins. */
    method Choose(size: nat, headroom: nat) returns (i: nat)
      ensures i == FirstFit(0, size, headroom)
    {
      i := 0;
      while i < |bins| && !(bins[i].chunkSize >= size + headroom && bins[i].freeTop >= 0)
        invariant i <= |bins| && FirstFit(i, size, headroom) == FirstFit(0, size, headroom)
      {
        i := i + 1;
      }
    }

    /** nos_buffer_alloc: the first bin that is large enough and has a free buffer, if
        there is one. */
    method Alloc(size: nat, headroom: nat) returns (r: Option<BufId>)
      requires Valid()
      modifies Repr()
      ensures Valid()
      ensures var i := old(FirstFit(0, size, headroom));
              if i == |bins| then r == None && unchanged(Repr())
              else
                && r.Some? && r.value.bin == i && Has(r.value) && old(RefOf(r.value)) == 0
                && BufOf(r.value) == Buf(bins[i].chunkSize, headroom, headroom, size,
                                         bins[i].chunkSize - headroom - size, 1)
      ensures forall b: BufId :: Has(b) && r != Some(b) ==> BufOf(b) == old(BufOf(b))
      ensures old(Settled()) ==> Settled()
    {
      hide FirstFit, Valid, Settled;
      var i := Choose(size, headroom);
      if i == |bins| { return None; }
      var b := TakeFrom(i, size, headroom);
      r := Some(b);
    }

    /** What an allocation means for the counts. */
    method AllocOne(size: nat, headroom: nat) returns (r: Option<BufId>)
      requires Valid()
      modifies Repr()
      ensures Valid() && (old(Settled()) ==> Settled())
      ensures r.None? ==> unchanged(Repr())
      ensures r.Some? ==> Has(r.value) && old(RefOf(r.value)) == 0 && RefOf(r.value) == 1
      ensures forall b: BufId :: Has(b) && r != Some(b) ==> RefOf(b) == old(RefOf(b))
    {
      hide Valid, Settled, FirstFit;
      r := Alloc(size, headroom);
    }

    method TakeFrom(i: nat, size: nat, headroom: nat) returns (b: BufId)
      requires Valid() && i < |bins| && Serves(i, size, headroom)
      modifies Repr()
      ensures Valid() && (old(Settled()) ==> Settled())
      ensures b.bin == i && Has(b) && old(RefOf(b)) == 0
      ensures BufOf(b) == Buf(bins[i].chunkSize, headroom, headroom, size, bins[i].chunkSize - headroom - size, 1)
      ensures forall c: BufId :: Has(c) && c != b ==> BufOf(c) == old(BufOf(c))
    {
      assert bins[i].Valid();
      var idx := bins[i].Take(size, headroom);
      OthersValid(i);
      b := BufId(i, idx);
    }

    /** What happens in one bin leaves the others as they were. */
    twostate lemma OthersValid(i: nat)
      requires i < |bins| && old(Valid()) && bins[i].Valid()
      requires unchanged(Repr() - bins[i].Repr())
      ensures Valid() && (bins[i].leaving == old(bins[i].leaving) ==> old(Settled()) ==> Settled())
      ensures forall b: BufId :: Has(b) && b.bin != i ==> BufOf(b) == old(BufOf(b))
    {
      forall j | 0 <= j < |bins| && j != i ensures bins[j].Valid() && unchanged(bins[j].Repr()) {
        assert bins[j].Repr() !! bins[i].Repr();
        assert bins[j].Repr() <= Repr() - bins[i].Repr();
      }
    }

    method Retain(b: BufId)
      requires Valid() && Has(b) && RefOf(b) > 0
      modifies Repr()
      ensures Valid() && (old(Settled()) ==> Settled())
      ensures BufOf(b) == old(BufOf(b)).(refCnt := old(RefOf(b)) + 1)
      ensures forall c: BufId :: Has(c) && c != b ==> BufOf(c) == old(BufOf(c))
    {
      assert bins[b.bin].Valid();
      bins[b.bin].Retain(b.idx);
      OthersValid(b.bin);
    }

    method Release(b: BufId)
      requires Valid() && Has(b) && RefOf(b) > 0
      modifies Repr()
      ensures Valid() && (old(Settled()) ==> Settled())
      ensures RefOf(b) == old(RefOf(b)) - 1
      ensures RefOf(b) > 0 ==> BufOf(b) == old(BufOf(b)).(refCnt := old(RefOf(b)) - 1)
      ensures forall c: BufId :: Has(c) && c != b ==> BufOf(c) == old(BufOf(c))
    {
      assert bins[b.bin].Valid();
      bins[b.bin].Release(b.idx);
      OthersValid(b.bin);
    }
  }

  /** The pool is valid, no release is under way, and its counts are the multiplicities of
      c. */
  ghost predicate Counts(pool: Pool, c: multiset<BufId>)
    reads pool.Repr()
  {
    && pool.Valid() && pool.Settled()
    && (forall b: BufId :: pool.Has(b) ==> pool.RefOf(b) == c[b])
    && (forall b: BufId :: b in c ==> pool.Has(b))
  }

  method CountedAlloc(pool: Pool, size: nat, headroom: nat, ghost c: multiset<BufId>) returns (r: Option<BufId>)
    requires Counts(pool, c)
    modifies pool.Repr()
    ensures r.None? ==> Counts(pool, c)
    ensures r.Some? ==> pool.Has(r.value) && r.value !in c && Counts(pool, c + multiset{r.value})
    ensures r.None? ==> unchanged(pool.Repr())
  {
    hide Bin.Valid, Pool.Valid, Pool.Settled;
    r := pool.AllocOne(size, headroom);
  }

  method CountedRetain(pool: Pool, b: BufId, ghost c: multiset<BufId>)
    requires Counts(pool, c) && b in c
    modifies pool.Repr()
    ensures Counts(pool, c + multiset{b})
  {
    hide Bin.Valid, Pool.Valid, Pool.Settled;
    pool.Retain(b);
  }

  method CountedRelease(pool: Pool, b: BufId, ghost c: multiset<BufId>)
    requires Counts(pool, c) && b in c
    modifies pool.Repr()
    ensures Counts(pool, c - multiset{b})
  {
    hide Bin.Valid, Pool.Valid, Pool.Settled;
    pool.Release(b);
    assert forall x: BufId :: x in c - multiset{b} ==> x in c;
  }

  /** A new bin for one configuration entry (size, count). */
  ghost predicate Made(bin: Bin, entry: (nat, nat))
    reads bin.Repr()
  {
    && bin.Valid() && bin.leaving == {} && bin.chunkSize == RoundUp(entry.0) && bin.buffers.Length == entry.1
    && forall x: nat :: x < bin.buffers.Length ==> bin.buffers[x].refCnt == 0
  }

  /** One bin per configured size, up to the first size 0 and at most MAX_BINS, every
      buffer free. */
  ghost predicate Configured(pool: Pool, config: seq<(nat, nat)>)
    reads pool.Repr()
  {
    && pool.Valid() && |pool.bins| <= |config| && |pool.bins| <= MAX_BINS
    && (|pool.bins| < |config| && |pool.bins| < MAX_BINS ==> config[|pool.bins|].0 == 0)
    && (forall i :: 0 <= i < |pool.bins| ==> Made(pool.bins[i], config[i]))
  }

  /** nos_buffer_init_pool: a pool that has bins is kept as it is. */
  method InitPool(current: Pool, config: seq<(nat, nat)>) returns (pool: Pool)
    ensures |current.bins| > 0 ==> pool == current
    ensures |current.bins| == 0 ==> fresh(pool) && fresh(pool.Repr()) && Configured(pool, config)
  {
    if |current.bins| > 0 { return current; }
    pool := MakeBins(config);
  }

  method MakeBins(config: seq<(nat, nat)>) returns (pool: Pool)
    ensures fresh(pool) && fresh(pool.Repr()) && Configured(pool, config)
  {
    hide RoundUp, Bin.Valid;
    var bins: seq<Bin> := [];
    var i := 0;
    while i < |config| && i < MAX_BINS && config[i].0 > 0
      invariant 0 <= i == |bins| <= |config| && i <= MAX_BINS
      invariant forall k :: 0 <= k < i ==> Made(bins[k], config[k])
      invariant forall k :: 0 <= k < i ==> fresh(bins[k].Repr())
      invariant forall j, k :: 0 <= j < k < i ==> bins[j].Repr() !! bins[k].Repr()
    {
      var bin := new Bin(RoundUp(config[i].0), config[i].1);
      assert Made(bin, config[i]);
      bins := bins + [bin];
      i := i + 1;
    }
    pool := new Pool(bins);
  }

  /** A pool of new bins is the empty count. */
  lemma NewPoolCountsNothing(pool: Pool, config: seq<(nat, nat)>)
    requires Configured(pool, config)
    ensures Counts(pool, multiset{})
  {
    forall b: BufId | pool.Has(b) ensures pool.RefOf(b) == 0 {
      assert Made(pool.bins[b.bin], config[b.bin]);
    }
  }
}
