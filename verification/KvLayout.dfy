/** Where the entries of a KV table lie in its pool: get_entry multiplies an index by the
    entry size in 32 bits, the pool itself is allocated in full size. */
module KvLayout {

  const HEADER: nat := 16
  const TWO_32: nat := 0x1_0000_0000

  /** The bytes one entry takes. */
  function EntryBytes(keySize: nat, maxValue: nat): (n: nat)
    ensures n > 0
  {
    HEADER + keySize + maxValue
  }

  /** The offset get_entry computes for index i: entry_size is kept in 32 bits, and so is
      its product with the index. */
  function Offset(i: nat, bytes: nat): nat {
    i * (bytes % TWO_32) % TWO_32
  }

  /** Some byte belongs to both entries. */
  predicate Overlap(i: nat, j: nat, bytes: nat) {
    Offset(i, bytes) < Offset(j, bytes) + bytes && Offset(j, bytes) < Offset(i, bytes) + bytes
  }

  /** The condition under which a table works: the last entry begins below 4 GiB. */
  predicate Fits(capacity: nat, bytes: nat) {
    capacity > 0 ==> (capacity - 1) * bytes < TWO_32
  }

  lemma TimesGrows(a: nat, b: nat, bytes: nat)
    requires a <= b
    ensures a * bytes <= b * bytes
  {
  }

  lemma FitsApart(capacity: nat, bytes: nat, i: nat, j: nat)
    requires bytes > 0 && Fits(capacity, bytes) && i < j < capacity
    ensures Offset(i, bytes) == i * bytes && Offset(j, bytes) == j * bytes && !Overlap(i, j, bytes)
  {
    TimesGrows(1, capacity - 1, bytes);
    TimesGrows(j, capacity - 1, bytes);
    TimesGrows(i + 1, j, bytes);
    assert bytes % TWO_32 == bytes;
    assert (i + 1) * bytes == i * bytes + bytes;
  }

  /** The first entry that begins at 4 GiB or above comes to lie over entry 0. */
  lemma WrapsOnto0(capacity: nat, bytes: nat) returns (j: nat)
    requires bytes > 0 && !Fits(capacity, bytes)
    ensures 0 < j < capacity && Overlap(0, j, bytes)
  {
    if bytes >= TWO_32 {
      j := 1;
      assert Offset(1, bytes) == bytes % TWO_32 % TWO_32;
    } else {
      j := (TWO_32 + bytes - 1) / bytes;
      assert TWO_32 <= j * bytes < TWO_32 + bytes by { RoundUp(TWO_32, bytes); }
      assert (j - 1) * bytes == j * bytes - bytes;
      if j >= capacity {
        TimesGrows(capacity - 1, j - 1, bytes);
        assert false;
      }
      assert j * bytes % TWO_32 == j * bytes - TWO_32;
    }
  }

  lemma RoundUp(n: nat, d: nat)
    requires d > 0
    ensures n <= (n + d - 1) / d * d < n + d
  {
  }

  /** Different entries have no byte in common if and only if the last one begins below
      4 GiB. */
  lemma EntriesApartIff(capacity: nat, bytes: nat)
    requires bytes > 0
    ensures (forall i: nat, j: nat :: i < j < capacity ==> !Overlap(i, j, bytes)) <==> Fits(capacity, bytes)
  {
    if Fits(capacity, bytes) {
      forall i: nat, j: nat | i < j < capacity ensures !Overlap(i, j, bytes) { FitsApart(capacity, bytes, i, j); }
    } else {
      var j := WrapsOnto0(capacity, bytes);
    }
  }
}
