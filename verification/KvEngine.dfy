/** The registry of KV tables: tables are created once per name and found again by it. */
module KvEngine {
  import opened Common
  import opened KvSpec
  import opened KvRep
  import opened KvTable
  import opened KvLayout

  const MAX_TABLES: nat := 32
  const NAME_ROOM: nat := 31

  /** What the name field of a table keeps of its name. */
  function Stored(name: string): (r: string) {
    if |name| > NAME_ROOM then name[..NAME_ROOM] else name
  }

  /** The place of the first table whose stored name is name, or the number of tables. */
  function Place(names: seq<string>, name: string): (i: nat)
    ensures i <= |names| && name !in names[..i] && (i < |names| ==> names[i] == name)
  {
    if names == [] then 0
    else if names[0] == name then 0
    else
      var i := Place(names[1..], name);
      assert names[..i + 1] == [names[0]] + names[1..][..i];
      i + 1
  }

  /** nos_kv_table_create on the stored names: the new registry and the handle. */
  function Created(names: seq<string>, name: string): (seq<string>, Option<nat>) {
    var i := Place(names, name);
    if i < |names| then (names, Some(i))
    else if |names| >= MAX_TABLES then (names, None)
    else (names + [Stored(name)], Some(i))
  }

  function CreatedAll(names: seq<string>, later: seq<string>): seq<string> {
    if later == [] then names
    else Created(CreatedAll(names, later[..|later| - 1]), later[|later| - 1]).0
  }

  ghost predicate NamesOk(names: seq<string>) {
    |names| <= MAX_TABLES && forall i :: 0 <= i < |names| ==> |names[i]| <= NAME_ROOM
  }

  lemma {:induction false} LaterOnesKeep(names: seq<string>, later: seq<string>)
    requires NamesOk(names)
    ensures names <= CreatedAll(names, later) && NamesOk(CreatedAll(names, later))
  {
    if later != [] { LaterOnesKeep(names, later[..|later| - 1]); }
  }

  /** Creating a table again, however many others were created in between, gives the same
      handle exactly when the name fits the name field: a longer one is cut off when
      stored and never found again. */
  lemma CreateAgainIff(names: seq<string>, name: string, later: seq<string>)
    requires NamesOk(names) && name !in names && |names| < MAX_TABLES
    ensures var (now, handle) := Created(names, name);
            && handle == Some(|names|)
            && (Created(CreatedAll(now, later), name).1 == handle <==> |name| <= NAME_ROOM)
  {
    var i := Place(names, name);
    assert i == |names|;
    var now := Created(names, name).0;
    LaterOnesKeep(now, later);
    var then_ := CreatedAll(now, later);
    assert now[i] == Stored(name) && then_[i] == now[i];
    if |name| <= NAME_ROOM {
      assert then_[..i] == names;
      PlaceIs(then_, name, i);
    }
  }

  class Engine {
    var tables: seq<Table>

    ghost function Names(): (r: seq<string>)
      reads this
    {
      NamesOf(tables)
    }

    constructor ()
      ensures Names() == []
    {
      tables := [];
    }

    /** nos_kv_table_create. Tables that exist are left alone; a new one is empty, and it is
        a table its entries do not spoil exactly if the last of them begins below 4 GiB. */
    method TableCreate(name: string, hash: Hash, keySize: nat, maxValue: nat, capacity: nat) returns (table: Table?)
      requires capacity <= MAX_CAPACITY
      modifies this
      ensures keySize == 0 || capacity == 0 ==> table == null && tables == old(tables)
      ensures keySize != 0 && capacity != 0 ==>
                && Names() == Created(old(Names()), name).0 && old(tables) <= tables
                && (table == null <==> Created(old(Names()), name).1 == None)
                && (table != null ==>
                      && |Names()| == |tables| && Created(old(Names()), name).1.value < |tables|
                      && table == tables[Created(old(Names()), name).1.value])
      ensures table != null && table !in old(tables) ==>
                && fresh(table) && table.hash == hash
                && (table.Valid() <==> Fits(capacity, EntryBytes(keySize, maxValue)))
                && (table.Valid() ==> table.Abs() == Store(map[], capacity, maxValue))
    {
      if keySize == 0 || capacity == 0 { return null; }
      NamesAt(tables);
      var i := 0;
      while i < |tables| && tables[i].name != name
        invariant 0 <= i <= |tables| && name !in Names()[..i]
      {
        i := i + 1;
      }
      PlaceIs(Names(), name, i);
      if i < |tables| { return tables[i]; }
      if |tables| >= MAX_TABLES { return null; }
      var n, _ := BucketCount(capacity);
      var fit := Stored(name);
      table := new Table(fit, hash, n, keySize, maxValue, capacity);
      ghost var before := tables;
      tables := tables + [table];
      NamesAt(tables);
      assert Names() == NamesOf(before) + [fit];
    }
  }

  function NamesOf(tables: seq<Table>): seq<string> {
    if tables == [] then [] else [tables[0].name] + NamesOf(tables[1..])
  }

  lemma {:induction false} NamesAt(tables: seq<Table>)
    ensures |NamesOf(tables)| == |tables|
    ensures forall i :: 0 <= i < |tables| ==> NamesOf(tables)[i] == tables[i].name
  {
    if tables != [] { NamesAt(tables[1..]); }
  }

  lemma PlaceIs(names: seq<string>, name: string, i: nat)
    requires i <= |names| && name !in names[..i] && (i < |names| ==> names[i] == name)
    ensures Place(names, name) == i
  {
    assert forall p, q :: 0 <= p < q <= |names| ==> names[p] in names[..q];
  }
}
