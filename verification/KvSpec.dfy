/** What the KV engine is for: a capacity-bounded map from keys to values, with a list of
    subscribers per key. Histories of calls give the reference meaning. */
module KvSpec {
  import opened Common

  type Bytes = seq<bv8>

  /** A subscription: callback and argument. */
  datatype Sub = Sub(notify: nat, arg: nat)

  datatype Rec = Rec(value: Bytes, subs: seq<Sub>)

  datatype Store = Store(recs: map<Bytes, Rec>, capacity: nat, maxValue: nat)

  datatype Op =
    | Put(key: Bytes, value: Bytes)
    | Del(key: Bytes)
    | Subscribe(key: Bytes, sub: Sub)
    | Unsubscribe(key: Bytes, sub: Sub)

  /** What a callback is handed. */
  datatype Notice = Notice(sub: Sub, key: Bytes, value: Bytes)

  /** What a call answers: its status, and for an update the notices it gives. */
  datatype Reply = Reply(status: Status, notices: seq<Notice>)

  /** One notice for each subscriber, in the order of the list. */
  function NoticesTo(subs: seq<Sub>, key: Bytes, value: Bytes): (r: seq<Notice>)
    ensures |r| == |subs| && forall i :: 0 <= i < |subs| ==> r[i] == Notice(subs[i], key, value)
  {
    seq(|subs|, i requires 0 <= i < |subs| => Notice(subs[i], key, value))
  }

  function Without(s: seq<Sub>, x: Sub): seq<Sub> {
    if s == [] then [] else if s[0] == x then s[1..] else [s[0]] + Without(s[1..], x)
  }

  function Apply(s: Store, op: Op): (r: (Store, Reply)) {
    match op
    case Put(k, v) =>
      if |v| > s.maxValue then (s, Reply(Err, []))
      else if k in s.recs then
        (s.(recs := s.recs[k := Rec(v, s.recs[k].subs)]), Reply(Ok, NoticesTo(s.recs[k].subs, k, v)))
      else if |s.recs| >= s.capacity then (s, Reply(Busy, []))
      else (s.(recs := s.recs[k := Rec(v, [])]), Reply(Ok, []))
    case Del(k) =>
      if k in s.recs then (s.(recs := s.recs - {k}), Reply(Ok, [])) else (s, Reply(Err, []))
    case Subscribe(k, x) =>
      if k !in s.recs then (s, Reply(Err, []))
      else if x in s.recs[k].subs then (s, Reply(Ok, []))
      else (s.(recs := s.recs[k := s.recs[k].(subs := [x] + s.recs[k].subs)]), Reply(Ok, []))
    case Unsubscribe(k, x) =>
      if k !in s.recs || x !in s.recs[k].subs then (s, Reply(Err, []))
      else (s.(recs := s.recs[k := s.recs[k].(subs := Without(s.recs[k].subs, x))]), Reply(Ok, []))
  }

  /** nos_kv_get into a buffer of buf bytes: the bytes copied and the full length. */
  function Get(s: Store, k: Bytes, room: nat): Option<(Bytes, nat)> {
    if k !in s.recs then None
    else
      var v := s.recs[k].value;
      Some((if room < |v| then v[..room] else v, |v|))
  }

  /** The store after a history of calls on a new table. */
  function After(ops: seq<Op>, capacity: nat, maxValue: nat): Store {
    if ops == [] then Store(map[], capacity, maxValue)
    else Apply(After(ops[..|ops| - 1], capacity, maxValue), ops[|ops| - 1]).0
  }

  /** What the n-th call of the history answered. */
  function Answer(ops: seq<Op>, n: nat, capacity: nat, maxValue: nat): Reply
    requires n < |ops|
  {
    Apply(After(ops[..n], capacity, maxValue), ops[n]).1
  }

  // --------------------------------------------------- reference by history

  predicate Sets(op: Op, k: Bytes) { op.Put? && op.key == k }
  predicate Clears(op: Op, k: Bytes) { op.Del? && op.key == k }

  /** The value of k according to the history: that of the last accepted put, unless an
      accepted delete came after it. */
  function LastPut(ops: seq<Op>, k: Bytes, capacity: nat, maxValue: nat): Option<Bytes> {
    if ops == [] then None
    else
      var n := |ops| - 1;
      if Answer(ops, n, capacity, maxValue).status != Ok then LastPut(ops[..n], k, capacity, maxValue)
      else if Sets(ops[n], k) then Some(ops[n].value)
      else if Clears(ops[n], k) then None
      else LastPut(ops[..n], k, capacity, maxValue)
  }

  function Lookup(s: Store, k: Bytes): Option<Bytes> {
    if k in s.recs then Some(s.recs[k].value) else None
  }

  /** One call, seen from key k. */
  lemma ApplyLookup(s: Store, op: Op, k: Bytes)
    ensures var (t, r) := Apply(s, op);
            && t.capacity == s.capacity && t.maxValue == s.maxValue
            && (|s.recs| <= s.capacity ==> |t.recs| <= s.capacity)
            && Lookup(t, k) == (if r.status != Ok then Lookup(s, k)
                                else if Sets(op, k) then Some(op.value)
                                else if Clears(op, k) then None
                                else Lookup(s, k))
  {
    var t := Apply(s, op).0;
    assert t.recs.Keys == s.recs.Keys || t.recs.Keys == s.recs.Keys + {op.key} || t.recs.Keys == s.recs.Keys - {op.key};
    assert |s.recs.Keys| == |s.recs| && |t.recs.Keys| == |t.recs|;
  }

  /** After any history the table holds exactly the last accepted puts, never more than
      its capacity. */
  lemma {:induction false} HoldsLastPuts(ops: seq<Op>, k: Bytes, capacity: nat, maxValue: nat)
    ensures Lookup(After(ops, capacity, maxValue), k) == LastPut(ops, k, capacity, maxValue)
    ensures |After(ops, capacity, maxValue).recs| <= capacity
    ensures After(ops, capacity, maxValue).capacity == capacity && After(ops, capacity, maxValue).maxValue == maxValue
  {
    hide Apply, Lookup;
    if ops == [] {
      assert Lookup(Store(map[], capacity, maxValue), k) == None by { EmptyLookup(k, capacity, maxValue); }
    } else {
      var n := |ops| - 1;
      HoldsLastPuts(ops[..n], k, capacity, maxValue);
      ApplyLookup(After(ops[..n], capacity, maxValue), ops[n], k);
    }
  }

  lemma EmptyLookup(k: Bytes, capacity: nat, maxValue: nat)
    ensures Lookup(Store(map[], capacity, maxValue), k) == None
  {
  }

  /** The keys of a history that were put and not deleted since. */
  function LiveKeys(ops: seq<Op>, capacity: nat, maxValue: nat): set<Bytes> {
    set op | op in ops && LastPut(ops, op.key, capacity, maxValue).Some? :: op.key
  }

  /** A key with a last put occurs in the history. */
  lemma {:induction false} LastPutOccurs(ops: seq<Op>, k: Bytes, capacity: nat, maxValue: nat)
    requires LastPut(ops, k, capacity, maxValue).Some?
    ensures exists op :: op in ops && op.key == k
  {
    var n := |ops| - 1;
    assert ops[n] in ops;
    hide Answer;
    if ops[n].key != k || !ops[n].Put? || Answer(ops, n, capacity, maxValue).status != Ok {
      LastPutOccurs(ops[..n], k, capacity, maxValue);
    }
  }

  lemma LiveKeysAre(ops: seq<Op>, capacity: nat, maxValue: nat)
    ensures LiveKeys(ops, capacity, maxValue) == After(ops, capacity, maxValue).recs.Keys
  {
    var s := After(ops, capacity, maxValue);
    forall k ensures k in LiveKeys(ops, capacity, maxValue) <==> k in s.recs {
      HoldsLastPuts(ops, k, capacity, maxValue);
      if k in s.recs { LastPutOccurs(ops, k, capacity, maxValue); }
    }
  }

  /** After any history, a call is answered Busy if and only if it puts a fitting value
      under a key that is not live while as many keys are live as there are entries. */
  lemma BusyIff(ops: seq<Op>, n: nat, capacity: nat, maxValue: nat)
    requires n < |ops|
    ensures Answer(ops, n, capacity, maxValue).status == Busy <==>
              && ops[n].Put? && |ops[n].value| <= maxValue
              && ops[n].key !in LiveKeys(ops[..n], capacity, maxValue)
              && |LiveKeys(ops[..n], capacity, maxValue)| == capacity
  {
    LiveKeysAre(ops[..n], capacity, maxValue);
    HoldsLastPuts(ops[..n], ops[n].key, capacity, maxValue);
    var s := After(ops[..n], capacity, maxValue);
    assert |s.recs.Keys| == |s.recs|;
  }

  // ----------------------------------------------------------- subscriptions

  predicate NoDuplicates(s: seq<Sub>) {
    forall i, j :: 0 <= i < j < |s| ==> s[i] != s[j]
  }

  /** When x became a subscriber of k for its current spell: the position after the call
      in the history, or 0 if x is not subscribed. A repeated subscribe does not count,
      an unsubscribe or a delete of k ends the spell. */
  function Since(ops: seq<Op>, k: Bytes, x: Sub, capacity: nat, maxValue: nat): nat {
    if ops == [] then 0
    else
      var n := |ops| - 1;
      var before := Since(ops[..n], k, x, capacity, maxValue);
      if Answer(ops, n, capacity, maxValue).status != Ok || ops[n].key != k then before
      else
        match ops[n]
        case Put(_, _) => before
        case Del(_) => 0
        case Subscribe(_, y) => if x == y && before == 0 then n + 1 else before
        case Unsubscribe(_, y) => if x == y then 0 else before
  }

  function SubsOf(s: Store, k: Bytes): seq<Sub> {
    if k in s.recs then s.recs[k].subs else []
  }

  /** Without takes out the first occurrence, wherever the scan finds it. */
  lemma {:induction false} WithoutAt(s: seq<Sub>, x: Sub, i: nat)
    requires i < |s| && s[i] == x && x !in s[..i]
    ensures Without(s, x) == s[..i] + s[i + 1..]
  {
    if i > 0 {
      assert s[0] in s[..i];
      assert s[..i][1..] == s[1..][..i - 1];
      WithoutAt(s[1..], x, i - 1);
      assert [s[0]] + s[1..][..i - 1] == s[..i];
    }
  }

  lemma {:induction false} WithoutMembers(s: seq<Sub>, x: Sub)
    requires NoDuplicates(s)
    ensures NoDuplicates(Without(s, x))
    ensures forall y :: y in Without(s, x) <==> y in s && y != x
  {
    if s != [] {
      WithoutMembers(s[1..], x);
      assert forall y :: y in s <==> y == s[0] || y in s[1..];
      var r := Without(s[1..], x);
      if s[0] != x {
        assert s[0] !in s[1..];
        assert forall y :: y in [s[0]] + r <==> y == s[0] || y in r;
      }
    }
  }

  /** Whether x subscribes to k after an accepted call, given whether it did before. */
  function Subscribed(op: Op, k: Bytes, x: Sub, before: bool): bool {
    if op.key != k then before
    else match op
      case Put(_, _) => before
      case Del(_) => false
      case Subscribe(_, y) => x == y || before
      case Unsubscribe(_, y) => x != y && before
  }

  /** One call, seen from the subscribers of k. */
  lemma ApplySubs(s: Store, op: Op, k: Bytes, x: Sub)
    requires NoDuplicates(SubsOf(s, k))
    ensures var (t, r) := Apply(s, op);
            && NoDuplicates(SubsOf(t, k))
            && (x in SubsOf(t, k) <==>
                  if r.status == Ok then Subscribed(op, k, x, x in SubsOf(s, k)) else x in SubsOf(s, k))
  {
    var subs := SubsOf(s, k);
    match op
    case Subscribe(_, y) =>
      assert forall z :: z in [y] + subs <==> z == y || z in subs;
    case Unsubscribe(_, y) =>
      WithoutMembers(subs, y);
    case _ =>
  }

  /** The list of a key: no duplicates, exactly those in a current spell. */
  lemma {:induction false} SubscribersAreCurrent(ops: seq<Op>, k: Bytes, x: Sub, capacity: nat, maxValue: nat)
    ensures NoDuplicates(SubsOf(After(ops, capacity, maxValue), k))
    ensures x in SubsOf(After(ops, capacity, maxValue), k) <==> Since(ops, k, x, capacity, maxValue) > 0
    ensures Since(ops, k, x, capacity, maxValue) <= |ops|
  {
    if ops != [] {
      hide Apply, SubsOf, NoDuplicates;
      var n := |ops| - 1;
      SubscribersAreCurrent(ops[..n], k, x, capacity, maxValue);
      ApplySubs(After(ops[..n], capacity, maxValue), ops[n], k, x);
    }
  }

  ghost predicate NewestFirst(subs: seq<Sub>, ops: seq<Op>, k: Bytes, capacity: nat, maxValue: nat) {
    forall i, j :: 0 <= i < j < |subs| ==>
      Since(ops, k, subs[i], capacity, maxValue) > Since(ops, k, subs[j], capacity, maxValue)
  }

  lemma {:induction false} WithoutOrder(s: seq<Sub>, x: Sub, i: nat, j: nat) returns (p: nat, q: nat)
    requires i < j < |Without(s, x)|
    ensures p < q < |s| && s[p] == Without(s, x)[i] && s[q] == Without(s, x)[j]
  {
    if s[0] == x {
      p, q := i + 1, j + 1;
    } else if i == 0 {
      p := 0;
      q := WithoutFrom(s[1..], x, j - 1);
      q := q + 1;
    } else {
      p, q := WithoutOrder(s[1..], x, i - 1, j - 1);
      p, q := p + 1, q + 1;
    }
  }

  lemma {:induction false} WithoutFrom(s: seq<Sub>, x: Sub, j: nat) returns (q: nat)
    requires j < |Without(s, x)|
    ensures q < |s| && s[q] == Without(s, x)[j]
  {
    if s[0] == x {
      q := j + 1;
    } else if j == 0 {
      q := 0;
    } else {
      q := WithoutFrom(s[1..], x, j - 1);
      q := q + 1;
    }
  }

  /** Newest first: the list is in decreasing order of when the spells began. */
  lemma {:induction false} SubscribersNewestFirst(ops: seq<Op>, k: Bytes, capacity: nat, maxValue: nat)
    ensures NewestFirst(SubsOf(After(ops, capacity, maxValue), k), ops, k, capacity, maxValue)
  {
    if ops != [] {
      var n := |ops| - 1;
      var past := ops[..n];
      SubscribersNewestFirst(past, k, capacity, maxValue);
      var before := SubsOf(After(past, capacity, maxValue), k);
      var subs := SubsOf(After(ops, capacity, maxValue), k);
      forall i, j | 0 <= i < j < |subs|
        ensures Since(ops, k, subs[i], capacity, maxValue) > Since(ops, k, subs[j], capacity, maxValue)
      {
        StillNewer(ops, k, capacity, maxValue, i, j);
      }
    }
  }

  /** A call changes the list of k to itself, nothing, one more in front, or one less. */
  lemma ApplyList(s: Store, op: Op, k: Bytes)
    ensures var (t, r) := Apply(s, op);
            || SubsOf(t, k) == SubsOf(s, k)
            || SubsOf(t, k) == []
            || (op.Subscribe? && op.key == k && r.status == Ok && op.sub !in SubsOf(s, k) &&
                SubsOf(t, k) == [op.sub] + SubsOf(s, k))
            || (op.Unsubscribe? && op.key == k && r.status == Ok &&
                SubsOf(t, k) == Without(SubsOf(s, k), op.sub))
  {
  }

  /** A call leaves the spell of a member of the new list alone, unless it starts it. */
  lemma SinceStays(ops: seq<Op>, k: Bytes, x: Sub, capacity: nat, maxValue: nat)
    requires ops != [] && x in SubsOf(After(ops, capacity, maxValue), k)
    ensures var past := ops[..|ops| - 1];
            Since(ops, k, x, capacity, maxValue) ==
              if x in SubsOf(After(past, capacity, maxValue), k) then Since(past, k, x, capacity, maxValue) else |ops|
  {
    var n := |ops| - 1;
    SubscribersAreCurrent(ops, k, x, capacity, maxValue);
    SubscribersAreCurrent(ops[..n], k, x, capacity, maxValue);
    ApplySubs(After(ops[..n], capacity, maxValue), ops[n], k, x);
    hide Apply, SubsOf, NoDuplicates, After;
  }

  lemma StillNewer(ops: seq<Op>, k: Bytes, capacity: nat, maxValue: nat, i: nat, j: nat)
    requires ops != [] && i < j < |SubsOf(After(ops, capacity, maxValue), k)|
    requires NewestFirst(SubsOf(After(ops[..|ops| - 1], capacity, maxValue), k), ops[..|ops| - 1], k, capacity, maxValue)
    ensures var subs := SubsOf(After(ops, capacity, maxValue), k);
            Since(ops, k, subs[i], capacity, maxValue) > Since(ops, k, subs[j], capacity, maxValue)
  {
    var n := |ops| - 1;
    var past := ops[..n];
    var s := After(past, capacity, maxValue);
    var before := SubsOf(s, k);
    var subs := SubsOf(After(ops, capacity, maxValue), k);
    assert subs == SubsOf(Apply(s, ops[n]).0, k);
    assert subs[i] in subs && subs[j] in subs;
    ApplyList(s, ops[n], k);
    SinceStays(ops, k, subs[i], capacity, maxValue);
    SinceStays(ops, k, subs[j], capacity, maxValue);
    SubscribersAreCurrent(past, k, subs[j], capacity, maxValue);
    hide Apply, SubsOf, After, Since, Without;
    if subs == before {
    } else if ops[n].Subscribe? {
      assert subs[j] == before[j - 1] && subs[j] in before;
      if i > 0 { assert subs[i] == before[i - 1]; }
    } else {
      var p, q := WithoutOrder(before, ops[n].sub, i, j);
    }
  }

  function Notified(notices: seq<Notice>): (r: seq<Sub>)
    ensures |r| == |notices| && forall i :: 0 <= i < |notices| ==> r[i] == notices[i].sub
  {
    seq(|notices|, i requires 0 <= i < |notices| => notices[i].sub)
  }

  /** An accepted put notifies exactly the current subscribers, each once and newest
      first, when it updates, and nobody when it inserts; each is handed the key and the
      new value, which is what the table now holds. */
  lemma NotifiesCurrentSubscribers(ops: seq<Op>, n: nat, x: Sub, capacity: nat, maxValue: nat)
    requires n < |ops| && ops[n].Put? && Answer(ops, n, capacity, maxValue).status == Ok
    ensures var notices := Answer(ops, n, capacity, maxValue).notices;
            var r := Notified(notices);
            && NoDuplicates(r)
            && NewestFirst(r, ops[..n], ops[n].key, capacity, maxValue)
            && (x in r <==> Since(ops[..n], ops[n].key, x, capacity, maxValue) > 0)
            && (LastPut(ops[..n], ops[n].key, capacity, maxValue) == None ==> r == [])
            && (forall i :: 0 <= i < |notices| ==>
                  && notices[i].key == ops[n].key
                  && LastPut(ops[..n + 1], ops[n].key, capacity, maxValue) == Some(notices[i].value))
  {
    SubscribersAreCurrent(ops[..n], ops[n].key, x, capacity, maxValue);
    SubscribersNewestFirst(ops[..n], ops[n].key, capacity, maxValue);
    HoldsLastPuts(ops[..n], ops[n].key, capacity, maxValue);
    assert ops[..n + 1][..n] == ops[..n];
    assert Answer(ops[..n + 1], n, capacity, maxValue) == Answer(ops, n, capacity, maxValue);
    var subs := SubsOf(After(ops[..n], capacity, maxValue), ops[n].key);
    assert Notified(Answer(ops, n, capacity, maxValue).notices) == subs;
    hide NoDuplicates, NewestFirst, Since, Apply;
  }

  /** Delete and re-insert starts with no subscribers. */
  lemma ReinsertForgetsSubscribers(s: Store, k: Bytes, v: Bytes)
    requires k in s.recs && |v| <= s.maxValue && |s.recs| <= s.capacity
    ensures var t := Apply(s, Del(k)).0;
            Apply(t, Put(k, v)).1 == Reply(Ok, []) && SubsOf(Apply(t, Put(k, v)).0, k) == []
  {
    assert (s.recs - {k}).Keys == s.recs.Keys - {k};
  }
}
