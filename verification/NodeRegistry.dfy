/** What binding and unbinding services does to the set of registry entries, whatever
    order the entries end up in. */
module NodeRegistry {
  import opened NodeTimers
  import opened NodeSpec

  ghost predicate Unique(r: Registry) {
    RegShape(r) && forall i, j :: 0 <= i < j < r.count ==> r.slots[i].service != r.slots[j].service
  }

  ghost predicate Has(r: Registry, e: Entry)
    requires RegShape(r)
  {
    exists i :: 0 <= i < r.count && r.slots[i] == e
  }

  /** Slots not in use have no provider; so it is until the first entry is taken out. */
  ghost predicate Blank(r: Registry)
    requires RegShape(r)
  {
    forall i :: r.count <= i < |r.slots| ==> r.slots[i].provider == 0
  }

  lemma UnbindForgets(r: Registry, service: nat)
    requires Unique(r)
    ensures Unique(Unbind(r, service))
    ensures forall e :: Has(Unbind(r, service), e) <==> Has(r, e) && e.service != service
  {
    var i, q := Find(r, service), Unbind(r, service);
    forall e ensures Has(q, e) <==> Has(r, e) && e.service != service {
      if Has(q, e) {
        var j :| 0 <= j < q.count && q.slots[j] == e;
        assert r.slots[if i < r.count && j == i then r.count - 1 else j] == e;
      }
      if Has(r, e) && e.service != service {
        var j :| 0 <= j < r.count && r.slots[j] == e;
        assert q.slots[if i < r.count && j == r.count - 1 then i else j] == e;
      }
    }
  }

  /** Whether service is one of those that component id provides on this node. */
  ghost predicate Provides(m: seq<Svc>, k: nat, service: nat, id: nat)
    requires k <= |m|
  {
    exists j :: 0 <= j < k && m[j].service == service && ProvidesHere(m[j], id)
  }

  lemma ProvidesNext(m: seq<Svc>, k: nat, service: nat, id: nat)
    requires 0 < k <= |m|
    ensures Provides(m, k, service, id) <==>
              Provides(m, k - 1, service, id) || (m[k - 1].service == service && ProvidesHere(m[k - 1], id))
  {
  }

  /** Unregistering a component's services takes out exactly their entries. */
  lemma {:induction false} UnbindAllForgets(r: Registry, m: seq<Svc>, k: nat, id: nat)
    requires Unique(r) && k <= |m|
    ensures Unique(UnbindAll(r, m, k, id))
    ensures forall e :: Has(UnbindAll(r, m, k, id), e) <==> Has(r, e) && !Provides(m, k, e.service, id)
  {
    if k > 0 {
      UnbindAllForgets(r, m, k - 1, id);
      var q := UnbindAll(r, m, k - 1, id);
      if ProvidesHere(m[k - 1], id) { UnbindForgets(q, m[k - 1].service); }
      forall e ensures Has(UnbindAll(r, m, k, id), e) <==> Has(r, e) && !Provides(m, k, e.service, id) {
        ProvidesNext(m, k, e.service, id);
        hide Has, Provides;
      }
    }
  }

  lemma BindSets(r: Registry, service: nat, p: Ptr, t: nat)
    requires Unique(r)
    ensures var q := Bind(r, service, p, t);
            && Unique(q)
            && (forall e :: Has(q, e) ==> e == Entry(service, p, t, false) || (Has(r, e) && e.service != service))
            && (forall e :: Has(r, e) && e.service != service ==> Has(q, e))
            && (forall e :: Has(r, e) && e.service == service ==> Has(q, Entry(service, p, t, false)))
            && (Blank(r) ==> Blank(q))
  {
    var i, q := Find(r, service), Bind(r, service, p, t);
    forall e | Has(q, e) ensures e == Entry(service, p, t, false) || (Has(r, e) && e.service != service) {
      var j :| 0 <= j < q.count && q.slots[j] == e;
      if j != i { assert r.slots[j] == e; }
    }
    forall e | Has(r, e) && e.service != service ensures Has(q, e) {
      var j :| 0 <= j < r.count && r.slots[j] == e;
      assert q.slots[j] == e;
    }
    if i < r.count { assert q.slots[i] == Entry(service, p, t, false); }
  }

  /** Registering a component's services: their entries all name the new provider, the
      others are as before, and no service is lost. */
  lemma {:induction false} BindAllSets(r: Registry, m: seq<Svc>, k: nat, id: nat, p: Ptr, t: nat)
    requires Unique(r) && k <= |m|
    ensures var q := BindAll(r, m, k, id, p, t);
            && Unique(q)
            && (forall e :: Has(q, e) ==>
                  if Provides(m, k, e.service, id) then e == Entry(e.service, p, t, false) else Has(r, e))
            && (forall e :: Has(r, e) ==>
                  Has(q, if Provides(m, k, e.service, id) then Entry(e.service, p, t, false) else e))
  {
    if k > 0 {
      BindAllSets(r, m, k - 1, id, p, t);
      var o, q := BindAll(r, m, k - 1, id, p, t), BindAll(r, m, k, id, p, t);
      var s := m[k - 1].service;
      if ProvidesHere(m[k - 1], id) { BindSets(o, s, p, t); }
      forall e | Has(q, e)
        ensures if Provides(m, k, e.service, id) then e == Entry(e.service, p, t, false) else Has(r, e)
      {
        ProvidesNext(m, k, e.service, id);
        hide Has, Provides;
      }
      forall e | Has(r, e)
        ensures Has(q, if Provides(m, k, e.service, id) then Entry(e.service, p, t, false) else e)
      {
        ProvidesNext(m, k, e.service, id);
        hide Has, Provides;
      }
    }
  }

  lemma BindRemoteSets(r: Registry, service: nat)
    requires Unique(r) && Blank(r)
    ensures var q := BindRemote(r, service);
            && Unique(q) && Blank(q)
            && (forall e :: Has(q, e) ==>
                  || (Has(r, e) && e.service != service)
                  || (e.remote && e.service == service &&
                      (e.provider == 0 || (exists f :: Has(r, f) && e == f.(remote := true)))))
  {
    var i, q := Find(r, service), BindRemote(r, service);
    forall e | Has(q, e)
      ensures || (Has(r, e) && e.service != service)
              || (e.remote && e.service == service &&
                  (e.provider == 0 || (exists f :: Has(r, f) && e == f.(remote := true))))
    {
      var j :| 0 <= j < q.count && q.slots[j] == e;
      if j != i { assert Has(r, e); } else if i < r.count { assert Has(r, r.slots[i]); }
    }
  }
}
