/**
 * The store behind both services: one table of sales reps and one of clients,
 * each keyed by identifier. The object-relational layer, its change tracking
 * and its commit are folded into direct updates of the two maps.
 *
 * The pure definitions over the maps (the foreign-key invariant, a rep's
 * associated clients, the read views, enumeration and fresh identifiers) live
 * at module level so that lemmas about them need no heap.
 */
module Database {
  import opened Domain
  import Text

  class CustomersDb {
    var salesReps: map<Id, SalesRep>
    var clients: map<Id, Client>

    /** A new, empty store. */
    constructor ()
      ensures salesReps == map[] && clients == map[]
      ensures Valid() && Integrity(salesReps, clients)
    {
      salesReps := map[];
      clients := map[];
    }

    /** Every row is stored under its own primary key. */
    ghost predicate Valid()
      reads this
    {
      SalesRepKeysMatch(salesReps) && ClientKeysMatch(clients)
    }
  }

  ghost predicate SalesRepKeysMatch(reps: map<Id, SalesRep>) {
    forall k | k in reps :: reps[k].id == k
  }

  ghost predicate ClientKeysMatch(clients: map<Id, Client>) {
    forall k | k in clients :: clients[k].id == k
  }

  /** The foreign-key invariant: no client refers to a missing sales rep. */
  ghost predicate Integrity(reps: map<Id, SalesRep>, clients: map<Id, Client>) {
    forall k | k in clients :: clients[k].salesRepId in reps
  }

  /** The clients associated with a sales rep: those whose reference is `repId`. */
  function ClientsOf(clients: map<Id, Client>, repId: Id): set<Id> {
    set k | k in clients && clients[k].salesRepId == repId
  }

  /** Inserting a client adds it to its own rep's clients and to no other rep's. */
  lemma AssociationsAfterInsert(clients: map<Id, Client>, id: Id, c: Client)
    requires id !in clients
    ensures ClientsOf(clients[id := c], c.salesRepId) == ClientsOf(clients, c.salesRepId) + {id}
    ensures forall rep | rep != c.salesRepId :: ClientsOf(clients[id := c], rep) == ClientsOf(clients, rep)
  {
  }

  /**
   * Overwriting a client moves it from its old rep's clients to its new rep's;
   * every other rep keeps exactly the clients it had.
   */
  lemma AssociationsAfterOverwrite(clients: map<Id, Client>, id: Id, c: Client)
    requires id in clients
    ensures ClientsOf(clients[id := c], c.salesRepId) == ClientsOf(clients, c.salesRepId) + {id}
    ensures c.salesRepId != clients[id].salesRepId ==>
              ClientsOf(clients[id := c], clients[id].salesRepId) == ClientsOf(clients, clients[id].salesRepId) - {id}
    ensures forall rep | rep != c.salesRepId && rep != clients[id].salesRepId ::
              ClientsOf(clients[id := c], rep) == ClientsOf(clients, rep)
  {
  }

  /** Removing a client takes it out of its rep's clients and changes nothing else. */
  lemma AssociationsAfterRemove(clients: map<Id, Client>, id: Id)
    ensures forall rep :: ClientsOf(clients - {id}, rep) == ClientsOf(clients, rep) - {id}
  {
  }

  /** A sales rep with no associated clients can go without breaking the invariant. */
  lemma RemoveUnreferenced(reps: map<Id, SalesRep>, clients: map<Id, Client>, repId: Id)
    requires Integrity(reps, clients)
    requires ClientsOf(clients, repId) == {}
    ensures Integrity(reps - {repId}, clients)
  {
    forall k | k in clients
      ensures clients[k].salesRepId in reps - {repId}
    {
      assert k !in ClientsOf(clients, repId);
    }
  }

  // ---- Read views ----

  function ClientViews(clients: map<Id, Client>): set<ClientDto> {
    set k | k in clients :: ToClientDto(clients[k])
  }

  function SalesRepViews(reps: map<Id, SalesRep>): set<SalesRepDto> {
    set k | k in reps :: ToSalesRepDto(reps[k])
  }

  /** A client view is present exactly when its row is. */
  lemma ClientViewsExact(clients: map<Id, Client>)
    requires ClientKeysMatch(clients)
    ensures forall d :: d in ClientViews(clients) <==> d.id in clients && d == ToClientDto(clients[d.id])
  {
  }

  /** One client view per stored row: no two rows collapse into one view. */
  lemma {:induction false} ClientViewsCount(clients: map<Id, Client>)
    requires ClientKeysMatch(clients)
    ensures |ClientViews(clients)| == |clients|
  {
    if clients != map[] {
      var k :| k in clients;
      var rest := clients - {k};
      ClientViewsCount(rest);
      var v := ToClientDto(clients[k]);
      assert v !in ClientViews(rest);
      assert ClientViews(clients) == ClientViews(rest) + {v};
      assert clients.Keys == rest.Keys + {k};
    }
  }

  /** A sales rep view is present exactly when its row is. */
  lemma SalesRepViewsExact(reps: map<Id, SalesRep>)
    requires SalesRepKeysMatch(reps)
    ensures forall d :: d in SalesRepViews(reps) <==> d.id in reps && d == ToSalesRepDto(reps[d.id])
  {
  }

  /** One sales rep view per stored row. */
  lemma {:induction false} SalesRepViewsCount(reps: map<Id, SalesRep>)
    requires SalesRepKeysMatch(reps)
    ensures |SalesRepViews(reps)| == |reps|
  {
    if reps != map[] {
      var k :| k in reps;
      var rest := reps - {k};
      SalesRepViewsCount(rest);
      var v := ToSalesRepDto(reps[k]);
      assert v !in SalesRepViews(rest);
      assert SalesRepViews(reps) == SalesRepViews(rest) + {v};
      assert reps.Keys == rest.Keys + {k};
    }
  }

  // ---- Enumerating a set of rows in some storage-defined order ----

  /** `q` lists every element of `s` exactly once, in some order. */
  predicate IsEnumeration(q: seq<Id>, s: set<Id>) {
    && (forall i, j | 0 <= i < j < |q| :: q[i] != q[j])
    && (forall i | 0 <= i < |q| :: q[i] in s)
    && (forall x | x in s :: x in q)
  }

  /** Every finite set can be listed in some order. */
  lemma {:induction false} EnumerationExists(s: set<Id>)
    ensures exists q :: IsEnumeration(q, s)
  {
    if s == {} {
      assert IsEnumeration([], s);
    } else {
      var x :| x in s;
      EnumerationExists(s - {x});
      var q :| IsEnumeration(q, s - {x});
      assert IsEnumeration(q + [x], s);
    }
  }

  /** A listing without repetitions is as long as the set it lists. */
  lemma {:induction false} EnumerationLength(q: seq<Id>, s: set<Id>)
    requires IsEnumeration(q, s)
    ensures |q| == |s|
  {
    if q != [] {
      var last := q[|q| - 1];
      var init := q[..|q| - 1];
      assert IsEnumeration(init, s - {last}) by {
        forall x | x in s - {last} ensures x in init {
          var i :| 0 <= i < |q| && q[i] == x;
          assert i != |q| - 1;
          assert init[i] == x;
        }
      }
      EnumerationLength(init, s - {last});
    }
  }

  /** The names of the listed clients, in the listing's order. */
  function NamesOf(clients: map<Id, Client>, order: seq<Id>): seq<string>
    requires forall i | 0 <= i < |order| :: order[i] in clients
  {
    seq(|order|, i requires 0 <= i < |order| => clients[order[i]].name)
  }

  /**
   * `f` is the failure a blocked delete of `repId` reports: it carries the number of
   * associated clients and exactly their names, once each, in some order, together
   * with those names joined by ", ".
   */
  ghost predicate ListsDependents(f: Failure, clients: map<Id, Client>, repId: Id) {
    && f.DependentsExist?
    && f.count == |ClientsOf(clients, repId)|
    && f.count == |f.names|
    && f.list == Text.Join(Text.NameSeparator, f.names)
    && exists order :: IsEnumeration(order, ClientsOf(clients, repId)) && f.names == NamesOf(clients, order)
  }

  // ---- Fresh identifiers ----

  lemma {:induction false} UpperBound(keys: set<Id>) returns (m: Id)
    ensures forall k | k in keys :: k < m
  {
    if keys == {} {
      m := 0;
    } else {
      var x :| x in keys;
      var m' := UpperBound(keys - {x});
      assert forall k | k in keys :: k == x || k in keys - {x};
      m := if m' > x then m' else x + 1;
    }
  }

  /** However many rows exist, an unused identifier is available. */
  lemma FreshIdExists(keys: set<Id>)
    ensures exists id: Id :: id !in keys
  {
    var m := UpperBound(keys);
    assert m !in keys;
  }
}
