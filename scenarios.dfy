/**
 * Five end-to-end scenarios, checked by the verifier from the services' contracts
 * alone: every assertion below follows from those contracts, not from the bodies.
 */
module Scenarios {
  import opened Domain
  import opened Database
  import ClientServices
  import SalesRepServices

  /** A listing of a one-element set is that element alone. */
  lemma SingletonEnumeration(q: seq<Id>, x: Id)
    requires IsEnumeration(q, {x})
    ensures q == [x]
  {
    EnumerationLength(q, {x});
  }

  method RunScenarios() {
    var db := new CustomersDb();
    var reps := new SalesRepServices.SalesRepService(db);
    var clients := new ClientServices.ClientService(db);

    // A: a sales rep, then a client referring to it
    var r1 := reps.Create(SalesRepCreateDto("Ana", "ana@acme.example", None));
    var r2 := reps.Create(SalesRepCreateDto("Luis", "luis@acme.example", Some("555-0100")));
    assert r1 != r2;  // two creates never hand out the same identifier
    var acme := ClientCreateDto("Acme Co", "buyer@acme.example", DateTime(0), r1, None);
    var created := clients.Create(acme);
    assert created.Ok?;
    var c1 := created.value;
    assert clients.GetById(c1) == Some(ClientDto(c1, "Acme Co", "buyer@acme.example", DateTime(0), r1, None));

    // B: a client referring to no sales rep is refused and nothing is written
    FreshIdExists(db.salesReps.Keys);
    var nonexistent :| nonexistent !in db.salesReps;
    var before := clients.GetAll();
    var refused := clients.Create(acme.(salesRepId := nonexistent));
    assert refused == Err(ReferenceNotFound(nonexistent));
    assert clients.GetAll() == before;

    // C: the sales rep still has a client, so deleting it is refused
    assert ClientsOf(db.clients, r1) == {c1};
    var blocked := reps.Delete(r1);
    assert blocked.Err? && ListsDependents(blocked.error, db.clients, r1);
    var order :| IsEnumeration(order, ClientsOf(db.clients, r1)) && blocked.error.names == NamesOf(db.clients, order);
    SingletonEnumeration(order, c1);
    assert blocked.error == DependentsExist(1, ["Acme Co"], "Acme Co");
    assert reps.GetById(r1).Some?;

    // D: once the client is gone, the sales rep can be deleted
    var deleted := clients.Delete(c1);
    assert deleted;
    assert ClientsOf(db.clients, r1) == {};
    var removed := reps.Delete(r1);
    assert removed == Ok(true);
    assert reps.GetById(r1) == None;

    // E: updating a client that does not exist reports false and creates nothing
    FreshIdExists(db.clients.Keys);
    var missing :| missing !in db.clients;
    var updated := clients.Update(missing, ClientUpdateDto("X", "x@x.example", DateTime(1), r1, None));
    assert updated == Ok(false);
    assert clients.GetById(missing) == None;
    assert Integrity(db.salesReps, db.clients);
  }
}
