/**
 * The sales rep service: reads, and create / update / delete of sales rep rows.
 * Deleting is guarded: a sales rep that still has clients is never removed, and
 * the refusal names every client that blocks it.
 */
module SalesRepServices {
  import opened Domain
  import opened Database
  import Text

  class SalesRepService {
    const db: CustomersDb

    constructor (db: CustomersDb)
      ensures this.db == db
    {
      this.db := db;
    }

    /** All sales reps, one view per row; the order is left to storage, so this is a set. */
    function GetAll(): (r: set<SalesRepDto>)
      reads db
      requires db.Valid()
      ensures |r| == |db.salesReps|
      ensures forall d :: d in r <==> d.id in db.salesReps && GetById(d.id) == Some(d)
    {
      SalesRepViewsExact(db.salesReps);
      SalesRepViewsCount(db.salesReps);
      SalesRepViews(db.salesReps)
    }

    /** The sales rep stored under `id`, or None when there is none. */
    function GetById(id: Id): (r: Option<SalesRepDto>)
      reads db
      requires db.Valid()
      ensures r.None? <==> id !in db.salesReps
      ensures r.Some? ==> r.value.id == id && FromSalesRepDto(r.value) == db.salesReps[id]
    {
      if id in db.salesReps then Some(ToSalesRepDto(db.salesReps[id])) else None
    }

    /** Always inserts a new sales rep under an identifier no sales rep has yet. */
    method Create(dto: SalesRepCreateDto) returns (id: Id)
      requires db.Valid()
      modifies db`salesReps
      ensures db.Valid()
      ensures db.clients == old(db.clients)
      ensures id !in old(db.salesReps)
      ensures db.salesReps == old(db.salesReps)[id := NewSalesRep(id, dto)]
      ensures old(Integrity(db.salesReps, db.clients)) ==> Integrity(db.salesReps, db.clients)
    {
      FreshIdExists(db.salesReps.Keys);
      id :| id !in db.salesReps;
      db.salesReps := db.salesReps[id := NewSalesRep(id, dto)];
    }

    /**
     * Returns false when there is no sales rep `id`; otherwise overwrites name, email
     * and phone, keeping the identifier. Clients, and so the rep's associations, stay.
     */
    method Update(id: Id, dto: SalesRepUpdateDto) returns (updated: bool)
      requires db.Valid()
      modifies db`salesReps
      ensures db.Valid()
      ensures db.clients == old(db.clients)
      ensures updated <==> id in old(db.salesReps)
      ensures !updated ==> db.salesReps == old(db.salesReps)
      ensures updated ==>
                && db.salesReps.Keys == old(db.salesReps).Keys
                && db.salesReps[id].id == id
                && SalesRepFields(db.salesReps[id]) == dto
                && (forall k | k in db.salesReps && k != id :: db.salesReps[k] == old(db.salesReps)[k])
      ensures old(Integrity(db.salesReps, db.clients)) ==> Integrity(db.salesReps, db.clients)
    {
      if id !in db.salesReps {
        return false;
      }
      var rep := db.salesReps[id];
      db.salesReps := db.salesReps[id := UpdatedSalesRep(rep, dto)];
      return true;
    }

    /**
     * Returns false when there is no sales rep `id`. A sales rep that still has clients
     * is not removed: the result reports how many clients block it and their names.
     * A sales rep without clients is removed and true is returned.
     */
    method Delete(id: Id) returns (r: Result<bool>)
      requires db.Valid()
      modifies db`salesReps
      ensures db.Valid()
      ensures db.clients == old(db.clients)
      ensures id !in old(db.salesReps) ==> r == Ok(false) && db.salesReps == old(db.salesReps)
      ensures id in old(db.salesReps) && ClientsOf(db.clients, id) != {} ==>
                && r.Err?
                && ListsDependents(r.error, db.clients, id)
                && db.salesReps == old(db.salesReps)
      ensures id in old(db.salesReps) && ClientsOf(db.clients, id) == {} ==>
                r == Ok(true) && db.salesReps == old(db.salesReps) - {id}
      ensures old(Integrity(db.salesReps, db.clients)) ==> Integrity(db.salesReps, db.clients)
    {
      if id !in db.salesReps {
        return Ok(false);
      }
      // the rep's clients, loaded eagerly with it
      var dependents := ClientsOf(db.clients, id);
      if dependents != {} {
        EnumerationExists(dependents);
        var order :| IsEnumeration(order, dependents);
        EnumerationLength(order, dependents);
        var names := NamesOf(db.clients, order);
        return Err(DependentsExist(|names|, names, Text.Join(Text.NameSeparator, names)));
      }
      if Integrity(db.salesReps, db.clients) {
        RemoveUnreferenced(db.salesReps, db.clients, id);
      }
      db.salesReps := db.salesReps - {id};
      return Ok(true);
    }
  }
}
