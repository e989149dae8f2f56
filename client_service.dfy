/**
 * The client service: reads, and create / update / delete of client rows,
 * rejecting any write that would make a client refer to a missing sales rep.
 */
module ClientServices {
  import opened Domain
  import opened Database

  class ClientService {
    const db: CustomersDb

    constructor (db: CustomersDb)
      ensures this.db == db
    {
      this.db := db;
    }

    /** All clients, one view per row; the order is left to storage, so this is a set. */
    function GetAll(): (r: set<ClientDto>)
      reads db
      requires db.Valid()
      ensures |r| == |db.clients|
      ensures forall d :: d in r <==> d.id in db.clients && GetById(d.id) == Some(d)
    {
      ClientViewsExact(db.clients);
      ClientViewsCount(db.clients);
      ClientViews(db.clients)
    }

    /** The client stored under `id`, or None when there is none; a miss is not an error. */
    function GetById(id: Id): (r: Option<ClientDto>)
      reads db
      requires db.Valid()
      ensures r.None? <==> id !in db.clients
      ensures r.Some? ==> r.value.id == id && FromClientDto(r.value) == db.clients[id]
    {
      if id in db.clients then Some(ToClientDto(db.clients[id])) else None
    }

    /**
     * Checks that the referenced sales rep exists, then inserts the client under an
     * identifier no client has yet. On a bad reference nothing is written.
     */
    method Create(dto: ClientCreateDto) returns (r: Result<Id>)
      requires db.Valid()
      modifies db`clients
      ensures db.Valid()
      ensures db.salesReps == old(db.salesReps)
      ensures r.Err? <==> dto.salesRepId !in db.salesReps
      ensures r.Err? ==> r.error == ReferenceNotFound(dto.salesRepId) && db.clients == old(db.clients)
      ensures r.Ok? ==>
                && r.value !in old(db.clients)
                && db.clients == old(db.clients)[r.value := NewClient(r.value, dto)]
      ensures r.Ok? ==>
                && ClientsOf(db.clients, dto.salesRepId) == ClientsOf(old(db.clients), dto.salesRepId) + {r.value}
                && (forall rep | rep != dto.salesRepId :: ClientsOf(db.clients, rep) == ClientsOf(old(db.clients), rep))
      ensures old(Integrity(db.salesReps, db.clients)) ==> Integrity(db.salesReps, db.clients)
    {
      if dto.salesRepId !in db.salesReps {
        return Err(ReferenceNotFound(dto.salesRepId));
      }
      FreshIdExists(db.clients.Keys);
      var id: Id :| id !in db.clients;
      AssociationsAfterInsert(db.clients, id, NewClient(id, dto));
      db.clients := db.clients[id := NewClient(id, dto)];
      return Ok(id);
    }

    /**
     * Returns false when there is no client `id`, whatever the request says; otherwise
     * checks the referenced sales rep (changed or not) and then overwrites the five
     * mutable fields, keeping the identifier.
     */
    method Update(id: Id, dto: ClientUpdateDto) returns (r: Result<bool>)
      requires db.Valid()
      modifies db`clients
      ensures db.Valid()
      ensures db.salesReps == old(db.salesReps)
      ensures id !in old(db.clients) ==> r == Ok(false) && db.clients == old(db.clients)
      ensures id in old(db.clients) && dto.salesRepId !in db.salesReps ==>
                r == Err(ReferenceNotFound(dto.salesRepId)) && db.clients == old(db.clients)
      ensures id in old(db.clients) && dto.salesRepId in db.salesReps ==>
                && r == Ok(true)
                && db.clients.Keys == old(db.clients).Keys
                && db.clients[id].id == id
                && ClientFields(db.clients[id]) == dto
                && (forall k | k in db.clients && k != id :: db.clients[k] == old(db.clients)[k])
      // the client moves from its former sales rep's clients to the requested one's
      ensures id in old(db.clients) && dto.salesRepId in db.salesReps ==>
                var was := old(db.clients)[id].salesRepId;
                && ClientsOf(db.clients, dto.salesRepId) == ClientsOf(old(db.clients), dto.salesRepId) + {id}
                && (was != dto.salesRepId ==> ClientsOf(db.clients, was) == ClientsOf(old(db.clients), was) - {id})
                && (forall rep | rep != dto.salesRepId && rep != was ::
                      ClientsOf(db.clients, rep) == ClientsOf(old(db.clients), rep))
      ensures old(Integrity(db.salesReps, db.clients)) ==> Integrity(db.salesReps, db.clients)
    {
      if id !in db.clients {
        return Ok(false);
      }
      if dto.salesRepId !in db.salesReps {
        return Err(ReferenceNotFound(dto.salesRepId));
      }
      var client := db.clients[id];
      AssociationsAfterOverwrite(db.clients, id, UpdatedClient(client, dto));
      db.clients := db.clients[id := UpdatedClient(client, dto)];
      return Ok(true);
    }

    /** Removes the client `id` when it exists; nothing depends on a client, so there is no guard. */
    method Delete(id: Id) returns (deleted: bool)
      requires db.Valid()
      modifies db`clients
      ensures db.Valid()
      ensures db.salesReps == old(db.salesReps)
      ensures deleted <==> id in old(db.clients)
      ensures db.clients == old(db.clients) - {id}
      ensures forall rep :: ClientsOf(db.clients, rep) == ClientsOf(old(db.clients), rep) - {id}
      ensures old(Integrity(db.salesReps, db.clients)) ==> Integrity(db.salesReps, db.clients)
    {
      AssociationsAfterRemove(db.clients, id);
      if id !in db.clients {
        assert db.clients - {id} == db.clients;
        return false;
      }
      db.clients := db.clients - {id};
      return true;
    }
  }
}
