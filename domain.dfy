/**
 * Entities, transfer objects and the field copies between them.
 *
 * A Client is one visit record owned by one SalesRep; both are identified by an
 * opaque token. The transfer objects are what the services accept and return,
 * and the copy functions stand for the object mapper's member-by-member maps.
 */
module Domain {

  datatype Option<+T> = None | Some(value: T)

  /** An opaque identifier (a GUID in the system); only equality and freshness matter. */
  type Id = nat

  /** A point in time, compared only for equality. */
  datatype DateTime = DateTime(ticks: int)

  datatype SalesRep = SalesRep(id: Id, name: string, email: string, phone: Option<string>)

  datatype Client = Client(
    id: Id,
    name: string,
    contactEmail: string,
    visitDate: DateTime,
    salesRepId: Id,
    notes: Option<string>)

  datatype SalesRepCreateDto = SalesRepCreateDto(name: string, email: string, phone: Option<string>)
  datatype SalesRepUpdateDto = SalesRepUpdateDto(name: string, email: string, phone: Option<string>)
  datatype SalesRepDto = SalesRepDto(id: Id, name: string, email: string, phone: Option<string>)

  datatype ClientCreateDto = ClientCreateDto(
    name: string,
    contactEmail: string,
    visitDate: DateTime,
    salesRepId: Id,
    notes: Option<string>)

  datatype ClientUpdateDto = ClientUpdateDto(
    name: string,
    contactEmail: string,
    visitDate: DateTime,
    salesRepId: Id,
    notes: Option<string>)

  datatype ClientDto = ClientDto(
    id: Id,
    name: string,
    contactEmail: string,
    visitDate: DateTime,
    salesRepId: Id,
    notes: Option<string>)

  /** The expected business failures, returned instead of thrown. */
  datatype Failure =
    | ReferenceNotFound(salesRepId: Id)
      // the blocking clients' count, their names, and the names joined with ", "
    | DependentsExist(count: nat, names: seq<string>, list: string)

  datatype Result<+T> = Ok(value: T) | Err(error: Failure)

  // ---- Client copies ----

  /** A new client built from a create request under a freshly chosen identifier. */
  function NewClient(id: Id, dto: ClientCreateDto): (r: Client)
    ensures r.id == id
    ensures ClientFields(r) == ClientUpdateDto(dto.name, dto.contactEmail, dto.visitDate, dto.salesRepId, dto.notes)
  {
    Client(id, dto.name, dto.contactEmail, dto.visitDate, dto.salesRepId, dto.notes)
  }

  /** The mutable fields of a client, in the shape of an update request. */
  function ClientFields(c: Client): ClientUpdateDto {
    ClientUpdateDto(c.name, c.contactEmail, c.visitDate, c.salesRepId, c.notes)
  }

  /** Overwrites the five mutable fields of a client with those of an update request. */
  function UpdatedClient(c: Client, dto: ClientUpdateDto): (r: Client)
    ensures r.id == c.id && ClientFields(r) == dto
  {
    c.(name := dto.name, contactEmail := dto.contactEmail, visitDate := dto.visitDate,
       salesRepId := dto.salesRepId, notes := dto.notes)
  }

  /** The view of a client; it carries the whole record, so the reverse map restores it. */
  function ToClientDto(c: Client): (d: ClientDto)
    ensures d.id == c.id && FromClientDto(d) == c
  {
    ClientDto(c.id, c.name, c.contactEmail, c.visitDate, c.salesRepId, c.notes)
  }

  /** The reverse map from a transfer object back to an entity. */
  function FromClientDto(d: ClientDto): Client {
    Client(d.id, d.name, d.contactEmail, d.visitDate, d.salesRepId, d.notes)
  }

  // ---- SalesRep copies ----

  /** A new sales rep built from a create request under a freshly chosen identifier. */
  function NewSalesRep(id: Id, dto: SalesRepCreateDto): (r: SalesRep)
    ensures r.id == id && SalesRepFields(r) == SalesRepUpdateDto(dto.name, dto.email, dto.phone)
  {
    SalesRep(id, dto.name, dto.email, dto.phone)
  }

  /** The mutable fields of a sales rep, in the shape of an update request. */
  function SalesRepFields(r: SalesRep): SalesRepUpdateDto {
    SalesRepUpdateDto(r.name, r.email, r.phone)
  }

  /** Overwrites name, email and phone; the identifier stays. */
  function UpdatedSalesRep(rep: SalesRep, dto: SalesRepUpdateDto): (r: SalesRep)
    ensures r.id == rep.id && SalesRepFields(r) == dto
  {
    rep.(name := dto.name, email := dto.email, phone := dto.phone)
  }

  /** The view of a sales rep; the reverse map restores the record. */
  function ToSalesRepDto(r: SalesRep): (d: SalesRepDto)
    ensures d.id == r.id && FromSalesRepDto(d) == r
  {
    SalesRepDto(r.id, r.name, r.email, r.phone)
  }

  function FromSalesRepDto(d: SalesRepDto): SalesRep {
    SalesRep(d.id, d.name, d.email, d.phone)
  }

  /** Mapping a transfer object to an entity and back loses nothing either. */
  lemma DtoRoundTrips(d: ClientDto, e: SalesRepDto)
    ensures ToClientDto(FromClientDto(d)) == d
    ensures ToSalesRepDto(FromSalesRepDto(e)) == e
  {
  }
}
