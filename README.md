# ACME Customers: the consistency layer of the client and sales rep services

The ACME Customers application keeps two tables. One holds sales reps: name,
email and an optional phone. The other holds clients, which are visit records:
name, contact email, visit date, optional notes, and the sales rep who made the
visit. Two application services sit on top of the tables. `ClientService`
rejects a client write whose sales rep does not exist. `SalesRepService` refuses
to delete a sales rep that still has clients, and lists those clients by name.

This project models that layer in Dafny and proves its rules:

- `Domain` (`domain.dfy`): the entities, the transfer objects and the
  field-by-field copies the object mapper does between them. `Failure` is the
  closed set of business failures. `ReferenceNotFound(salesRepId)` replaces the
  `KeyNotFoundException`. `DependentsExist(count, names, list)` replaces the
  `InvalidOperationException` of a blocked delete.
- `Text` (`text.dfy`): `Join`, the `string.Join(", ", …)` that builds the
  blocked-delete list. Its partner is `Split`. A lemma proves that splitting the
  joined text gives the names back, provided no name contains ", " itself. A
  client named "Acme, Inc." would be split in two.
- `Database` (`database.dfy`): the class `CustomersDb`, which holds the two
  tables as maps keyed by identifier. It also defines the foreign-key invariant
  (`Integrity`: every client's sales rep is a key of the sales rep table) and a
  rep's associated clients (`ClientsOf`: the clients whose `SalesRepId` is the
  rep's id; this is the eagerly loaded `rep.Clients`). Lemmas say how each
  client write changes every rep's set of clients. The read views and
  fresh-identifier lemmas are here too.
- `ClientServices` and `SalesRepServices` (`client_service.dfy`,
  `sales_rep_service.dfy`): one class per service. Each class holds the shared
  store, passed in through its constructor. Reads are functions. Create, update
  and delete are methods: each returns a typed outcome, may change only its own
  table, and states the whole new state. Each also preserves the foreign-key
  invariant.
- `Scenarios` (`scenarios.dfy`): five end-to-end scenarios, checked by the
  verifier from the services' contracts alone. They cover: create a rep and a client; a bad
  reference is refused; a delete is blocked by a client; the delete succeeds
  once the client is gone; updating a missing client returns false.

Modelling choices:

- Identifiers are an abstract token (`nat`). `Guid.NewGuid()` becomes a
  nondeterministic choice of any id that is not yet a key of that table.
- `DateTime` is opaque: it is only compared for equality.
- Repository calls and the unit-of-work commit are folded into the assignment of
  the changed map. A write takes effect when the method returns.
- The order of the storage's listings is not specified. So `GetAll` returns a
  set of views. The names in a blocked-delete failure are listed in some order
  that covers every blocking client exactly once.

Further points where the model follows the code closely:

- `SalesRepDto` has only Id, Name, Email and Phone. So a sales rep view carries
  no client list, although the repository loads `rep.Clients`.
- The blocked-delete failure carries the number of blocking clients as well as
  their names, as the exception message does.
- `ClientUpdateDto`'s fields are taken to be the five that `UpdateAsync` assigns
  (ClientService.cs:88-92).

## Model

| member | source | states |
|---|---|---|
| `ClientServices.ClientService.GetAll` | ACME.Customers.Application/Services/ClientService.cs:35-39 | Exactly one view per stored client, so the set has as many elements as the table. Each view is what `GetById` returns for its id. |
| `ClientServices.ClientService.GetById` | ACME.Customers.Application/Services/ClientService.cs:42-46 | Returns `None` exactly when the id is not a client. Otherwise it returns a view that carries that id and maps back to the stored record. |
| `ClientServices.ClientService.Create` | ACME.Customers.Application/Services/ClientService.cs:49-67 | Fails with `ReferenceNotFound(dto.SalesRepId)` exactly when that id is not a sales rep, and then nothing changes. On success it returns an id not previously used by any client, and the client table becomes the old table plus that id mapped to the request's fields. The new client joins its rep's clients, and no other rep's clients change. The sales rep table never changes. The foreign-key invariant is preserved. |
| `ClientServices.ClientService.Update` | ACME.Customers.Application/Services/ClientService.cs:70-98 | A missing client gives `Ok(false)` and no change, even when the sales rep is missing too, because the client check comes first. If the client exists but the sales rep does not, it gives `ReferenceNotFound`, whether or not the sales rep changed, and no change. Otherwise it gives `Ok(true)`: the five mutable fields equal the request, the id stays, and every other row is unchanged. The client moves from its former rep's clients to the requested rep's, and no other rep's clients change. The sales rep table never changes. The foreign-key invariant is preserved. |
| `ClientServices.ClientService.Delete` | ACME.Customers.Application/Services/ClientService.cs:101-111 | Returns true exactly when the client existed. The table afterwards is the old table without that id. Every rep's clients lose at most that id. There is no guard, and the sales rep table is unchanged. The foreign-key invariant is preserved. |
| `ClientServices.ClientService.constructor` | ACME.Customers.Application/Services/ClientService.cs:22-32 | The service works on the store it is given. |
| `SalesRepServices.SalesRepService.GetAll` | ACME.Customers.Application/Services/SalesRepService.cs:32-36 | Exactly one view per stored sales rep. Each view is what `GetById` returns for its id. |
| `SalesRepServices.SalesRepService.GetById` | ACME.Customers.Application/Services/SalesRepService.cs:39-43 | Returns `None` exactly when the id is not a sales rep. Otherwise it returns a view that carries that id and maps back to the stored record. |
| `SalesRepServices.SalesRepService.Create` | ACME.Customers.Application/Services/SalesRepService.cs:46-58 | Always succeeds. It returns an id not previously used by any sales rep, and the table becomes the old table plus that id mapped to the request's name, email and phone. Clients are unchanged. The foreign-key invariant is preserved. |
| `SalesRepServices.SalesRepService.Update` | ACME.Customers.Application/Services/SalesRepService.cs:61-81 | Returns true exactly when the sales rep exists. If it does not, nothing changes. If it does, name, email and phone equal the request, the id stays, and every other sales rep is unchanged. The clients, and so the rep's associations, are unchanged. |
| `SalesRepServices.SalesRepService.Delete` | ACME.Customers.Application/Services/SalesRepService.cs:84-104 | A missing sales rep gives `Ok(false)` and no change. A rep with at least one client is not removed. The failure then carries the number of those clients and exactly their names, once each, joined with ", ". A rep without clients is removed, and nothing else is: the result is `Ok(true)` and the clients are unchanged. The foreign-key invariant is preserved, so no client is left orphaned. |
| `SalesRepServices.SalesRepService.constructor` | ACME.Customers.Application/Services/SalesRepService.cs:20-29 | The service works on the store it is given. |
| `Domain.UpdatedClient` | ACME.Customers.Application/Services/ClientService.cs:88-92 | Overwriting a client keeps its id. The client's mutable fields then equal the update request exactly. |
| `Domain.UpdatedSalesRep` | ACME.Customers.Application/Services/SalesRepService.cs:73-75 | Overwriting a sales rep keeps its id. Name, email and phone then equal the update request. |
| `Domain.NewClient` | ACME.Customers.Application/Services/ClientService.cs:60-61 | A created client carries the freshly chosen id. Its five mutable fields are exactly the create request's. |
| `Domain.NewSalesRep` | ACME.Customers.Application/Services/SalesRepService.cs:51-52 | A created sales rep carries the freshly chosen id. Its name, email and phone are exactly the create request's. |
| `Domain.ToClientDto` | ACME.Customers.Application/Services/ClientService.cs:45 | The client view keeps the id. The reverse map turns the view back into the same record, so the view loses nothing. |
| `Domain.ToSalesRepDto` | ACME.Customers.Application/Services/SalesRepService.cs:42 | The sales rep view keeps the id. The reverse map turns the view back into the same record. |
| `Domain.DtoRoundTrips` | ACME.Customers.Application/Mapping/MappingProfile.cs:12-17 | Mapping a transfer object to an entity and back gives the same transfer object, for clients and for sales reps. With the ensures of `ToClientDto` and `ToSalesRepDto`, the two maps are inverse to each other. |
| `Database.AssociationsAfterInsert` | ACME.Customers.Infrastructure/Repositories/SalesRepRepository.cs:32-36 | Inserting a new client adds exactly its id to its own rep's loaded clients. Every other rep's clients stay the same. |
| `Database.AssociationsAfterOverwrite` | ACME.Customers.Infrastructure/Repositories/SalesRepRepository.cs:32-36 | Overwriting a client adds it to the new rep's loaded clients. If the rep changed, it leaves the old rep's clients. Every other rep's clients stay the same. |
| `Database.AssociationsAfterRemove` | ACME.Customers.Infrastructure/Repositories/SalesRepRepository.cs:32-36 | Removing a client takes its id out of every rep's loaded clients and changes nothing else in them. |
| `Database.RemoveUnreferenced` | ACME.Customers.Application/Services/SalesRepService.cs:92-102 | Removing a sales rep that no client references keeps every client's reference resolvable. |
| `Database.ClientViewsExact` | ACME.Customers.Application/Services/ClientService.cs:37-38 | A view is among the mapped list exactly when it is the mapping of the row stored under its id. |
| `Database.ClientViewsCount` | ACME.Customers.Application/Services/ClientService.cs:37-38 | Mapping the client rows to views merges no two rows: the number of views equals the number of rows. |
| `Database.SalesRepViewsExact` | ACME.Customers.Application/Services/SalesRepService.cs:34-35 | A view is among the mapped list exactly when it is the mapping of the row stored under its id. |
| `Database.SalesRepViewsCount` | ACME.Customers.Application/Services/SalesRepService.cs:34-35 | The number of sales rep views equals the number of rows. |
| `Database.EnumerationExists` | ACME.Customers.Application/Services/SalesRepService.cs:94 | A rep's set of clients can always be listed in some order, with each client exactly once. |
| `Database.EnumerationLength` | ACME.Customers.Application/Services/SalesRepService.cs:94-98 | A listing without repeats is as long as the set it lists, so the reported count is the number of blocking clients. |
| `Database.FreshIdExists` | ACME.Customers.Application/Services/ClientService.cs:61 | There is always an identifier that no row of a table uses yet. This is the uniqueness that `Guid.NewGuid()` is relied on for. |
| `Database.UpperBound` | ACME.Customers.Application/Services/SalesRepService.cs:52 | Every finite set of identifiers has a strict upper bound. So an unused sales rep id always exists; `Create` may pick any unused id, above the bound or below it. |
| `Text.Join` | ACME.Customers.Application/Services/SalesRepService.cs:95 | The empty list gives the empty text. Otherwise the text starts with the first name, and its length is the names' total length plus one separator per gap. A single name gives just that name. The round trip is in `SplitJoin`. |
| `Text.FirstSeparatorAfterName` | ACME.Customers.Application/Services/SalesRepService.cs:95 | A step of the `Join` round trip: in `name + ", " + rest`, where the name has no ", ", the first separator is the one right after the name. |
| `Text.SplitJoin` | ACME.Customers.Application/Services/SalesRepService.cs:95 | Splitting the joined list at ", " gives back exactly the names, in order, when no name contains ", ". So the message names every blocking client. |

## Left out

- HTTP controllers: the mapping from outcomes to status codes is left out.
  `ClientsController` turns `ReferenceNotFound` into 400. `SalesRepsController.Delete`
  does not catch the blocked-delete exception, so that failure reaches the web
  framework as an unhandled error.
- The Entity Framework repositories, `CustomersDbContext` and `UnitOfWork` are
  left out. Their lookups, inserts, updates, removals and commit become direct
  updates of the two maps.
- The seeded default sales rep is left out: the store starts empty.
- `DeleteBehavior.Restrict` and the column length limits are left out. The
  database enforces them, not the services.
- FluentValidation is left out; no field rules are modelled.
- Null-request checks (`ArgumentNullException`) are left out: a datatype value
  cannot be null.
- The second null check after a successful existence check in both `UpdateAsync`
  methods is left out. One operation at a time, the row found by the existence
  check is still there, so that branch cannot be taken.
- Asynchrony and concurrency are left out. This includes the window between the
  existence check and the write, in which a concurrent delete could leave a
  dangling reference. The model runs one operation at a time.
- `Guid` and `DateTime` internals are left out. Identifiers are abstract tokens
  with a freshness guarantee. Dates are compared only for equality.
- The Spanish wording of the exception messages is left out, including the
  decimal rendering of the count. The failure carries the count, the names and
  the joined list as separate values.
- SalesRepServices.SalesRepService.Delete: the order of the blocking names is
  left to storage. The contract says only that every blocking client appears
  exactly once.
- ClientServices.ClientService.GetAll and SalesRepServices.SalesRepService.GetAll:
  these return sets, because the order of the listing is left to storage.
