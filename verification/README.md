# Contacts GraphQL API — a Dafny model of its resolvers

The system is a small GraphQL service over a MongoDB `users` collection of
contacts (`nombre`, `telefono`, `pais`, `horaActual`). Its logic lives in the
resolvers: two queries (`getContacts`, `getContact`) and three mutations
(`addContact`, `updateContact`, `deleteContact`). The two phone-writing
mutations also ask a phone-validation service for the phone's country, and a
world-time service for that country's current time.

This project models those resolvers as pure transitions:

- `types.dfy` (`Types`): the contact record, a contact with its identifier,
  the replies of the two services, the GraphQL errors, and `Result`/`Option`.
- `store.dfy` (`Store`): the collection as a finite map from identifier to
  contact. It also holds the collection operations the resolvers use:
  count by phone, insert, set fields by identifier, delete by identifier.
  It defines the phone-uniqueness invariant `PhonesUnique`.
- `services.dfy` (`Services`): the helpers `validarTelefono` and
  `conseguirHora`. Each service is an oracle: a function from the query
  argument to the reply (HTTP status plus the JSON fields used).
- `resolvers.dfy` (`Resolvers`): the five resolvers. Each takes the collection
  and an `Env` and returns `Step(store, reply)`: the collection afterwards and
  either a value or an error. `Env` holds the `API_KEY` setting, the
  identifier check `ObjectId.isValid` (an abstract predicate), and the two
  service oracles. `addContact` also takes the identifier the collection
  generates for the new document; it must be fresh.
- `properties.dfy` (`Properties`): lemmas that relate several calls.
- `sessions.dfy` (`Sessions`): a sequence of requests served one after
  another, and the invariants that hold across it.

Notes on how the code reads:

- A phone update is refused when *any* stored contact holds the phone, the
  target included. The check at resolvers.ts:179-182 lets the target's own
  phone through, but `validarTelefono` (resolvers.ts:184, 39-42) then counts
  every holder. `Properties.UpdateToOwnPhoneFails` states the consequence.
- "Given" follows JavaScript truthiness: an empty `nombre` or `telefono`
  counts as absent, both for "nothing to update" and for choosing the
  name-only path and keeping the old name (the `||` at resolvers.ts:197).
- A missing `API_KEY` and an empty one are both refused (`!API_KEY`).

## Model

| member | source | states |
|---|---|---|
| `Store.CountByPhone` | resolvers.ts:39-40 | the document count for a phone is positive exactly when some stored contact has that phone, and at most one while phones are unique |
| `Store.HoldersCount` | resolvers.ts:39-40 | a phone has a holder exactly when it is taken; under the uniqueness invariant it has at most one holder |
| `Store.Insert` | resolvers.ts:121-126 | inserting under an identifier not yet stored adds exactly that key, holding the new contact, and keeps every other document |
| `Store.UpdateOne` | resolvers.ts:193-203 | setting the fields of a stored identifier replaces that document only; the keys and every other document stay the same |
| `Types.MessagesDistinct` | resolvers.ts:30-181 | no two errors of the model share a message, so at the model's error granularity the message tells a client which failure happened; it covers one spelling per error, and `ServiceError` ("API Ninja Error", resolvers.ts:30 and 50) does not say which service failed |
| `Store.DeleteOne` | resolvers.ts:225-231 | deleting by identifier removes only that key, keeps every other document, and reports a deleted count of 1 exactly when the key was present |
| `Services.ConseguirHora` | resolvers.ts:24-34 | the time lookup succeeds exactly on status 200 and then yields the reply's `datetime`; any other status is a service error |
| `Services.ValidarTelefono` | resolvers.ts:37-58 | a phone some stored contact already has is refused as already registered, before the service is asked; then a non-200 status is a service error and `is_valid = false` is "not valid"; a returned reply is always valid |
| `Resolvers.ValidateAndLocate` | resolvers.ts:115-119 | the validation-then-time sequence succeeds exactly when the phone is free and both services accept; it then yields the reported country and that country's time; each failure carries its own error |
| `Resolvers.GetContacts` | resolvers.ts:63-70 | the listing holds every stored contact exactly once, with its identifier and stored fields, and nothing else |
| `Resolvers.GetContact` | resolvers.ts:72-92 | a malformed identifier is refused first, an absent one is not found, otherwise the stored contact is returned under that identifier |
| `Resolvers.AddContact` | resolvers.ts:101-136 | credential, then phone uniqueness, then validation status and validity, then time status, each failing with the collection unchanged; success inserts exactly one new identifier holding the given name and phone and the derived country and time, returns it, changes no other entry, and keeps phones unique |
| `Resolvers.UpdateContact` | resolvers.ts:137-211 | checks in order: something to update, credential, identifier syntax, presence; the name-only path changes only `nombre`; the phone path refuses a phone held by another contact or by the target itself, then raises a service error on a non-200 validation, "not valid" on `is_valid = false` and a service error on a non-200 time lookup; on success it rewrites phone, country and time from the services and keeps the old name unless a non-empty one is given; no other entry changes, the keys stay the same, failures leave the collection unchanged, phones stay unique |
| `Resolvers.DeleteContact` | resolvers.ts:214-234 | a malformed identifier is refused; otherwise the reply is true exactly when the identifier was stored, only that entry is removed, and a false reply leaves the collection unchanged |
| `Properties.AddThenGet` | resolvers.ts:117-134 | a contact just added reads back field for field under the returned identifier |
| `Properties.DeleteThenGet` | resolvers.ts:221-233 | deleting a stored contact answers true, and reading it afterwards reports not found |
| `Properties.UpdateThenGet` | resolvers.ts:167-203 | after a successful update, reading the contact shows the new name over the old phone, country and time (name-only path), or the new phone with the services' country and time and the given or old name (phone path) |
| `Properties.UpdateToOwnPhoneFails` | resolvers.ts:179-184 | updating a contact to its own current phone always fails with the collection unchanged, as "already registered" when phones are unique |
| `Properties.GetInvalidIdIgnoresStore` | resolvers.ts:79-81 | a malformed identifier is refused whatever the collection holds, so no lookup decides the answer |
| `Properties.UpdateNothingIgnoresEverythingElse` | resolvers.ts:145-147 | with neither a name nor a phone the update fails the same way whatever the identifier, credential and services |
| `Properties.NameOnlyUpdateAsksNoService` | resolvers.ts:168-176 | the name-only update's outcome does not depend on what either service would answer |
| `Properties.AddRegisteredPhoneAsksNoService` | resolvers.ts:39-42 | adding a registered phone fails the same way whatever the services would answer, so the check precedes every service call |
| `Sessions.RunKeepsPhonesUnique` | resolvers.ts:101-234 | served one request at a time, any sequence of queries and mutations keeps phones unique, whatever credential, identifier check and service answers each request meets |
| `Sessions.RunWithoutAddCreatesNoIds` | resolvers.ts:137-234 | a session without `addContact` ends with a subset of the identifiers it started with, whatever environment each request meets |

## Left out

- Process start-up (main.ts): reading `MONGO_URL`, connecting to MongoDB, starting the Apollo server. It is I/O only.
- The GraphQL schema (schema.ts) and the type declarations (types.ts). types.ts shapes `Contact`, `PhoneReply` and `TimeReply`. The schema is not modelled, though it has one consequence: it declares `Contact.id` (schema.ts:4), while the resolvers return documents that carry `_id` (resolvers.ts:68, 91, 129) and resolvers.ts defines no `Contact` resolver that maps one to the other.
- Document: its `id` stands for the `_id` the resolvers return, not for a field of the GraphQL reply. With no mapping from `_id` to `id`, a query that selects `id` on `getContacts`, `getContact` or `addContact` gets a non-null error from the GraphQL layer. `Resolvers.GetContacts`, `Resolvers.AddContact` and `Properties.AddThenGet` hold for the resolvers' return values, not for what a client receives.
- The HTTP requests themselves: URL building, the `X-Api-Key` header and JSON parsing. Each service is an oracle from its query argument to its reply. `country` and `datetime` are uninterpreted strings. The unused `timezones` field is dropped.
- The real `ObjectId` format and generation. Identifier validity is an abstract predicate. The generated identifier is a parameter that must not already be stored.
- Resolvers.GetContact: treats `new ObjectId(id)` as the identity on the textual identifier (resolvers.ts:84). Spelling differences the real conversion normalises, such as upper-case hex digits, are not modelled.
- Resolvers.UpdateContact: assumes the same identity at resolvers.ts:160, 170, 180 and 194. With an identifier the conversion normalises, `_id.toString() !== id` at resolvers.ts:180 holds for the target itself, and the source answers "El telefono ya existe" where the model answers `PhoneAlreadyRegistered`.
- Properties.UpdateToOwnPhoneFails: its "already registered" clause holds only for identifiers written as the collection prints them; for others the source refuses with "El telefono ya existe" (still a failure with the collection unchanged).
- Resolvers.DeleteContact: assumes the same identity at resolvers.ts:226.
- Failures of the collection calls (`countDocuments`, `findOne`, `find().toArray()`, `insertOne`, `findOneAndUpdate`, `deleteOne`) and of `fetch` itself, such as a lost connection. Such a rejection aborts the resolver with an error the model's `Error` type does not have; as modelled, `GetContacts` always answers and `DeleteContact` always answers a boolean for a well-formed identifier.
- Resolvers.UpdateContact: its reply carries no contact. The source returns whatever `findOneAndUpdate` returns, which is the pre-update document by default; the model states only the resulting collection.
- Resolvers.UpdateContact: models the check at resolvers.ts:179-182 as "some other contact holds the phone". This is exact while phones are unique. Once they are not, and both the target and another contact hold the phone, the source's error message depends on which document `findOne` returns first. The model reports `PhoneExists`. Either way the update fails and the collection is unchanged.
- The "not found after update" errors (resolvers.ts:174, 206): they need a concurrent delete between the lookup and the write, which a sequential model cannot produce.
- The second validity check on the update path (resolvers.ts:185-187): it can never fire, because `validarTelefono` only returns valid replies (stated by `Services.ValidarTelefono`).
- Concurrency: the read-then-write race between requests can break phone uniqueness in the real system. The model is sequential and claims uniqueness only for one call at a time.
- The order of `getContacts`: the listing is in the collection's natural order, which the model leaves open.
- Error message wording: one spelling per error; the resolvers vary accents and a trailing space.
