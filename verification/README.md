# Client and address registry — a Dafny model of its two controllers

The system is a small REST service that keeps a register of corporate
clients (cnpj, company name, contact name, phone) and the postal addresses
that belong to them. Each of its two controllers validates the JSON body
with a Joi schema (`abortEarly: false`), checks MongoDB identifiers, then
reads or writes the collection and answers with a status and a JSON body.

This project models those two controllers as pure functions:

- `Payload` — the request body as the handlers read it: each declared key is
  absent, a string, or some other JSON value.
- `Patterns` — the three regular expressions of the rule tables (cnpj,
  telefone, cep) as fixed-width token templates, with anchored and
  unanchored matching, each proved equal to a character-by-character
  reference reading.
- `Validation` — the rule interpreter: a schema is a table of field rules in
  declared order plus, for the updates, an "at least one field" rule.
  Validation reports at most one failure per field, in declared order, with
  the messages the handlers configure.
- `Storage` — the two collections as maps from identifier to record, the
  reply shapes, and the store invariants (unique cnpj, addresses referring
  to stored clients).
- `ClientController`, `AddressController` — the five handlers of each
  controller (create, list, read one, update, delete) as transitions from a
  store and a request to an `Outcome` (status, reply, next store), with the
  rule tables, message texts and the truthy-field merge of the updates.
- `Integrity` — which handlers keep every address pointing at a stored
  client, and the one that does not.

Two behaviours of the external libraries are parameters: the identifier
syntax check `mongoose.isValidObjectId` is the function `validId`, and the
`_id` the database generates for a new record is the argument `newId`.

Deleting a client does not delete its addresses: `delete`
(Client/index.ts:246) removes the client record only, and
`Integrity.ClientDeleteLeavesAddresses` shows the orphaned addresses that
result.

## Model

| member | source | states |
|---|---|---|
| Payload.Get | src/Controllers/Client/index.ts:10 | a key the body carries reads as its value; a key it does not carry reads as absent (`undefined`) |
| Payload.Pick | src/Controllers/Client/index.ts:213-224 | the `if (field) record.field = field` step: a truthy (non-empty string) value replaces the current one, anything else keeps it |
| Payload.Supplied | src/Controllers/Client/index.ts:213-224 | reference reading of a partial update: any supplied string replaces the current value, otherwise it is kept |
| Patterns.FindFrom | src/Controllers/Client/index.ts:16 | unanchored regex search: true exactly when the template matches at some position at or after `from` |
| Patterns.CnpjTemplateAt | src/Controllers/Client/index.ts:16 | the cnpj template matches at `j` exactly when 2, 3, 3 digits separated by any single UTF-16 code unit other than a line terminator, `/`, 4 digits, `-`, 2 digits start there |
| Patterns.CnpjMatchesIff | src/Controllers/Client/index.ts:16 | the cnpj rule accepts a string exactly when a cnpj-shaped run occurs somewhere in it (the regex is not anchored) |
| Patterns.AstralSeparatorRejected | src/Controllers/Client/index.ts:16 | a separator outside the Basic Multilingual Plane fails the cnpj's `.`, which reads one UTF-16 code unit |
| Patterns.CepTemplateAt | src/Controllers/Address/index.ts:72 | the cep template matches at `j` exactly when five digits, `-`, three digits start there |
| Patterns.CepMatchesIff | src/Controllers/Address/index.ts:72 | the cep rule accepts a string exactly when `NNNNN-NNN` occurs somewhere in it |
| Patterns.LandlineIff | src/Controllers/Client/index.ts:40 | a 14-character string matches the landline branch exactly when it is `(DD) NNNN-NNNN` with DDD digits 1-9 and first digit 2-8 |
| Patterns.MobileIff | src/Controllers/Client/index.ts:40 | a 15-character string matches the mobile branch exactly when it is `(DD) 9NNNN-NNNN` with second digit 1-9 |
| Patterns.TelefoneMatchesIff | src/Controllers/Client/index.ts:40 | the anchored telefone rule accepts exactly the landline and mobile shapes, nothing longer, shorter or with trailing text |
| Patterns.CnpjAccepted | src/Controllers/Client/Client.spec.ts:128-135 | the well-formed cnpj of the tests passes, and so does one with other separators in place of the dots (the regex's `.` is unescaped) |
| Patterns.CnpjUnanchored | src/Controllers/Client/index.ts:16 | a cnpj embedded in surrounding text passes |
| Patterns.TruncatedRejected | src/Controllers/Client/Client.spec.ts:56-62 | the truncated cnpj of the client tests and the truncated cep of the address tests (Address/Address.spec.ts:228) fail |
| Patterns.TelefoneExamples | src/Controllers/Client/Client.spec.ts:56-62 | the test suite's landline passes, a mobile number passes, the short number fails, a trailing space fails |
| Patterns.CepExamples | src/Controllers/Address/Address.spec.ts:55 | the test suite's cep passes, and so does one followed by more digits |
| Validation.FieldFailure | src/Controllers/Client/index.ts:14-46 | one field reports no failure exactly when the rule accepts it; a non-string reports the type message, an absent required field the required message |
| Validation.FieldErrors | src/Controllers/Client/index.ts:49-57 | with `abortEarly: false` the failures are at most one per field and none exactly when every field is accepted |
| Validation.Validate | src/Controllers/Client/index.ts:151-199 | the details are empty exactly when every field is accepted and, for an `.or` schema, some declared field is present; at most one entry per field plus one |
| Validation.Optional | src/Controllers/Client/index.ts:151-176 | the update rules are the create rules with `.required()` dropped, in the same order |
| Validation.DetailsOfExact | src/Controllers/Client/index.ts:62-64 | selecting one field's details keeps every entry under that field (the selection itself keeps no other); a list wholly under the field is kept whole, in order, and one with nothing under it gives nothing |
| Validation.DetailsOfAppend | src/Controllers/Client/index.ts:62-64 | selecting one field's details distributes over concatenation |
| Validation.FieldErrorsAppend | src/Controllers/Client/index.ts:49-57 | failures come in declared order: the failures of a table are those of its first part followed by those of the rest |
| Validation.FieldErrorsUndeclared | src/Controllers/Client/index.ts:49-57 | a key no rule declares never reports a failure |
| Validation.FieldErrorsPerField | src/Controllers/Client/index.ts:49-57 | the failures under a field are exactly that field's own failure, zero or one |
| Validation.FieldErrorsAllFail | src/Controllers/Client/index.ts:49-57 | when every field fails, the k-th detail is the k-th field's failure and there are as many details as fields |
| Validation.ValidatePerField | src/Controllers/Client/index.ts:182-197 | the same per-field reading holds for a whole schema, `.or` rule included |
| Validation.NonStringReportsTypeOnly | src/Controllers/Client/index.ts:19 | a non-string field reports the type message and nothing else |
| Validation.TooShortReportsMinimum | src/Controllers/Client/index.ts:23-30 | a non-empty string under the minimum reports the minimum message alone |
| Validation.PatternReport | src/Controllers/Client/index.ts:15-22 | a non-empty string passes a pattern field exactly when it matches, and otherwise reports the format message alone |
| Validation.NoneSuppliedReportsRequired | src/Controllers/Address/index.ts:24-94 | a body with none of the fields reports each required field as required, in declared order, and nothing for optional ones |
| Validation.NothingToUpdate | src/Controllers/Client/index.ts:177-180 | an update body with none of the fields reports one failure, under `Requisição`, with the `.or` message |
| Validation.ValidUpdateFieldsTruthy | src/Controllers/Client/index.ts:151-176 | in a valid update body every present field holds a non-empty string |
| Validation.ValidCreateFieldsTruthy | src/Controllers/Client/index.ts:14-47 | in a valid create body every required field holds a non-empty string |
| ClientController.CnpjInUse | src/Controllers/Client/index.ts:70-72 | a cnpj is in use exactly when it is among the cnpjs of the stored clients; an empty store uses none |
| ClientController.FromPayload | src/Controllers/Client/index.ts:82-87 | the new record holds each string field of the body as sent |
| ClientController.Merge | src/Controllers/Client/index.ts:213-224 | each of the four fields takes the body's value when it is truthy and keeps the stored one otherwise |
| ClientController.ValidCreateBody | src/Controllers/Client/index.ts:14-57 | a valid create body holds a non-empty string in each of the four fields |
| ClientController.ValidUpdateBody | src/Controllers/Client/index.ts:151-190 | in a valid update body each field is absent or a non-empty string |
| ClientController.MergeIsOverwrite | src/Controllers/Client/index.ts:213-224 | on such a body the truthy merge equals "every supplied field overwrites" |
| ClientController.DistinctFields | src/Controllers/Client/index.ts:14-47 | the four create rules have distinct names and are all required |
| ClientController.Create | src/Controllers/Client/index.ts:9-96 | 201 exactly when the body validates and no stored client has its cnpj; otherwise 400 with the details or the duplicate message and an unchanged store; on 201 one new client holding the four strings sent, everything else unchanged |
| ClientController.Read | src/Controllers/Client/index.ts:98-108 | 200 with every stored client; the store is unchanged |
| ClientController.ReadOne | src/Controllers/Client/index.ts:110-134 | invalid id, then not found, both 400; 200 with the stored record exactly when the id is valid and stored |
| ClientController.Update | src/Controllers/Client/index.ts:136-231 | id check, then validation, then lookup, each failure a 400 with the store unchanged; on 200 the record becomes the overwrite of the supplied fields, other clients and all addresses unchanged |
| ClientController.Delete | src/Controllers/Client/index.ts:233-257 | invalid id, then not found; on 200 exactly that client is removed and the addresses are untouched |
| ClientController.CreateEmptyBody | src/Controllers/Client/Client.spec.ts:35-52 | a body with none of the fields reports the four required messages in declared order (schema at Client/index.ts:14-57) |
| ClientController.NonStringField | src/Controllers/Client/index.ts:15-46 | a non-string field reports only its type message, on create and on update |
| ClientController.TooShortName | src/Controllers/Client/index.ts:23-38 | a one-character company or contact name reports the minimum-2 message alone |
| ClientController.CnpjReport | src/Controllers/Client/index.ts:15-22 | a non-empty cnpj is accepted exactly when it contains a cnpj-shaped run, otherwise reports the cnpj format |
| ClientController.TelefoneReport | src/Controllers/Client/index.ts:39-46 | a non-empty telefone is accepted exactly when it is a landline or mobile number, otherwise reports the telefone format |
| ClientController.UpdateEmptyBody | src/Controllers/Client/index.ts:177-199 | an update with an empty body and a valid id answers 400 with the single `Requisição` detail and changes nothing |
| ClientController.UpdateInvalidIdEmptyBody | src/Controllers/Client/index.ts:139-145 | an invalid id is rejected before the body is looked at |
| ClientController.MergeFields | src/Controllers/Client/index.ts:213-224 | the merge overwrites exactly the truthy supplied fields |
| ClientController.MergeIdempotent | src/Controllers/Client/index.ts:213-224 | applying the same update twice equals applying it once |
| ClientController.MergeNothingTruthy | src/Controllers/Client/index.ts:213-224 | with no truthy field the record stays as it was |
| ClientController.CreatePreservesUniqueCnpj | src/Controllers/Client/index.ts:70-89 | create keeps cnpjs unique across the stored clients |
| ClientController.SecondCreateSameCnpj | src/Controllers/Client/index.ts:70-80 | after a create, a second valid create with the same cnpj is refused with the duplicate message and changes nothing |
| ClientController.CreateThenReadOne | src/Controllers/Client/index.ts:82-133 | a created client reads back with the four fields it was given |
| ClientController.CreateThenList | src/Controllers/Client/index.ts:82-107 | creating one client in an empty store and listing returns exactly that client |
| ClientController.DeleteThenReadOne | src/Controllers/Client/index.ts:246-253 | a deleted client is no longer found |
| ClientController.UpdateCanDuplicateCnpj | src/Controllers/Client/index.ts:201-226 | update does not re-check uniqueness: a concrete update gives one client another's cnpj |
| AddressController.DistinctFields | src/Controllers/Address/index.ts:24-79 | the seven rules have distinct names, none of them the `Requisição` field of the `.or` failure |
| AddressController.ClientIdOk | src/Controllers/Address/index.ts:11-19 | a `clientId` that is not a string fails; a string passes exactly when it has identifier syntax |
| AddressController.FromPayload | src/Controllers/Address/index.ts:116-125 | the new record holds each string field of the body as sent, and `complemento` is `''` unless the body gives a truthy one |
| AddressController.Merge | src/Controllers/Address/index.ts:306-326 | each of the seven fields takes the body's value when it is truthy and keeps the stored one otherwise; the owning `clientId` never changes |
| AddressController.ValidCreateBody | src/Controllers/Address/index.ts:24-103 | a valid create body holds non-empty strings in the six required fields, and `complemento` absent or non-empty |
| AddressController.ValidUpdateBody | src/Controllers/Address/index.ts:212-291 | in a valid update body each field is absent or a non-empty string |
| AddressController.MergeIsOverwrite | src/Controllers/Address/index.ts:306-326 | on such a body the truthy merge equals "every supplied field overwrites" |
| AddressController.Create | src/Controllers/Address/index.ts:10-134 | invalid client id first, then validation, then unknown client, each a 400 with the store unchanged; 201 exactly otherwise, adding one address that names a stored client and holds the strings sent, `complemento` defaulting to `""` |
| AddressController.Read | src/Controllers/Address/index.ts:144-154 | 200 with every stored address; the store is unchanged |
| AddressController.ReadOne | src/Controllers/Address/index.ts:164-188 | invalid id, then not found, both 400; 200 with the stored record exactly when the id is valid and stored |
| AddressController.Update | src/Controllers/Address/index.ts:198-334 | id check, then validation, then lookup; on 200 the record becomes the overwrite of the supplied fields, its owner, the other addresses and the clients unchanged |
| AddressController.Delete | src/Controllers/Address/index.ts:344-370 | invalid id, then not found; on 200 exactly that address is removed and the clients are untouched |
| AddressController.NoFieldsDetails | src/Controllers/Address/index.ts:24-103 | a body with none of the seven fields reports the six required fields, in order, and nothing for `complemento` |
| AddressController.RequiredStep | src/Controllers/Address/index.ts:24-79 | one step of the required-failures list over the rule table |
| AddressController.CreateOnlyClientId | src/Controllers/Address/index.ts:11-103 | a valid client id and no fields gives 400 with exactly those six details |
| AddressController.CreateInvalidClientIdFirst | src/Controllers/Address/index.ts:11-19 | an invalid client id is answered the same whatever the other fields hold |
| AddressController.AllNonString | src/Controllers/Address/index.ts:24-94 | seven non-string fields give seven type details in declared order, on create and on update |
| AddressController.EmptyNumero | src/Controllers/Address/index.ts:33-40 | an empty `numero` reports the overriding minimum-1 message alone |
| AddressController.TooShort | src/Controllers/Address/index.ts:25-70 | a non-empty string under the minimum (5, 3, 3, 3, 2) reports that field's minimum message alone |
| AddressController.CepReport | src/Controllers/Address/index.ts:71-78 | a non-empty cep is accepted exactly when it contains `NNNNN-NNN`, otherwise reports the cep format |
| AddressController.UpdateEmptyBody | src/Controllers/Address/index.ts:255-291 | an update with an empty body and a valid id answers 400 with the single `Requisição` detail |
| AddressController.MergeFields | src/Controllers/Address/index.ts:306-326 | the merge overwrites exactly the truthy supplied fields and never the owner |
| AddressController.MergeIdempotent | src/Controllers/Address/index.ts:306-326 | applying the same update twice equals applying it once |
| AddressController.CreateThenReadOne | src/Controllers/Address/index.ts:116-188 | a created address reads back as the record the create returned |
| AddressController.CreateThenList | src/Controllers/Address/index.ts:116-154 | after a create the list holds the new address, as returned by the create, and every address held before |
| AddressController.DeleteThenReadOne | src/Controllers/Address/index.ts:358-366 | a deleted address is no longer found |
| Integrity.AddressCreateKeepsReferences | src/Controllers/Address/index.ts:108-127 | creating an address keeps every address pointing at a stored client |
| Integrity.AddressUpdateKeepsReferences | src/Controllers/Address/index.ts:306-328 | updating an address keeps every address pointing at a stored client |
| Integrity.AddressDeleteKeepsReferences | src/Controllers/Address/index.ts:358 | deleting an address keeps every address pointing at a stored client |
| Integrity.ClientCreateKeepsReferences | src/Controllers/Client/index.ts:82-89 | creating a client keeps every address pointing at a stored client |
| Integrity.ClientUpdateKeepsReferences | src/Controllers/Client/index.ts:213-226 | updating a client keeps every address pointing at a stored client |
| Integrity.ClientDeleteLeavesAddresses | src/Controllers/Client/index.ts:244-256 | deleting a client that has addresses leaves them in the store, pointing at no client |

## Left out

- The database connection, `connect`/`disconnect` and every `await`: the store is a value passed in and returned.
- The `catch` branches answering 500, and any database failure: the model has no failing store.
- Joi's default `string.empty` message for the fields that do not override it (all but `numero`): it is `JoiDefault("string.empty")`, its text is Joi's own.
- ClientController.ReadOne, ClientController.Update, ClientController.Delete, AddressController.ReadOne, AddressController.Update, AddressController.Delete, AddressController.Create: identifiers are compared as exact strings. `findById` first converts the string to an ObjectId, which ignores the case of hex digits and reads a 12-character string as raw bytes, so two different strings can name one document; the model treats them as different keys.
- `mongoose.isValidObjectId`: a parameter `validId`; a `clientId` that is not a string is treated as failing it.
- The `_id` generation, `__v`, timestamps and the geographic fields of the address schema: the fresh identifier is the parameter `newId`, the rest is not part of the replies modelled.
- The older controller `src/Controllers/Client.ts`, the routes, the server bootstrap and the API documentation are not part of this model.
- Payload.Truthy: only strings can reach a merge, so the truthiness of numbers, booleans and objects is not modelled.
- Validation.FieldFailure: Joi's `.min(n)` counts UTF-16 code units; the model counts Dafny characters, which differ only for characters outside the Basic Multilingual Plane.
- The order of a list reply: `find({})` returns documents in storage order; the model returns the map of all records.
