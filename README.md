# Employee controller with audit log (Dafny model)

A model of `FuncionarioController`, the ASP.NET controller behind the
`/Funcionario` endpoints. It serves four actions over employee records
(`Funcionario`): read by id (`ObterPorId`), create (`Criar`), update
(`Atualizar`) and delete (`Deletar`). Each mutating action first writes the
employee table through the database context. Only after that save succeeds
does it write one audit entry (`FuncionarioLog`) into a table store. The
entry holds a snapshot of the record, the action (`Inclusao`, `Atualizacao`
or `Remocao`), the department as partition key and a new Guid as row key.
The write is an upsert keyed by (partition key, row key). An entry under a
new key is added; one under a key already present replaces the stored
entry. If the audit write fails, the answer is a 500 but the database change
stays.

The files:

- `models.dfy` (module `Models`): the record, the audit entry, the action
  kind, nullable strings, and `string.IsNullOrWhiteSpace` with .NET's list of
  white-space characters.
- `actions.dfy` (module `Actions`): the two stores as one value `Db`, which
  holds a map from id to record and the audit log as a sequence. `LogEntry`
  is the one entry constructor the three mutating actions share, and
  `Upsert` is the keyed write into the audit table. The checks
  are defined twice: as an independent per-check predicate with a rank, and
  as the first-failure chain the controller runs. Each action is a pure
  transition function whose contract characterises every answer and its
  effect on both stores.
- `controller.dfy` (module `Controllers`): the class `FuncionarioController`.
  Its fields are the employee map and the audit log. Its methods follow the
  controller step by step: the checks, the lookup, the field-by-field copy,
  the save, then the audit write. Each method is proved to produce exactly
  the transition of its `Actions` function.
- `audit.dfy` (module `Audit`): the dual-write contract over any sequence of
  requests, proved by induction. A sequence is admissible when every insert
  gets an unused positive id and every audit write a row key not yet in the
  table. Under that assumption every upsert adds an entry.

Every store call inside a try block is a parameter of the action:

- `findOk`: the lookup inside `ObterPorId`'s try block.
- `saveOk`: `SaveChanges`.
- `logOk`: `UpsertEntity`.
- `newId`: the id the database assigns on insert, required positive and unused.
- `rowKey`: the generated Guid.

Answers are kinds, not HTTP objects: `Ok`, `Created`, `NoContent`,
`BadRequest` with the failing check, `NotFound`, and `ServerError` with the
store call that threw.

## Model

| member | source | states |
|---|---|---|
| `Actions.ValidateBody` | Controllers/FuncionarioController.cs:56-66 | the body checks run in the order null, name, email, salary. A None answer means no check fails. A Some answer names a check that fails, and no check earlier in the order fails |
| `Actions.ValidateUpdate` | Controllers/FuncionarioController.cs:98-111 | the same, with the `id <= 0` check ahead of the body checks |
| `Actions.ObterPorId` | Controllers/FuncionarioController.cs:33-51 | `id <= 0` gives 400 InvalidId. A failing lookup gives 500. A missing id gives 404. A present id gives 200 with exactly the stored record. Being a function of the stores, it changes neither |
| `Actions.Upsert` | Controllers/FuncionarioController.cs:85 | UpsertEntity on the audit table. With a key (partition key, row key) not yet present, the entry is added at the end. With a key already present, the table keeps its size and the new entry takes that key's place. In both cases the new entry is in the table and every entry under another key stays where it was |
| `Actions.Criar` | Controllers/FuncionarioController.cs:54-93 | a rejected body or a failed save leaves both stores unchanged. A committed insert adds exactly the new id, keeps every other record and copies the body's six fields. One Inclusao entry, partitioned by the record's department, is upserted exactly when the answer is 201, and the 201 names the new id and record. The store invariant (positive ids, each record under its own id) is kept |
| `Actions.Atualizar` | Controllers/FuncionarioController.cs:96-151 | every check runs before the lookup. Rejection, 404 and a failed save change nothing. A committed update rewrites only that id's record, keeping its id and taking the six sent fields. One Atualizacao entry holding the updated record, partitioned by its new department, is upserted exactly when the answer is the empty 200 |
| `Actions.Deletar` | Controllers/FuncionarioController.cs:154-189 | 400 for `id <= 0` and 404 for a missing id, changing nothing. A committed delete removes exactly that id. One Remocao entry holding the pre-deletion record and department is upserted exactly when the answer is 204 |
| `Controllers.FuncionarioController.constructor` | Controllers/FuncionarioController.cs:16-21 | the controller starts over the given stores, with the store invariant |
| `Controllers.FuncionarioController.ObterPorId` | Controllers/FuncionarioController.cs:33-51 | answers as `Actions.ObterPorId` on the current stores; a 200 carries the stored record; it modifies nothing |
| `Controllers.FuncionarioController.Criar` | Controllers/FuncionarioController.cs:54-93 | the new stores and the answer are those of `Actions.Criar` on the old stores; keeps the store invariant |
| `Controllers.FuncionarioController.Atualizar` | Controllers/FuncionarioController.cs:96-151 | the new stores and the answer are those of `Actions.Atualizar` on the old stores; keeps the store invariant |
| `Controllers.FuncionarioController.Deletar` | Controllers/FuncionarioController.cs:154-189 | the new stores and the answer are those of `Actions.Deletar` on the old stores; keeps the store invariant |
| `Audit.Step` | Controllers/FuncionarioController.cs:33-189 | any single admissible request keeps the store invariant. An answer that commits nothing leaves both stores as they were. A fully successful mutation appends exactly one well-formed entry of its own action kind. Any other answer appends nothing |
| `Audit.Run` | Controllers/FuncionarioController.cs:33-189 | a sequence of requests keeps the store invariant and gives one answer per request |
| `Audit.LogIsAppendOnly` | Controllers/FuncionarioController.cs:33-189 | over any admissible sequence of requests the audit log only grows, and earlier entries stay in place |
| `Audit.StepAppendedKinds` | Controllers/FuncionarioController.cs:137-150 | what one request appends is one entry of its answer's action kind if the mutation fully succeeded, and nothing otherwise |
| `Audit.AppendedKindsFollowResponses` | Controllers/FuncionarioController.cs:33-189 | over any admissible sequence of requests, the appended entries record, in order, exactly the action kinds of the 201, empty-200 and 204 answers |
| `Audit.AppendedEntriesWellFormed` | Controllers/FuncionarioController.cs:80 | every appended entry's partition key is its snapshot's department, and the snapshot has a database-assigned positive id |
| `Audit.NoEntryWithoutCommit` | Controllers/FuncionarioController.cs:33-189 | over any admissible sequence of requests, the number of entries the audit table gains never exceeds the number of answers after which a primary change was committed, and equals it when no audit write failed |
| `Audit.UncommittedRequestsChangeNothing` | Controllers/FuncionarioController.cs:33-189 | a sequence of requests none of which commits (rejections, 404s, failed reads and saves) leaves both stores exactly as they were |
| `Audit.LogFailureKeepsPrimaryChange` | Controllers/FuncionarioController.cs:141-148 | a failed audit write leaves the employee table as a successful one would and the log untouched. Its 500 is given exactly where the mutation would otherwise have succeeded |
| `Audit.CreatedIsObtainable` | Controllers/FuncionarioController.cs:92 | after a committed insert, even one whose audit write failed, GET on the new id returns the record with the posted fields. A 201 references a record GET returns |
| `Audit.UpdatedIsObtainable` | Controllers/FuncionarioController.cs:118-130 | after a committed update, GET on the id returns a record with that id and the six sent fields |
| `Audit.DeletedIsNotFound` | Controllers/FuncionarioController.cs:165-188 | after a committed delete, GET on the id answers 404. When the audit write succeeded, the table holds a Remocao entry carrying the record GET returned before the delete |

## Left out

- Routing, the framework's result objects and the Portuguese messages. Answers are kinds, and a 400 carries the check that failed.
- The constructor's configuration reads and `GetTableClient` (lines 16-30). They are configuration and table-client plumbing; the audit table is a sequence that the actions write to through `Upsert`.
- `GetTableClient`/`CreateIfNotExists` and the `Find` calls in Atualizar and Deletar (lines 113, 159, 79, 137, 175) are assumed not to throw. They lie outside the try blocks, so a failure there would escape the controller rather than become a 500.
- Entity Framework change tracking. A failed `SaveChanges` is modelled as leaving the table unchanged. The in-memory changes to the tracked entity (lines 68 and 118-124) are not observable afterwards and are not modelled.
- Id assignment: the database supplies `newId`, a positive id not in use. The id the client posts is ignored. The Entity Framework behaviour for a client-supplied key is not modelled.
- `Guid.NewGuid()`: the row key is a parameter. The code promises nothing about its uniqueness. The single actions handle a repeated key by replacing the stored entry. Only the sequence lemmas assume a new key per write.
- `Funcionario` and `FuncionarioLog` are not part of this model beyond what the controller uses. The record has an id and the six copied fields. Text fields are nullable strings and `Salario` (a decimal) is a real, so decimal precision and range are not modelled. The entry is modelled as its four constructor arguments.
- Upsert mode: `UpsertEntity` is called in its default merge mode. The model replaces the stored entry under a repeated key outright. A property-level merge is not modelled, because the properties of `FuncionarioLog` are not part of this model. The sequence lemmas in `audit.dfy` assume each row key is new, which the Guid makes near-certain; the single-request functions in `actions.dfy` do not assume it.
- Requests arriving concurrently. Each request is one atomic transition.
