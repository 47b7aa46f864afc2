# Portfolios API: a Dafny model of the controller

The repository is a small CRUD HTTP API for "portfolio" records (a name,
an optional description, an optional list of skills and two timestamps).
The records live in one DynamoDB table keyed by `id`. This project models
the six request handlers of the portfolios controller: list, get by id,
the distinct-skills aggregate, create, update and delete. It also models
the table they talk to, with the documented meaning of the five commands
they send. It proves what each handler answers and what it leaves in the
table.

Modules, leaf first:

- `Wrappers` (`wrappers.dfy`): `Option` (a JavaScript `undefined` field) and `Result` (an outcome or an error).
- `PortfolioModel` (`portfolio_model.dfy`): the `Portfolio` record and the create and update payloads. The document client is configured to drop `undefined` attributes, so `name`, `description` and `skills` are `Option`s: an attribute is either stored with a value or absent. No validation runs before the handlers, so a create body without `name` is stored as a record without `name`.
- `DocumentTable` (`document_table.dfy`): the table as a class `Table` holding a `map<string, Portfolio>`, with methods for Scan, Get, Put, Update and Delete. `Execute` states what the store does with a `SET` update expression and `ReturnValues: 'ALL_NEW'`. It rejects what the store rejects: an empty expression, a placeholder with no entry, an entry no action uses, two actions on one attribute, and any write to the key. It also refuses, with `OutsideSchema`, a write the typed record cannot hold (an unknown attribute, or a value of the wrong type). The store itself would accept such a write; the update handler never sends one. Otherwise it returns the merged item.
- `UpdateExpression` (`update_expression.dfy`): the update-expression builder. It is a method that pushes actions and fills the two placeholder maps step by step, as the handler does. Its specification is declarative:
  - `Assignments` lists what an update writes.
  - `Actions`, `AttributeNames` and `AttributeValues` give the command parts for that list.
  - `Merge` is the record the update is meant to produce.
  - The lemmas prove that the actions come in the fixed order name, description, skills, updatedAt, and that there is one action per supplied field plus one.
  - They prove that every placeholder used has an entry in both maps, and that every entry is used.
  - They prove that the store, running the built command against any stored item, produces exactly `Merge`.
- `Skills` (`skills.dfy`): `Flatten` joins the items' skills in scan order. `Dedup` gives the contents of a JavaScript `Set` after adding those skills in that order. The lemmas prove that the result has no duplicates, holds exactly the skills some item has, lists them in first-occurrence order, and that an item without skills contributes nothing.
- `PortfoliosController` (`portfolios_controller.dfy`): the handlers, each returning a `Response(status, body)`. `Lifecycle` is a small client: create, read, rename, read, delete, then get returns 404.

The random id (`uuidv4()`) and the clock readings (`new Date().toISOString()`) are parameters of the handlers. The table's scan order is chosen by the store: `Table.Scan` picks the items in an arbitrary order. For that reason `GetAllPortfolios` and `GetAllSkills` are methods that call it. `GetPortfolioById` is a plain lookup, so it is a function.

Where the code and the API's stated design differ, the model follows the code:

- Create reads the clock twice (src/controllers/portfolios.controller.ts:65-66). So the model does not state `createdAt == updatedAt`.
- Update does not guarantee that `updatedAt` increases. The model only states that it becomes the supplied timestamp.
- The skills aggregate keeps first-occurrence order, because `Array.from` of a `Set` enumerates elements in insertion order. The model proves that order rather than "order not guaranteed".
- No validation runs before the handlers (src/routes/portfolios.routes.ts:13-23), and the controller trusts the payload as it comes. So `POST {}` is not answered 400: it stores a record with no `name` and answers 201 with it. The model states this, because `name` is an `Option` in both the create payload and the record.
- `getAllSkills` is not registered as a route. The model states nothing about routes.

## Model

| member | source | states |
|---|---|---|
| `DocumentTable.Table.Scan` | src/controllers/portfolios.controller.ts:13-16 | ScanCommand returns every stored item, one per stored key, with no repeats, in an order the store chooses |
| `DocumentTable.Table.Get` | src/controllers/portfolios.controller.ts:26-30 | GetCommand gives the item stored under the id, or nothing exactly when the id is absent |
| `DocumentTable.Table.Put` | src/controllers/portfolios.controller.ts:68-72 | PutCommand inserts the item under its id or replaces the one there; all other entries are unchanged |
| `DocumentTable.Table.Update` | src/controllers/portfolios.controller.ts:119-128 | UpdateCommand on an existing item stores and returns the merged item (ALL_NEW) when `Execute` succeeds; on a validation error nothing changes |
| `DocumentTable.Table.Delete` | src/controllers/portfolios.controller.ts:149-153 | DeleteCommand removes the id; all other entries are unchanged |
| `DocumentTable.Execute` | src/controllers/portfolios.controller.ts:119-126 | a successful SET update never changes the key, uses at least one action, and uses exactly the placeholders the two maps define; otherwise one of the store's validation errors (`UpdateError`) |
| `UpdateExpression.BuildUpdateExpression` | src/controllers/portfolios.controller.ts:95-117 | the pushed actions and the two maps are exactly `Actions`, `AttributeNames` and `AttributeValues` of `Assignments(payload, now)`: one assignment per supplied field, then `updatedAt` |
| `UpdateExpression.AppendAssignment` | src/controllers/portfolios.controller.ts:99-103 | recording one field pushes its `#x = :x` action and adds `#x -> x` and `:x -> value` to the maps |
| `UpdateExpression.ClauseOrder` | src/controllers/portfolios.controller.ts:99-117 | the actions come in the fixed order name, description, skills, updatedAt (strictly increasing rank) |
| `UpdateExpression.ClauseCount` | src/controllers/portfolios.controller.ts:115-122 | there are supplied-fields + 1 actions, the last writes `updatedAt`, and the expression text is never a bare `SET ` |
| `UpdateExpression.ClausePresence` | src/controllers/portfolios.controller.ts:99-113 | the action for name, description or skills is present exactly when the payload supplies that field |
| `UpdateExpression.EmptyExpressionText` | src/controllers/portfolios.controller.ts:115-122 | with no field supplied the expression is `SET #updatedAt = :updatedAt` |
| `UpdateExpression.PlaceholdersDefined` | src/controllers/portfolios.controller.ts:99-117 | the name map's keys are exactly the `#x` placeholders used and the value map's keys exactly the `:x` placeholders used |
| `UpdateExpression.NamesResolve` | src/controllers/portfolios.controller.ts:101-116 | the name map resolves each field's `#x` to the attribute `x` |
| `UpdateExpression.ValuesResolve` | src/controllers/portfolios.controller.ts:102-117 | when no attribute is written twice, the value map resolves each field's `:x` to the value the payload (or the clock) supplied |
| `UpdateExpression.ApplyAssignments` | src/controllers/portfolios.controller.ts:119-128 | with maps that resolve every placeholder correctly, the store's actions perform the assignments in order |
| `UpdateExpression.AssignmentsMerge` | src/controllers/portfolios.controller.ts:99-117 | performing the assignments gives `Merge`: supplied fields replaced, unsupplied ones kept, `updatedAt` the new time, id and createdAt kept |
| `UpdateExpression.TargetsDistinct` | src/controllers/portfolios.controller.ts:99-117 | when no attribute is assigned twice, no two actions name the same attribute, so the store finds no overlapping paths |
| `UpdateExpression.ExecuteAssignments` | src/controllers/portfolios.controller.ts:119-128 | a non-empty list of assignments with no attribute twice, sent as actions and maps, is executed by the store as those assignments |
| `UpdateExpression.ExecuteBuiltUpdate` | src/controllers/portfolios.controller.ts:95-129 | the command the builder produces, executed against any stored item, succeeds and yields exactly the merged record |
| `Skills.DedupElements` | src/controllers/portfolios.controller.ts:47-51 | the de-duplicated list holds exactly the elements of the input |
| `Skills.DedupNoDuplicates` | src/controllers/portfolios.controller.ts:47-51 | the de-duplicated list holds no element twice |
| `Skills.DedupFirstOccurrence` | src/controllers/portfolios.controller.ts:47-51 | the de-duplicated list is ordered by each element's first occurrence in the input |
| `Skills.FlattenContains` | src/controllers/portfolios.controller.ts:48-50 | a skill is in the flattened list exactly when some item has it |
| `Skills.MissingSkillsContributeNothing` | src/controllers/portfolios.controller.ts:49 | leaving out an item without skills changes neither the flattened list nor the aggregate |
| `PortfoliosController.GetAllPortfolios` | src/controllers/portfolios.controller.ts:11-21 | status 200 with a scan of the table (every item once, as many as there are keys); an empty list, not an error, for an empty table; the table is not modified |
| `PortfoliosController.GetPortfolioById` | src/controllers/portfolios.controller.ts:23-37 | status 404 with `Portfolio not found` exactly when the id is absent, else 200 with the stored item unchanged; reads only |
| `PortfoliosController.GetAllSkills` | src/controllers/portfolios.controller.ts:40-55 | status 200 with skills that have no duplicates, are exactly the union of all items' skills, and are in first-occurrence order over a scan of the table; the table is not modified |
| `PortfoliosController.CreatePortfolio` | src/controllers/portfolios.controller.ts:57-77 | stores under the new id the record with the payload's name, description and skills (each absent when the body leaves it out) and the given timestamps, leaves every other key untouched, and answers 201 with exactly the stored record |
| `PortfoliosController.UpdatePortfolio` | src/controllers/portfolios.controller.ts:79-133 | absent id: 404 and the table unchanged; present id: the stored item becomes `Merge(old, payload, now)`, every other entry is unchanged, and the answer is 200 with that record |
| `PortfoliosController.DeletePortfolio` | src/controllers/portfolios.controller.ts:135-158 | absent id: 404 and the table unchanged; present id: 204 with no body, the id removed, every other entry unchanged |
| `PortfoliosController.Lifecycle` | src/controllers/portfolios.controller.ts:57-158 | create, then update of the name, then delete: reads in between (strongly consistent, as modelled) see the payload's fields and then the new name; afterwards get answers 404 |

## Left out

- Server shell: CORS, JSON parsing, request logging, static files (src/app.ts:10-20) are transport concerns with no logic to verify.
- Routing (src/routes/index.ts, src/routes/portfolios.routes.ts): the handlers are modelled directly; no claim is made about which route reaches them.
- Error and not-found responders (src/middleware/error.middleware.ts): header setting and serialisation are left out. A store validation error on update becomes status 500 with its message, which is the middleware's default. `ExecuteBuiltUpdate` proves that error cannot occur.
- Validation: src/utils/validation is not part of this model, and the middleware that calls it is not wired into any route. No field limits are modelled.
- src/models/portfolio.model.ts and src/types/portfolio.d.ts are not part of this model. The field types follow how the controller uses them.
- Store failures (transport, throttling, credentials) passed on with `next(err)` are not modelled: every command succeeds apart from `Execute`'s validation errors. The client setup in src/config/data-source.ts is left out, except that undefined attributes are dropped.
- Concurrency: the check-then-act gap between the existence check and the update or delete is not modelled. The model does both steps atomically.
- Randomness and time: the id and the timestamps are parameters. Nothing is stated about their uniqueness or order.
- JSON bodies are typed payloads. A JSON `null` field, which passes the `!== undefined` test and would be written as a NULL attribute, is not modelled. Neither are attributes outside the Portfolio schema, nor fields of another JSON type (a number as `name`, say).
- DocumentTable.Execute: the store's parsing of the expression text is not modelled. The command carries its actions already parsed, and `UpdateExpressionText` gives the text that would be sent. The `UpdateError` messages paraphrase the store's, except `OutsideSchema`, which is a refusal only the model makes: the store has no schema beyond the key and would store such a write. No handler sends one.
- DocumentTable.Table.Get: Get and Scan are modelled as strongly consistent, so every read sees every earlier write. The source sets no `ConsistentRead`, and the store's default for both commands is an eventually consistent read. A read may then miss a recent write. That includes the existence checks of update and delete on a just-created item. `Lifecycle`'s claims about the reads after create, after the rename and after the delete rely on this strong consistency.
- DocumentTable.Table.Update: requires the id to be stored. The store's insert-on-absent-key behaviour is not modelled, because the handler checks existence first and a partial record cannot be represented.
- DocumentTable.Table.Scan: models a complete scan. The store returns at most one page per call, and the handlers never follow `LastEvaluatedKey`. So on a table larger than one page, the handlers see only the first page.
- `result.Items || []`: a scan in the model always yields a sequence, so the fallback is not needed.
