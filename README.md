# Task lifecycle of the to-do backend, in Dafny

This project models the core of the to-do list backend: the life of a *task* (a title and/or
description, a status, an owner and two timestamps) from creation through partial updates to
deletion, together with the schema validation that guards every write.

- `results.dfy` (`Results`): `Option`, the backend's error classes (`Error`, `ValidationError`,
  `NotFoundError`) and a `Result` that either returns or throws one of them.
- `values.dfy` (`JsValues`): JavaScript values and plain objects (`Record = map<string, Value>`),
  truthiness, property reads (a missing property reads as `undefined`) and the validator's test
  of presence (present and not `undefined`).
- `strings.dfy` (`Strings`): substring search (what the schemas' unanchored `pattern` decides)
  and `replace('/', '')` (which removes only the first `/`).
- `task_schemas.dfy` (`TaskSchemas`): the `create` and `update` schemas as declarative constants;
  the keywords they use (`type`, `minLength`/`maxLength`, `pattern`, `properties`,
  `additionalProperties: false`, `required` inside `anyOf`, as in JSON Schema Validation
  draft-07 sections 6.3.1-6.3.3, 6.5.3, 6.5.4, 6.5.6 and 6.7.2) as the set of errors a validator
  reports; and for each schema a field-by-field predicate (`ValidCreate`, `ValidUpdate`) proved
  to accept exactly what the schema accepts.
- `validate.dfy` (`Validation`): `validate(schema, data)` as a class holding the module-level
  cache of compiled schemas, proved against the pure function `ValidateResult`.
- `store.dfy` (`Store`): the task collection as a class over a map from id to document, with
  insert, delete-by-id and update-by-id.
- `task_controller.dfy` (`TaskController`): `create`, `deleteById` and `updateById` as methods
  over the store and the validator, each proved equal to a pure step function of the old store
  (`CreateStep`, `DeleteStep`, `UpdateStep`), and the lemmas about those functions.

The status `pattern` of both schemas is not anchored, so a status is checked by substring
search: `create` accepts any string containing `to_do`, and `update` any string containing
`to_do`, `in_progress` or `done`. The model follows the code here, so `update` lets a stored
status leave the three values the task type lists (`TaskSchemas.UpdateAcceptsUnlistedStatus`).
`create` never exposes this, because it always writes `to_do` itself.

The clock reading (`new Date().valueOf()`) is the parameter `now`. The id check
(`ObjectId.isValid`) is a function parameter `isValidId`. Which error the validator lists first is
a choice function `first` fixed when the validator is built. Whether the store's update returns
the document before or after the update is the store's `returnsUpdated` flag.

## Model

| member | source | states |
|---|---|---|
| `Strings.ContainsIff` | backend/src/services/validation/schemas/task.ts:8 | the substring search behind an unanchored pattern finds `sub` exactly when `sub` occurs at some index of `s` |
| `Strings.RemoveFirstAbsent` | backend/src/services/validation/validate.ts:44 | `replace('/', '')` leaves a path without `/` unchanged |
| `Strings.RemoveFirstAt` | backend/src/services/validation/validate.ts:44 | `replace('/', '')` removes exactly the character at the first `/` and keeps every later one |
| `TaskSchemas.RuleViolationsEmpty` | backend/src/services/validation/schemas/task.ts:4-9 | a property value draws no error exactly when it has the sub-schema's type, its length is within `minLength`/`maxLength` and it matches the `pattern` |
| `TaskSchemas.ViolationsEmpty` | backend/src/services/validation/schemas/task.ts:1-32 | a schema reports no error exactly when the data is an object with no undeclared key, every present declared property satisfies its sub-schema, and some `anyOf` branch has all its required properties |
| `TaskSchemas.CreateSchemaMeaning` | backend/src/services/validation/schemas/task.ts:1-16 | the `create` schema accepts exactly the objects satisfying the field-by-field predicate `ValidCreate` |
| `TaskSchemas.UpdateSchemaMeaning` | backend/src/services/validation/schemas/task.ts:18-32 | the `update` schema accepts exactly the objects satisfying the field-by-field predicate `ValidUpdate` |
| `TaskSchemas.CreateRejectsUnknownKey` | backend/src/services/validation/schemas/task.ts:3-11 | `create` rejects any record with a key outside title, description, createdAt, lastModifiedAt, status and username |
| `TaskSchemas.CreateRequiredFields` | backend/src/services/validation/schemas/task.ts:12-15 | an accepted record has createdAt, lastModifiedAt, status, username and a title or a description; a record with neither text is rejected |
| `TaskSchemas.CreateFieldBounds` | backend/src/services/validation/schemas/task.ts:4-9 | under `create` a title has 1..100 characters, a description 1..500, the owner 3..100, and both timestamps are numbers |
| `TaskSchemas.CreateStatusIff` | backend/src/services/validation/schemas/task.ts:8 | `create` accepts a status exactly when it is a string in which `to_do` occurs somewhere (other fields being acceptable) |
| `TaskSchemas.UpdateShape` | backend/src/services/validation/schemas/task.ts:19-31 | an accepted update has only title, description, status and lastModifiedAt keys, a numeric lastModifiedAt, one of title/description/status, and the title and description length bounds |
| `TaskSchemas.UpdateTimestampOnlyRejected` | backend/src/services/validation/schemas/task.ts:27-31 | an update with none of title, description and status is rejected |
| `TaskSchemas.UpdateStatusIff` | backend/src/services/validation/schemas/task.ts:23 | `update` accepts a present status exactly when it is a string in which `to_do`, `in_progress` or `done` occurs |
| `TaskSchemas.UpdateAcceptsUnlistedStatus` | backend/src/services/validation/schemas/task.ts:23 | `{status: 'undone', lastModifiedAt}` passes `update` although `undone` is none of the three statuses |
| `Validation.Validator.constructor` | backend/src/services/validation/validate.ts:25 | the cache of compiled schemas starts empty, and the validator's choice of the error it lists first always picks one of the errors it reported |
| `Validation.Validator.Validate` | backend/src/services/validation/validate.ts:27-47 | the result is `ValidateResult(name, data)`, independent of the cache; the schema is compiled only on first use, a cached entry never changes, other names' entries are untouched, and no name is compiled twice |
| `Validation.ValidateTwice` | backend/src/services/validation/validate.ts:36-42 | two validations of the same data give the same result, although the first may fill the cache, and at most one compilation happens |
| `Validation.ValidateUnknownSchema` | backend/src/services/validation/validate.ts:28-30 | an unknown schema name throws `Error('Invalid schema.')`, whatever the data, falsy or not |
| `Validation.ValidateNullData` | backend/src/services/validation/validate.ts:32-34 | falsy data under a known schema name throws `ValidationError('Null data.')` |
| `Validation.ValidateCreateIff` | backend/src/services/validation/validate.ts:40-47 | `validate('createTask', record)` returns normally exactly when `ValidCreate(record)`, and otherwise throws a ValidationError |
| `Validation.ValidateUpdateIff` | backend/src/services/validation/validate.ts:40-47 | `validate('updateTask', record)` returns normally exactly when `ValidUpdate(record)`, and otherwise throws a ValidationError |
| `Validation.ValidateRejectionMessage` | backend/src/services/validation/validate.ts:42-45 | when the validator lists one of its errors first, a rejection's message is the formatting of one of the schema's errors for that data |
| `Validation.FormatErrorPath` | backend/src/services/validation/validate.ts:44 | the message of an error at `/p` is `"p" ` plus the error text, only the leading `/` dropped; an error about the whole object quotes the empty path |
| `Store.TaskStore.InsertOne` | backend/src/models/Task.ts:7-9 | the document is stored under an id no stored task had, and that id is returned |
| `Store.TaskStore.DeleteOneById` | backend/src/controllers/Task.ts:32-33 | the task with that id is removed; the count is 1 if there was one and 0 otherwise |
| `Store.TaskStore.UpdateOneById` | backend/src/controllers/Task.ts:54-59 | a stored task gets the fields set and the document comes back (before or after the set, by `returnsUpdated`); an unknown id returns nothing and changes nothing |
| `TaskController.NewTask` | backend/src/controllers/Task.ts:14-19 | the new task has the caller's keys plus the three stamped ones, both timestamps `now`, status `to_do`, and every other caller field unchanged |
| `TaskController.UpdatedTask` | backend/src/controllers/Task.ts:47-50 | the validated update has the caller's keys plus lastModifiedAt, which is `now`, and every other caller field unchanged |
| `TaskController.Create` | backend/src/controllers/Task.ts:11-25 | the call and the new store state are `CreateStep` of the old store for some id the store did not hold; the create schema is cached afterwards |
| `TaskController.DeleteById` | backend/src/controllers/Task.ts:27-40 | the call and the new store state are `DeleteStep` of the old store |
| `TaskController.FillBefore` | backend/src/controllers/Task.ts:61-66 | the loop gives `before` exactly the keys of `after`, each holding the returned document's value (`undefined` where it has none) |
| `TaskController.UpdateById` | backend/src/controllers/Task.ts:42-70 | the call and the new store state are `UpdateStep` of the old store; a malformed id leaves the validator's cache as it was |
| `TaskController.CreateStampsTask` | backend/src/controllers/Task.ts:14-19 | a created task has status `to_do`, createdAt = lastModifiedAt = `now` whatever the caller sent, and the store's id |
| `TaskController.CreateCopiesFields` | backend/src/controllers/Task.ts:14-15 | title, description and username reach the created task unchanged, and one the caller left out stays out |
| `TaskController.CreateSucceedsIff` | backend/src/controllers/Task.ts:21-24 | `create` succeeds exactly when the stamped task passes `ValidCreate`; it then stores that task under the new id, and otherwise throws a ValidationError and stores nothing |
| `TaskController.CreateNeedsTitleOrDescription` | backend/src/controllers/Task.ts:14-21 | a payload with neither title nor description throws a ValidationError and stores nothing |
| `TaskController.CreateAcceptsWellFormedPayload` | backend/src/controllers/Task.ts:11-24 | a payload with a title or description within bounds, an owner of 3..100 characters and no other fields is stored, and the result is the stamped task with its id |
| `TaskController.DeleteMalformedId` | backend/src/controllers/Task.ts:28-30 | a malformed id throws NotFoundError('Task not found.') and leaves the store as it was |
| `TaskController.DeleteIff` | backend/src/controllers/Task.ts:32-39 | a well-formed id is removed from the store; the call returns the id exactly when a task had it and throws NotFoundError otherwise |
| `TaskController.DeleteTwiceFails` | backend/src/controllers/Task.ts:32-39 | deleting the same id a second time throws NotFoundError |
| `TaskController.UpdateMalformedId` | backend/src/controllers/Task.ts:43-45 | a malformed id throws NotFoundError before validation, and the store is as it was |
| `TaskController.UpdateSucceedsIff` | backend/src/controllers/Task.ts:47-58 | with a well-formed id, `updateById` succeeds exactly when the stamped update passes `ValidUpdate` and a task has the id; a failed validation throws ValidationError, an absent task NotFoundError, and neither writes |
| `TaskController.UpdateNeedsAField` | backend/src/controllers/Task.ts:47-52 | an update with none of title, description and status throws a ValidationError and writes nothing |
| `TaskController.UpdateWrites` | backend/src/controllers/Task.ts:47-54 | a successful update sets exactly the submitted fields and lastModifiedAt = `now` (overriding the caller's) on that task; createdAt, the owner, all other fields and all other tasks keep their values |
| `TaskController.UpdateDiff` | backend/src/controllers/Task.ts:59-68 | a successful update returns `after` equal to the submitted data and `before` with the same keys, each holding the returned document's value |
| `TaskController.UpdateDiffFromPriorDocument` | backend/src/controllers/Task.ts:59-66 | when the store returns the document as it was, `before` holds each submitted field's old value |
| `TaskController.UpdateDiffFromUpdatedDocument` | backend/src/controllers/Task.ts:59-66 | when the store returns the document after the update, `before` repeats `after` (a caller's lastModifiedAt reads as `now`), so the diff shows no change |
| `TaskController.UpdateClosedForm` | backend/src/controllers/Task.ts:47-68 | for a stored task and an admissible update, the result is the projection diff and the store holds the merged document |
| `TaskController.TitleOnlyCreate` | backend/__tests__/task/manage.spec.ts:99-128 | creating with only a title and owner succeeds and stores a task with that title, no description, status `to_do` and equal timestamps |
| `TaskController.StatusUpdateAfterCreate` | backend/src/controllers/Task.ts:42-69 | setting a fresh task's status to `in_progress` returns before `{status: 'to_do'}` and after `{status: 'in_progress'}`, sets lastModifiedAt to the update's clock reading and keeps createdAt |

## Left out

- The `createUser` and `loginUser` entries of the schema table and the user schemas: the user schema file is not part of this model, so the modelled table holds only `createTask` and `updateTask`, and the two user names are treated as unknown.
- The validator library's internals: compiling is modelled as keeping the schema, its error order by a fixed but unspecified choice `first` that picks one of the reported errors, and the `errors` array it stores on the compiled function is not modelled. The message texts follow the library's default English wording, which the repository's own files do not show.
- `Validation.ValidateRejectionMessage`: states only that the message formats one of the reported errors, because which error comes first is not modelled.
- `TaskSchemas.UpdateStatusIff`: is stated for a status that is present; a status of `undefined` counts as absent and is covered by `ValidUpdate` instead.
- `ObjectId.isValid` is a parameter, and ids are compared as strings, although the driver treats ids that differ only in hex letter case as the same id.
- The store driver: `deleteOneById` and `updateOneById` are not shown in the repository's files, so the store is a map; whether the update returns the document before or after the update is a parameter; store failures, which propagate unchanged, and the `_id` field the driver adds are not modelled.
- `Store.TaskStore.UpdateOneById`: returns one `Option` where the driver returns a wrapper whose `value` holds the document (backend/src/controllers/Task.ts:56-59); a truthy wrapper without a document, which would pass the not-found test and make the `before` loop throw a TypeError, is not modelled.
- `TaskController.Create`: states that some unused id is assigned, not which one, because the driver generates ids.
- Promises and asynchronous sequencing: each operation is one synchronous method, so concurrent requests are not modelled.
- Numbers are integers: fractional numbers, `NaN` (falsy) and infinities are not modelled. Lengths count the `char`s of a string, which are Unicode scalar values, so they count code points as the validator's length keywords do; strings holding lone UTF-16 surrogates cannot be represented.
- Schema names are looked up among the table's own entries; inherited object properties such as `toString` are not modelled (the TypeScript signature excludes them).
- HTTP routing, authentication, the router's injection of `username`, response status codes, the frontend and the list/get operations are outside this model.
- The task type at backend/src/types/Task.d.ts:6 lists exactly three statuses, but the schemas at backend/src/services/validation/schemas/task.ts:8 and :23 check status by an unanchored pattern; the model follows the schemas, so it accepts statuses outside the three (`TaskSchemas.UpdateAcceptsUnlistedStatus`).
- The claim that `lastModifiedAt` never decreases depends on the clock, which is an input here, so it is not proved.
