# Task tracker core in Dafny

This project models the core of a small Java task tracker: its records, its
in-memory keyed store with partial updates and filtered listing, the batch
envelope, and its two-stage validation.

- **Records.** `Entity` holds `id`, `createdAt` and `updatedAt`. `Task` adds
  `title`, `description`, `status` and `priority`. Both are one Dafny class,
  `TaskModel.Task`, with in-place setters. The reflective patch loop
  (`updateFromPatch`) is `Task.ApplyPatch` / `Task.UpdateFromPatch`. The
  value coercion (`convertValue`) is `TaskModel.ConvertValue`.
- **Field table.** Reflection becomes an explicit table of Task's four
  declared fields (`Field`, `GetDeclaredField`). `getDeclaredField` does not
  see the inherited `id`, `createdAt` and `updatedAt`, and neither does the
  table.
- **Patch values.** Patch payload values are a tagged variant, `Value`.
- **Store.** `InMemoryStore<Task, String>` and its subclass `TaskStore` are
  one class, `Storage.TaskStore`, whose `store` field maps ids to the stored
  `Task` objects themselves. The base-class versions of overridden methods
  keep the prefix `InMemory` (`InMemoryListAll`, `InMemoryPatch`). The
  documented promises of the `ResourceStorageClient` interface are stated as
  postconditions of these methods.
- **Batch envelope.** `Collection` is the class `Collections.Collection`.
- **Validation.** `ValidationException` is a value (`ValidationErrors`), and a
  validator returns a `Pass`/`Fail` verdict instead of throwing.
  `SchemaValidator<Task>` is `SchemaValidation` and `TaskValidator` is
  `TaskValidation`.

These loops of the source keep their loop form: schema validation, the
business-rule loop, the patch loop, `batchGet`, the store iteration and the
task-filter loop. Each is proved against a specification function. Two loops
do not: `entityToMap` and `taskToMap` iterate over Task's fixed four-field
table, and each becomes a map comprehension over that table. The base
`matchesFilters` loop has no effect and is not kept (see "Left out"). Java's
`HashMap` iteration order is unspecified, so every loop over a map picks its
next key arbitrarily. Each result is proved whatever order is picked. Where
the order matters (a patch whose conversion throws midway), the contract
says "some subset of the keys".

Notes on the source:

- Two `@Override` annotations have no overridden declaration:
  `InMemoryStore.patch` (`ResourceStorageClient` declares no `patch`) and
  `Task.updateFromPatch` (`Entity` declares no `updateFromPatch`). As
  written, the Java would not compile. The model keeps both methods on their
  classes and gives neither an interface.
- Behaviours of the code that a reader might not expect, all kept in the model:
  - A blank title passes the required-field check, which tests only for null
    (`BlankTitlePasses`).
  - An undeclared key with a null value passes schema validation, because
    nulls are skipped before the name is looked up (`NullAccepted`).
  - A non-null `id`, `createdAt` or `updatedAt` in a patch is rejected by
    schema validation as an unknown field (`UnknownFieldReported`). It is not
    silently ignored, although the patch applier itself would ignore it.
  - A successful patch also forces the task's `id` to the key it is stored
    under, because `patch` ends with `update`.

## Model

| member | source | states |
|---|---|---|
| Text.ToUpper | src/main/java/com/tasktracker/impl/storage/TaskStore.java:136 | Same length as the input. Each character becomes the same letter in upper case: it agrees with the input once both are lower-cased, and no ASCII lower-case letter is left. Every other character is kept. |
| Text.ToLower | src/main/java/com/tasktracker/impl/storage/TaskStore.java:130 | Same length as the input. Each character becomes the same letter in lower case: it agrees with the input once both are upper-cased, and no ASCII upper-case letter is left. Every other character is kept. |
| Text.UpperOfLower | src/main/java/com/tasktracker/impl/models/Task.java:134 | Lower-casing before upper-casing changes nothing, so enum lookups cannot tell how the input was cased. |
| Text.LowerOfLower | src/main/java/com/tasktracker/impl/storage/TaskStore.java:158 | Lower-casing is idempotent, so lower-case filter names and values compare like their originals. |
| Text.TrimStartEmptyIffBlank | src/main/java/com/tasktracker/impl/validators/TaskValidator.java:141 | Stripping leading characters up to U+0020 leaves nothing exactly when every character is such a character. |
| Text.TrimEndKeepsNonBlankHead | src/main/java/com/tasktracker/impl/validators/TaskValidator.java:141 | Stripping trailing characters keeps a string that starts with a non-blank character non-empty. |
| Text.TrimEmptyIffBlank | src/main/java/com/tasktracker/impl/validators/TaskValidator.java:141 | `trim().isEmpty()` holds exactly when every character is at most U+0020. |
| TaskModel.StatusValueOf | src/main/java/com/tasktracker/impl/models/TaskStatus.java:6-21 | `TaskStatus.valueOf(name)` finds a constant exactly when `name` is that constant's name, and then returns that constant. |
| TaskModel.PriorityValueOf | src/main/java/com/tasktracker/impl/models/TaskPriority.java:6-21 | `TaskPriority.valueOf(name)` finds a constant exactly when `name` is that constant's name, and then returns that constant. |
| TaskModel.ParseStatusIff | src/main/java/com/tasktracker/impl/storage/TaskStore.java:136 | `valueOf(s.toUpperCase())` yields status `st` exactly when the upper-cased `s` is the name of `st`. |
| TaskModel.ParsePriorityIff | src/main/java/com/tasktracker/impl/storage/TaskStore.java:147 | `valueOf(s.toUpperCase())` yields priority `p` exactly when the upper-cased `s` is the name of `p`. |
| TaskModel.ParseStatusIgnoresCase | src/main/java/com/tasktracker/impl/models/Task.java:131-135 | The string-to-status coercion is case-insensitive, and every constant name parses back to its constant. |
| TaskModel.ParsePriorityIgnoresCase | src/main/java/com/tasktracker/impl/models/Task.java:131-135 | The string-to-priority coercion is case-insensitive, and every constant name parses back to its constant. |
| TaskModel.ConvertValue | src/main/java/com/tasktracker/impl/models/Task.java:120-142 | Null stays null. An instance of the field type passes unchanged. A string for an enum field converts exactly when its upper-cased form names a constant, and yields that constant. Everything else is an error. Any result is assignable to the field. `TaskStore.convertValue` is the same code and uses this same definition. |
| TaskModel.GetDeclaredField | src/main/java/com/tasktracker/impl/models/Task.java:18-29 | `getDeclaredField(name)` finds exactly the four names `title`, `description`, `status` and `priority`, each with its declared type. |
| TaskModel.InheritedFieldsNotDeclared | src/main/java/com/tasktracker/impl/models/Task.java:97 | `id`, `createdAt` and `updatedAt` are not declared on Task, because they are inherited from Entity. |
| TaskModel.TaskFields.Read | src/main/java/com/tasktracker/framework/validators/SchemaValidator.java:97 | `field.get(task)` always gives a value the field's type accepts. |
| TaskModel.TaskFields.Write | src/main/java/com/tasktracker/impl/models/Task.java:102 | `field.set(task, v)` makes that field read `v` and leaves the other three fields unchanged. |
| TaskModel.PatchedOn | src/main/java/com/tasktracker/impl/models/Task.java:89-109 | Each of the four fields reads the converted patch value when its name is among the applied keys, and its old value otherwise. |
| TaskModel.PatchedOnSkip | src/main/java/com/tasktracker/impl/models/Task.java:91-93 | Applying an `id` key, a `createdAt` key or an undeclared key changes no field. |
| TaskModel.PatchedOnWrite | src/main/java/com/tasktracker/impl/models/Task.java:97-102 | Applying a declared key writes the converted value into that field only. |
| TaskModel.PatchAssignsNamedFields | src/main/java/com/tasktracker/impl/models/Task.java:95-102 | A declared field named in the patch receives the converted value, and a null value clears the field. |
| TaskModel.PatchKeepsUnnamedFields | src/main/java/com/tasktracker/impl/models/Task.java:89 | A field not named in the patch keeps its value, both after the whole patch and after any part of it applied before a conversion fails. |
| TaskModel.EmptyPatchChangesNothing | src/main/java/com/tasktracker/impl/models/Task.java:88-109 | An empty patch always converts and changes no field. |
| TaskModel.PatchIgnoresUndeclaredKeys | src/main/java/com/tasktracker/impl/models/Task.java:104-105 | A patch with an undeclared key added (for example `updatedAt` or `unknown`) converts exactly when the patch without it converts, and when it converts the added key changes no field. |
| TaskModel.Task.Empty | src/main/java/com/tasktracker/framework/models/Entity.java:30-31 | A new task has null `id`, `createdAt` and `updatedAt`, and null Task fields. This is Entity's no-argument constructor; Task's adds nothing. |
| TaskModel.Task.constructor | src/main/java/com/tasktracker/impl/models/Task.java:40-47 | All seven fields hold the arguments as given. The inherited `id`, `createdAt` and `updatedAt` are stored unchanged, as Entity's three-argument constructor does. |
| TaskModel.Task.SetId | src/main/java/com/tasktracker/framework/models/Entity.java:58-60 | Sets `id` to the argument, with no validation (an empty string is kept), and changes nothing else. |
| TaskModel.Task.SetCreatedAt | src/main/java/com/tasktracker/framework/models/Entity.java:74-76 | Sets `createdAt` to the argument and changes nothing else. |
| TaskModel.Task.SetUpdatedAt | src/main/java/com/tasktracker/framework/models/Entity.java:90-92 | Sets `updatedAt` to the argument and changes nothing else. |
| TaskModel.Task.SetTitle | src/main/java/com/tasktracker/impl/models/Task.java:53-55 | Sets `title` and leaves the other fields unchanged. |
| TaskModel.Task.SetDescription | src/main/java/com/tasktracker/impl/models/Task.java:61-63 | Sets `description` and leaves the other fields unchanged. |
| TaskModel.Task.SetStatus | src/main/java/com/tasktracker/impl/models/Task.java:69-71 | Sets `status` and leaves the other fields unchanged. |
| TaskModel.Task.SetPriority | src/main/java/com/tasktracker/impl/models/Task.java:77-79 | Sets `priority` and leaves the other fields unchanged. |
| TaskModel.Task.SetField | src/main/java/com/tasktracker/impl/models/Task.java:102 | The reflective write of one declared field changes that field only. |
| TaskModel.Task.ApplyPatch | src/main/java/com/tasktracker/impl/models/Task.java:89-109 | The loop fails exactly when some declared patched value does not convert. On success the fields are the patched fields. On failure they are the patch applied to some convertible subset of the keys. `id`, `createdAt` and `updatedAt` are never touched. |
| TaskModel.Task.UpdateFromPatch | src/main/java/com/tasktracker/impl/models/Task.java:87-113 | The patch as in `ApplyPatch`, then `updatedAt := now`, even for an empty patch. `id` and `createdAt` are unchanged. After an exception `updatedAt` keeps its old value. |
| Collections.Collection.constructor | src/main/java/com/tasktracker/framework/models/Collection.java:28-31 | Both maps start empty. |
| Collections.Collection.FromMaps | src/main/java/com/tasktracker/framework/models/Collection.java:39-42 | A null map argument becomes an empty map, and a non-null one is kept. |
| Collections.Collection.SetResults | src/main/java/com/tasktracker/framework/models/Collection.java:56-58 | Replaces `results` and leaves `errors` untouched. |
| Collections.Collection.SetErrors | src/main/java/com/tasktracker/framework/models/Collection.java:72-74 | Replaces `errors` and leaves `results` untouched. |
| Collections.Collection.AddResult | src/main/java/com/tasktracker/framework/models/Collection.java:82-84 | `results[key] := entity`, overwriting any earlier entry; `errors` is untouched. |
| Collections.Collection.AddError | src/main/java/com/tasktracker/framework/models/Collection.java:92-94 | `errors[key] := code`, overwriting any earlier entry; `results` is untouched. |
| ValidationErrors.WithMessage | src/main/java/com/tasktracker/framework/validators/ValidationException.java:19-23 | The error map is exactly `{"error": message}`, and the message is kept. |
| ValidationErrors.WithErrors | src/main/java/com/tasktracker/framework/validators/ValidationException.java:30-33 | The message is always "Validation failed". A null map gives an empty error map, and any other map is kept exactly. |
| ValidationErrors.Check | src/main/java/com/tasktracker/framework/validators/SchemaValidator.java:65-67 | Passes exactly when the accumulated error map is empty. Otherwise it fails with exactly that map. |
| SchemaValidation.IsTypeCompatible | src/main/java/com/tasktracker/framework/validators/SchemaValidator.java:117-138 | Never holds for null. For a non-null value it holds exactly when the patch conversion succeeds. A string against an enum field is compatible exactly when its upper-cased form names a constant. A String field accepts exactly strings. |
| SchemaValidation.SchemaErrors | src/main/java/com/tasktracker/framework/validators/SchemaValidator.java:36-67 | The error keys are a subset of the patch keys. |
| SchemaValidation.ValidateMap | src/main/java/com/tasktracker/framework/validators/SchemaValidator.java:35-68 | The loop visits every entry in any order and keeps every error. The verdict fails exactly when the complete error map is non-empty. |
| SchemaValidation.EntityToMap | src/main/java/com/tasktracker/framework/validators/SchemaValidator.java:90-107 | Holds exactly the declared fields whose value is not null, with their values, and no other key. |
| SchemaValidation.ValidateEntity | src/main/java/com/tasktracker/framework/validators/SchemaValidator.java:77-81 | `validate(entity)` is `validate` applied to the entity's map of non-null declared fields. |
| SchemaValidation.EntityPassesSchema | src/main/java/com/tasktracker/framework/validators/SchemaValidator.java:77-81 | A full entity never fails schema validation. |
| SchemaValidation.NullAccepted | src/main/java/com/tasktracker/framework/validators/SchemaValidator.java:43-45 | A null value is accepted under any key, declared or not. |
| SchemaValidation.UnknownFieldReported | src/main/java/com/tasktracker/framework/validators/SchemaValidator.java:59-62 | A non-null value under an undeclared name, including the inherited `id`, `createdAt` and `updatedAt`, is reported as "Unknown field" under that key, whatever else the map holds. |
| SchemaValidation.DeclaredFieldChecked | src/main/java/com/tasktracker/framework/validators/SchemaValidator.java:53-57 | A non-null value under a declared name is an error exactly when it is not type-compatible, and the error is the type-mismatch message. |
| SchemaValidation.SchemaPassMeansConvertible | src/main/java/com/tasktracker/impl/storage/TaskStore.java:69-73 | A patch that passes schema validation converts without an exception when it is applied. |
| SchemaValidation.UnknownOnlyScenario | src/main/java/com/tasktracker/framework/validators/SchemaValidator.java:38-67 | `{status: "done", unknown: "x"}` fails with exactly one error, under `unknown`. |
| TaskValidation.ValidateField | src/main/java/com/tasktracker/impl/validators/TaskValidator.java:138-157 | Records the entry's rule error under its name, and leaves the map unchanged when there is none. |
| TaskValidation.RuleErrors | src/main/java/com/tasktracker/impl/validators/TaskValidator.java:152-154 | Rule errors arise only under `title` and `description`, and only for keys that are present. |
| TaskValidation.ApplyFieldRules | src/main/java/com/tasktracker/impl/validators/TaskValidator.java:71-73 | The `validateField` loop over all entries, in any order, gives the complete rule-error map. |
| TaskValidation.TaskToMap | src/main/java/com/tasktracker/impl/validators/TaskValidator.java:112-127 | All four declared fields are present, null ones included, each with the task's value. |
| TaskValidation.SchemaPassRuleReadable | src/main/java/com/tasktracker/impl/validators/TaskValidator.java:91 | After schema validation, `title` and `description` hold strings or null, so the rules can read them as text. |
| TaskValidation.ValidateTask | src/main/java/com/tasktracker/impl/validators/TaskValidator.java:46-78 | Runs the schema check, then the required fields in order, then all field rules. |
| TaskValidation.ValidatePatch | src/main/java/com/tasktracker/impl/validators/TaskValidator.java:89-104 | Runs the schema check, then the field rules for the keys present. |
| TaskValidation.TitleRuleIff | src/main/java/com/tasktracker/impl/validators/TaskValidator.java:140-145 | A title error arises exactly for a non-null, non-blank title longer than 200 characters. |
| TaskValidation.DescriptionRuleIff | src/main/java/com/tasktracker/impl/validators/TaskValidator.java:147-151 | A description error arises exactly for a non-null description longer than 1000 characters. |
| TaskValidation.RequiredFieldsInOrder | src/main/java/com/tasktracker/impl/validators/TaskValidator.java:57-68 | Required fields are checked in the order title, status, priority. The first null one fails alone, with a single-entry error map. |
| TaskValidation.TaskRuleErrors | src/main/java/com/tasktracker/impl/validators/TaskValidator.java:71-73 | The rule errors of a full task are exactly the independently stated long-title and long-description errors. |
| TaskValidation.BusinessErrorsTogether | src/main/java/com/tasktracker/impl/validators/TaskValidator.java:71-77 | Once the required fields are present, the title and description errors are reported together in one failure, holding exactly the violated rules. |
| TaskValidation.BlankTitlePasses | src/main/java/com/tasktracker/impl/validators/TaskValidator.java:57 | A blank title passes both the required check and the length rule. |
| TaskValidation.PatchSchemaFailureFirst | src/main/java/com/tasktracker/impl/validators/TaskValidator.java:91 | A schema failure propagates with exactly the schema errors, before any business rule. |
| TaskValidation.PatchRulesOnPresentKeys | src/main/java/com/tasktracker/impl/validators/TaskValidator.java:97-103 | After the schema check a patch fails exactly when some present key breaks its rule. There is no required-ness check, so `{title: null}` passes. |
| TaskValidation.UnknownFieldPatchRejected | src/main/java/com/tasktracker/impl/validators/TaskValidator.java:89-92 | `{status: "done", unknown: "x"}` fails schema validation, reporting `unknown` only. |
| Storage.BatchGetPartition | src/main/java/com/tasktracker/framework/storage/InMemoryStore.java:84-97 | Every requested id lands in exactly one of `results` and `errors`. `results` values are the stored entities and `errors` values are 404. There is one entry per distinct requested id. |
| Storage.StatusFilterIff | src/main/java/com/tasktracker/impl/storage/TaskStore.java:134-143 | A status filter holds exactly when the task has a status whose name is the upper-cased filter value. An invalid value or a null status fails. |
| Storage.PriorityFilterIff | src/main/java/com/tasktracker/impl/storage/TaskStore.java:145-154 | A priority filter holds exactly when the task has a priority whose name is the upper-cased filter value. |
| Storage.FilterIgnoresCase | src/main/java/com/tasktracker/impl/storage/TaskStore.java:130 | Filter names and filter values are both compared case-insensitively. |
| Storage.TitleFilterPasses | src/main/java/com/tasktracker/impl/storage/TaskStore.java:156-161 | A task with a null title passes every title filter, and an empty title filter matches every task. |
| Storage.UnknownFilterIgnored | src/main/java/com/tasktracker/impl/storage/TaskStore.java:163-165 | A filter under any other name never excludes a task. |
| Storage.ValuesAtMembers | src/main/java/com/tasktracker/framework/storage/InMemoryStore.java:108 | Listing the values in iteration order gives exactly the stored values. |
| Storage.SelectedSnoc | src/main/java/com/tasktracker/impl/storage/TaskStore.java:116-118 | The stream filter keeps one more task, after the others, exactly when it passes the filters. |
| Storage.SelectedMembers | src/main/java/com/tasktracker/impl/storage/TaskStore.java:116-118 | A task is kept exactly when it is listed and passes every filter. Filtering never lengthens the list. |
| Storage.SelectedNoFilters | src/main/java/com/tasktracker/impl/storage/TaskStore.java:111-113 | An empty filter map keeps every task. |
| Storage.UnknownConstantSelectsNothing | src/main/java/com/tasktracker/impl/storage/TaskStore.java:140-142 | A status or priority filter naming no constant excludes every task. |
| Storage.TodoFilterIff | src/main/java/com/tasktracker/impl/storage/TaskStore.java:134-143 | The single filter `status=todo` holds exactly for tasks whose status is TODO. |
| Storage.StatusFilterScenario | src/main/java/com/tasktracker/impl/storage/TaskStore.java:106-119 | Given tasks with statuses TODO, TODO and DONE, the filter `status=todo` keeps exactly the two TODO tasks, in order. |
| Storage.TaskStore.constructor | src/main/java/com/tasktracker/framework/storage/InMemoryStore.java:27 | The store starts empty. |
| Storage.TaskStore.Get | src/main/java/com/tasktracker/framework/storage/InMemoryStore.java:72-74 | Returns the stored object itself exactly when the id is stored, and reads nothing else. This is the `ResourceStorageClient.get` promise: empty exactly when no entity has that id. |
| Storage.TaskStore.Exists | src/main/java/com/tasktracker/framework/storage/ResourceStorageClient.java:69-75 | True exactly when an entity with that id is stored, that is, exactly when `get` is non-empty (`InMemoryStore.exists` is `containsKey`). |
| Storage.TaskStore.Create | src/main/java/com/tasktracker/framework/storage/InMemoryStore.java:38-63 | A null id takes `freshId`; a given id (even `""`) is kept. `createdAt := now` only when it is null, and `updatedAt := now` always, so a fresh entity has equal timestamps. The entity is stored under its id, overwriting any entry there, and `get(id)` then returns it. This is the `ResourceStorageClient.create` promise: the entity itself is returned, with an id and timestamps assigned. |
| Storage.TaskStore.BatchGet | src/main/java/com/tasktracker/framework/storage/InMemoryStore.java:84-97 | Returns a new collection whose `results` and `errors` are the batch results and errors of the store (see `BatchGetPartition`). The store is unchanged. This is the `ResourceStorageClient.batchGet` promise: found ids go to `results` and not-found ids go to `errors`. |
| Storage.TaskStore.InMemoryListAll | src/main/java/com/tasktracker/framework/storage/InMemoryStore.java:107-119 | Returns every stored value, once per key, in some iteration order, whatever the filters. |
| Storage.TaskStore.MatchesTaskFilters | src/main/java/com/tasktracker/impl/storage/TaskStore.java:128-170 | The loop with early returns answers true exactly when every filter holds. |
| Storage.TaskStore.FilterTasks | src/main/java/com/tasktracker/impl/storage/TaskStore.java:116-118 | The stream filter keeps, in order, exactly the tasks that pass. |
| Storage.TaskStore.ListAll | src/main/java/com/tasktracker/impl/storage/TaskStore.java:106-119 | Returns the stored tasks in iteration order, filtered. A task is in the result exactly when it is stored and passes every filter. Null or empty filters return every stored task. This is the `ResourceStorageClient.listAll` promise. |
| Storage.TaskStore.Update | src/main/java/com/tasktracker/framework/storage/InMemoryStore.java:129-139 | On an absent id: empty, with the store and entity unchanged. On a present id: forces `id := id` and `updatedAt := now`, replaces the entry, leaves every other entry, and keeps `createdAt`. This is the `ResourceStorageClient.update` promise: empty when not found. |
| Storage.TaskStore.Delete | src/main/java/com/tasktracker/framework/storage/InMemoryStore.java:148-150 | True exactly when the key was present. Afterwards the key is absent and every other entry is unchanged. This is the `ResourceStorageClient.delete` promise. |
| Storage.TaskStore.InMemoryPatch | src/main/java/com/tasktracker/framework/storage/InMemoryStore.java:173-176 | The base store never patches: always the unsupported-operation error. |
| Storage.TaskStore.Patch | src/main/java/com/tasktracker/impl/storage/TaskStore.java:31-67 | An absent id is not found and nothing changes. Otherwise the patch succeeds exactly when every declared patched value converts. On success the stored object holds the patched fields, `id == id` and `updatedAt == now`, and it is returned. On failure the entries applied before the exception stay applied and the timestamps are untouched. `createdAt` and the store map never change. |

## Left out

- Concurrency. `ConcurrentHashMap` thread safety and the lost-update race between the read and the write of `patch` are not modelled. The store is a sequential map field.
- Clock and id generation. `System.currentTimeMillis()` and `UUID.randomUUID()` are the parameters `now` and `freshId`; nothing is assumed about `freshId` being unused. `TaskStore.patch` reads the clock twice (once before and once inside `update`); `Storage.TaskStore.Patch` uses one `now` for both.
- Storage.TaskStore.Create: the `IllegalStateException` for non-String id types cannot arise for Task's String ids, so it is not modelled.
- Storage.TaskStore.Patch: the `IllegalAccessException` branch cannot arise after `setAccessible(true)`, so it is not modelled. A conversion failure is returned as `Failed(message)` instead of being thrown.
- Storage.TaskStore.InMemoryListAll: the base `matchesFilters` loop computes a `toString` comparison whose outcome is discarded and then returns true. It is modelled by its effect alone: no entity is dropped.
- Entity and Task getters are plain field reads of the Dafny class, so they have no members of their own.
- Null keys, null ids and null filter values are not modelled. `ConcurrentHashMap` and `toUpperCase` would throw `NullPointerException` on them. Null `filters` and null collection-constructor maps are modelled with `Option`. Other nulls are ruled out by the types and not modelled either: `setResults(null)` and `setErrors(null)` store the null, and a later `addResult` or `addError` throws `NullPointerException`. A null patch map makes `forEach` throw, and a null entity passed to `create` or `update` throws as well.
- Storage.TaskStore.ListAll: the order of the result is the store's unspecified iteration order. Only "some enumeration of the keys" is promised.
- Collections.Collection: maps passed to the constructor or setters are copied as values, so later changes to the caller's map are not seen. Java shares the map object.
- Text.ToUpper and Text.ToLower fold ASCII letters only. Java's locale-sensitive Unicode case mapping is not modelled. String length is the number of characters, not UTF-16 code units.
- Timestamps are unbounded integers; `Long` overflow is not modelled.
- The Jakarta annotations on `Task` (`@NotBlank`, `@Size`, `@NotNull`) are not modelled, because nothing in the core enforces them.
- `ResourceStorageClient` is not a separate interface. Its promises are postconditions on `Storage.TaskStore`'s methods.
- `ResourceValidator` (the validator interface), the REST controller `TaskResource`, `GlobalExceptionHandler` and the application bootstrap are not part of this model.
