# Task/tag store of a task-management API, modelled in Dafny

The system is a small REST API for tasks and tags. A task has a title, an
optional description, a status (`pending`, `in_progress` or `completed`), a
priority, an optional due date and an optional completion stamp. Tasks and
tags are linked through explicit association rows, one per `(task, tag)`
pair. This project models the part with real logic:

- the write serializer. `create` inserts a task and one association row per
  supplied tag id, up to the first repeated id (see below). `update` sets the
  supplied attributes. When tag ids are supplied, even an empty list, `update`
  is meant to also delete the task's association rows and insert rows for
  those ids, up to the first repeated id. That is what the code intends. As
  written, line 47 of core/request_serializers.py names a missing accessor,
  so the request fails after the attributes are saved, and no row changes
  (see ## Findings). When `tag_ids` is absent, the rows stay as they are.
- the `complete` action, and the `pending` and `completed` listings.
- which serializer each action uses, and the ordering and search settings.
- the entity declarations: defaults, the status choices, the unique `(task, tag)`
  pair, cascading deletes and unique tag names.
- the read view, with its nested `tags` and its flat `tag_list` of tag ids.

Modules follow the source files:

- `Models` (models.dfy) holds the entities as datatypes, the association-row
  algebra (`TagIdsOf`, `Keep`, `WithoutTask`, `WithoutTag`) and `ValidStore`.
  `ValidStore` says what the declarations guarantee: primary keys match row
  ids, tag names are present, at most 50 characters long and unique, every
  association row references an existing task and tag, and no pair occurs twice.
- `Storage` (storage.dfy) holds the record store, a class `Store`. Its fields
  are the task and tag tables (maps), the association table (a sequence of
  rows) and an id counter. Its methods are the row-level operations that
  carry the declared constraints: creating a tag, cascading deletes, and
  inserting one association row, which fails on a duplicate pair.
- `Serializers` (serializers.dfy) holds the field lists of the read
  serializers and the task detail projection.
- `RequestSerializers` (request_serializers.dfy) holds validation of the
  write serializer, the `setattr` loop, the association-insert loop, and
  `create` and `update`.
- `Viewsets` (viewsets.dfy) holds `get_serializer_class`, the ordering
  allow-lists and defaults, `complete`, and the two status listings.
- `Scenario` (scenario.dfy) is a client. `Walkthrough` creates three tags
  and a task with two of them, retags it, keeps its tags through an update
  without `tag_ids`, clears them, and completes the task, using only the
  contracts above.

Each state-changing method is tied to a pure function of the old state:
`InsertLinks` for the insert loop, `ReplaceLinks` for the association part of
update, `ApplyFields` for the attribute loop and `MarkCompleted` for
completion. The promised properties are proved as lemmas about these
functions. The clock is a `now` parameter. Fresh UUIDs are modelled by the
store's id counter.

Some behaviours of the code are easy to miss, and the model states them as the code has them:

- The code has no transaction. A repeated tag id makes the store refuse that
  association row (`IntegrityError`). The task row and the rows inserted
  before the repeat remain. The model states this outcome exactly and does
  not claim an all-or-nothing replacement.
- Tag ids are not deduplicated. A tag id that names no tag is a validation
  error on `tag_ids`.
- `completed_at` is not tied to the status. A generic update can set the
  status back to `pending` and keep the stamp (`CompletedAtSurvivesStatusChange`).
- A duplicate tag name is a validation error on `name`, not a separate
  conflict kind.
- The tags of a task are all tags reached through its association rows. The
  rows' own `is_active` flag is not consulted.

## Model

| member | source | states |
|---|---|---|
| Models.StatusCode | core/models.py:55-63 | every stored status value is non-empty and fits the 20-character column |
| Models.ParseStatus | core/models.py:55-63 | exactly the three choice values are accepted, and parsing inverts `StatusCode` |
| Models.StatusCodeRoundTrip | core/models.py:55-59 | each status survives being stored and read back |
| Models.NewTask | core/models.py:61-67 | a task row before any supplied field is set has the given id, both stamps at its insertion time, is active, pending, priority 0 and has no completion stamp |
| Models.Saved | core/models.py:13 | saving stamps `updated_at` with the save time and changes nothing else |
| Models.NewTaskDefaults | core/models.py:63-67 | a new task is pending, has priority 0, no description, due date or completion stamp, is active, and has both stamps equal to its insertion time |
| Models.TagIdsOf | core/models.py:65 | a tag id is among a task's tags exactly when an association row links the two |
| Models.TagIdsOfDistinct | core/models.py:86 | with unique pairs, no tag is listed twice for a task |
| Models.WithoutTask | core/models.py:82 | deleting a task removes exactly the association rows that reference it |
| Models.WithoutTag | core/models.py:83 | deleting a tag removes exactly the association rows that reference it |
| Models.WithoutTaskKeepsOthers | core/models.py:82 | after a task's rows are deleted, it has no tags, and every other task keeps its tag ids in order |
| Models.KeepDistinct | core/models.py:86 | deleting rows keeps the pairs unique |
| Models.TagIdsOfKeep | core/models.py:82-83 | a deletion that spares a task's rows leaves that task's tag ids unchanged |
| Models.ValidStore | core/models.py:82-86 | the declared constraints of the stored rows: keys are the rows' ids, tag names are present, at most 50 characters and unique, association rows reference existing tasks and tags, and no pair occurs twice |
| Models.ValidStoreTagLists | core/models.py:82-86 | in a store that keeps those constraints, a task's tag list names only existing tags, has no repeats, and is empty for a task that does not exist |
| Storage.Store.FreshId | core/models.py:11 | a new row's id is one no existing task or tag has, and the store stays valid |
| Storage.Store.CreateTag | core/models.py:40-47 | a tag is created under a fresh id, with `is_active` defaulting to true, exactly when its name is present, at most 50 characters and unused; otherwise the result is a validation error on `name` and nothing changes |
| Storage.Store.DeleteTask | core/models.py:82 | deleting a task removes it and cascades to its rows; tags stay; an unknown id is not found |
| Storage.Store.DeleteTag | core/models.py:83 | deleting a tag removes it and cascades to its rows; tasks stay; an unknown id is not found |
| Storage.Store.InsertLink | core/models.py:85-86 | one association row is appended exactly when its pair is new; the store stays valid |
| Serializers.IsActiveWritableForTagsOnly | core/serialiazers.py:6-18 | `is_active` is writable through the tag serializer and read-only through the user serializer |
| Serializers.TaskDetailServerFieldsReadOnly | core/serialiazers.py:33-41 | `id`, the timestamps and `completed_at` (the listed read-only fields), and the nested `tags` and `tag_list` (read-only by their own declarations), are exposed by the task detail view but never writable through it |
| Serializers.Detail | core/serialiazers.py:31-45 | the detail view carries the task's id, title, description, status value, priority, due date, active flag, creation and modification stamps and completion stamp unchanged; `tag_list` is the list of ids of the nested `tags`, and these are exactly the task's associated tags |
| Serializers.ValidStoreResolves | core/models.py:82-86 | in a store that keeps the declared constraints, every tag reached from a task's association rows exists |
| Serializers.DetailListsEachTagOnce | core/serialiazers.py:43-45 | with unique pairs, `tag_list` and the nested `tags` have no repeats |
| RequestSerializers.AttributesAreTheWritableFields | core/request_serializers.py:17-21 | every attribute the serializer can set is a declared, non-read-only field other than `tag_ids`; `completed_at` is not a field of the serializer |
| RequestSerializers.ParseField | core/models.py:61-67 | each attribute accepts exactly its own kind of value: a title non-empty and at most 200 characters, a description as text or null, a status only as one of the choice values, a priority as a number, `is_active` as a flag, a due date as a moment or null; an accepted value is stored as supplied; names that are not attributes are never accepted |
| RequestSerializers.Validate | core/request_serializers.py:10-21 | validation fails exactly when some field is rejected, reporting those fields; on success only writable attributes are kept, `title` is present unless the update is partial, and every supplied tag id names a tag |
| Scenario.ReportRequestIsValid | core/request_serializers.py:10-21 | a create request with a title and two existing tag ids validates to exactly that title and those ids |
| RequestSerializers.ApplyFields | core/request_serializers.py:40-41 | setting attributes never changes the id, the creation and modification stamps, or `completed_at` |
| RequestSerializers.ApplyFieldsSetsSupplied | core/request_serializers.py:40-41 | each supplied attribute takes the supplied value |
| RequestSerializers.ApplyFieldsKeepsOthers | core/request_serializers.py:40-41 | each attribute that was not supplied keeps its old value |
| RequestSerializers.SetAttributes | core/request_serializers.py:40-41 | the loop that sets the attributes one by one yields `ApplyFields` of the instance |
| RequestSerializers.InsertLinks | core/request_serializers.py:29-31 | the insert loop keeps every existing row in place and only appends rows of this task for supplied ids: at most as many rows as there are ids, and on success exactly that many |
| RequestSerializers.InsertLinksOutcome | core/request_serializers.py:29-31 | for a task with no rows, the insert loop reports success exactly when the ids have no repeat. On success, the task's tag ids equal the supplied ids. On failure, rows for the ids before the first repeat remain. Other tasks are untouched |
| RequestSerializers.ReplaceLinks | core/request_serializers.py:44-51 | as intended: absent ids leave the rows and report success; every row of another task is kept and none is added; supplied ids leave this task only rows for those ids |
| RequestSerializers.ReplaceLinksOutcome | core/request_serializers.py:44-51 | absent ids leave the rows unchanged. Supplied ids without repeats become exactly the task's tag ids, whatever it had before. An empty list clears them. Other tasks keep their tag ids |
| RequestSerializers.ReplaceLinksAsWritten | core/request_serializers.py:44-47 | as written: the rows never change, and the update fails exactly when tag ids are supplied |
| RequestSerializers.AccessorNameCounterexample | core/request_serializers.py:47 | a task with one tag, updated with an empty id list: as written, the tag stays and the request fails; as intended, the tag is cleared |
| RequestSerializers.AttachTags | core/request_serializers.py:29-31 | the loop over the ids leaves exactly the rows and outcome of `InsertLinks` and keeps the store valid |
| RequestSerializers.InsertTask | core/request_serializers.py:25-26 | the task row is inserted under a fresh id with the supplied attributes over the declared defaults, and has no association rows yet |
| RequestSerializers.Create | core/request_serializers.py:23-33 | the task is inserted under a fresh id with the supplied attributes over the defaults. Absent `tag_ids` means no rows. Otherwise its tag ids are the supplied ids up to the first repeat, and creation succeeds exactly when there is none. Tags and other tasks are unchanged |
| RequestSerializers.ReplaceTags | core/request_serializers.py:44-51 | the delete-then-insert block leaves exactly the rows and outcome of `ReplaceLinks` and keeps the store valid |
| RequestSerializers.Update | core/request_serializers.py:35-53 | only the supplied attributes change, and the row is saved at `now`. Absent `tag_ids` leaves the rows alone. Supplied ids replace this task's tag ids, with success exactly when there is no repeat. Other tasks' tag ids are unchanged |
| RequestSerializers.UpdateAsWritten | core/request_serializers.py:35-53 | as written: the attributes are set and saved, and then any supplied `tag_ids` ends in an attribute error with the rows unchanged |
| Viewsets.GetSerializerClass | core/viewsets.py:58-62 | the write serializer is chosen exactly for `create`, `update` and `partial_update` |
| Viewsets.ReadActionsUseDetail | core/viewsets.py:58-62 | list, retrieve, destroy, `complete`, `pending` and `completed` use the detail serializer |
| Viewsets.EffectiveOrdering | core/viewsets.py:52-56 | when at least one requested term names an allowed field, exactly the allowed requested terms are used, in the requested order when all are allowed; when none is, or nothing is requested, the default is used; the result only names allowed fields when the default does |
| Viewsets.TaskOrderingDefaults | core/viewsets.py:55-56 | tasks default to newest `created_at` first; `title` is refused and falls back to the default; `priority` is honoured; no ordering ever names a field outside the allow-list |
| Viewsets.TagOrderingDefaults | core/viewsets.py:32-33 | tags default to name ascending and are only ever ordered by `name` or `created_at` |
| Viewsets.TasksWithStatus | core/viewsets.py:86 | an id is selected exactly when its task has the given status |
| Viewsets.StatusListingsPartition | core/models.py:55-59 | every task is in exactly one of the three status selections |
| Viewsets.Listing | core/viewsets.py:86-87 | a listing holds exactly the tasks with the status, each in its detail representation |
| Viewsets.PendingListing | core/viewsets.py:79-88 | `pending` lists exactly the pending tasks, each in its detail representation, with status value `pending` |
| Viewsets.CompletedListing | core/viewsets.py:90-99 | `completed` lists exactly the completed tasks, each in its detail representation, with status value `completed` |
| Viewsets.MarkCompleted | core/viewsets.py:71-74 | whatever the prior status, the task becomes completed with `completed_at` and `updated_at` equal to `now` |
| Viewsets.MarkCompletedChangesOnlyStatusAndStamps | core/viewsets.py:71-74 | completion leaves title, description, priority, due date, id, creation stamp and active flag alone |
| Viewsets.MarkCompletedIdempotent | core/viewsets.py:72-73 | completing twice equals completing once with the later stamp; the status is `completed` both times |
| Viewsets.CompletedAtSurvivesStatusChange | core/request_serializers.py:40-42 | a generic update back to pending keeps the completion stamp, since only `complete` writes it |
| Viewsets.CompletionMovesOnlyThatTask | core/viewsets.py:72 | after completion the task is in the completed selection and in neither other one; no other task moves |
| Viewsets.Complete | core/viewsets.py:64-77 | an unknown id is not found and changes nothing. Otherwise the task, and nothing else, is replaced by its completed form and returned in its detail representation |

## Left out

- HTTP routing and the admin screens: framework configuration with no logic of their own.
- User create, read, update and delete, and tag update: generated behaviour with no custom logic.
- The filter classes `TaskFilter` and `TagFilter`: core/filters.py is not part of this model.
- Full-text search: the model keeps only the search field lists (`TaskSearchFields`, `TagSearchFields`). Term splitting and case folding are library behaviour.
- Viewsets.EffectiveOrdering: when some requested terms are dropped, the order of the remaining ones is not stated (only which terms remain). The ordering parameter arrives already split into terms. Parsing the query string (commas, leading `-`) is library behaviour and is not modelled.
- Viewsets.Listing: the result is keyed by task id, so the newest-first order of the task listings is not stated.
- Viewsets.PendingListing: the result is keyed by task id; the newest-first (`-created_at`) order of the returned list is not stated.
- Viewsets.CompletedListing: the result is keyed by task id; the newest-first (`-created_at`) order of the returned list is not stated.
- Serializers.Detail: the nested `tags` and `tag_list` are given in association-row order. The system returns them ordered by tag name, and that comparison depends on the database collation.
- The association rows' own id, timestamps and active flag, and the association serializer: nothing in the modelled code reads them.
- Persistence, indexes and prefetching: they affect cost, not results.
- UUID generation is modelled by an id counter, and the clock by a `now` parameter.
- One `now` per request stands for the separate clock readings of `timezone.now()` and the auto-now fields. So `NewTaskDefaults` gives equal creation and modification stamps, and `MarkCompleted` gives equal completion and modification stamps. In the system each stamp reads the clock on its own.
- Request-wide transactions: the project settings are not part of this model. In the model, each row write stands alone.
- Input coercion (numbers and booleans sent as strings, trimming whitespace from titles and tag names, so a name that differs from a taken one only by surrounding spaces is accepted by `CreateTag` but refused by the system, `due_date` arriving as ISO 8601 text rather than a parsed moment) and the database range of `priority`: library and backend behaviour.
- Form-encoded requests: on a form-encoded request that is not partial, the framework reads an absent `tag_ids` as an empty list. Such a PUT would then clear the tags, or fail as written on line 47 of core/request_serializers.py. The model takes an absent `tag_ids` as absent on every request.
- Validation error messages: errors report only the names of the rejected fields.
- The response body of create and update: the write serializer's output representation.
- The `my-tasks` endpoint named in the task viewset's documentation: it is not implemented.
- Concurrency: requests are modelled one at a time.
- A `tag_ids` value that is null or not a list is a validation error on `tag_ids` in the system. The model's request holds only an absent value or a list of ids, so that error path is not modelled.
- Object lookup ignores the filter and search parameters: in the system, `complete`, update and delete find the task through the filtered listing, so a search or filter parameter can make an existing task not found. In the model, not found means exactly that the id has no row.

## Findings

| source | as written | input that shows it | evidently intended | confidence | as-written member | corrected member |
|---|---|---|---|---|---|---|
| core/request_serializers.py:47 | `update` uses the reverse accessor `taskTag_set`, but the accessor Django derives from `TaskTag` is `tasktag_set`, so the lookup raises an attribute error after the task has been saved | a task with one tag, updated with `tag_ids` = [] (`AccessorNameCounterexample`): the new attributes are saved, the tag stays attached, and the request fails | delete this task's association rows, then insert rows for the supplied ids | high, not executed | RequestSerializers.UpdateAsWritten | RequestSerializers.Update |
