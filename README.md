# Kanban board: a verified model of the task store, the API handlers and the CLI

The board is one document: a list of tasks in stored order plus a
`lastUpdated` stamp. A task has an id, title, description, priority
(Low, Med, High), status (Backlog, Planned, In Progress, Blocked, Review,
Done), a tag list, two timestamps, and optionally an agent, a block
reason and the id of a linked task on a remote task service. This
project models, in Dafny:

- the **store** (`lib/storage.ts`): a `Board` class with exact-id lookup,
  status filtering, create-by-append and update-by-merge into the first
  task with a given id, plus the save stamp;
- the **task collection endpoint** (`app/api/tasks/route.ts`): `GET` lists
  the board. `POST` checks the required fields, defaults `tags`, creates
  the task and, for a task created in Review, requests one remote task and
  links it when the service answers with an id;
- the **reconciliation endpoint** (`app/api/tasks/sync/route.ts`): each
  linked Review task whose remote task is completed is moved to Done and
  unlinked, and the response lists those tasks;
- the **command-line client** (`cli.js`):
  - `create` with comma-separated tags;
  - `update` of one named field of the first task whose id starts with
    the given prefix;
  - `move` and `show`;
  - the selection and grouping that `list` prints.

Modules: `TaskTypes` (task.dfy), `Seqs` (seqs.dfy: the `find`, `findIndex`
and `filter` searches), `Storage` (storage.dfy), `TasksRoute`
(tasks_route.dfy), `SyncRoute` (sync_route.dfy) and `Cli` (cli.dfy).

Modelling choices:

- **The board.** Past its argument check, every operation of the code
  loads the board from its file; `POST` on the collection with a missing
  field and the client's `create` with a missing argument stop before
  loading. Loading when no file exists first writes an empty board and
  returns it (`Storage.Board.Initial`), so the first operation of any kind
  writes the file. Otherwise only the operations that change the board
  write it back: create, an update that finds its task, and `update` or
  `move` in the client; `getTasks`, `getTask`, `getTasksByStatus`,
  `updateTask` on an unknown id, and the client's `list` and `show` only
  read a board that exists. Here the board is one `Board` object, already
  loaded: the writes change it in place and stamp `lastUpdated`, and the
  reads leave it alone.
- **Clocks and fresh ids.** The clock and the fresh id are parameters.
  Each operation reads the clock once (`now`); the code's separate
  readings for `createdAt`, `updatedAt` and the save stamp are taken to
  be equal. `POST` on the collection reads the clock a second time
  (`linkedAt`) for the update that stores the link. So the stored task's
  `updatedAt` can differ from the `updatedAt` of the task in the response,
  as in the code.
- **The remote task service.** Its answers are inputs:
  - for create, an `Option<string>` (the id, or nothing);
  - for status lookups, one answer per lookup, in the order the lookups
    are made: `NeedsAction`, `Completed`, or nothing for a failed or empty
    lookup. Each lookup is answered on its own, so two tasks linked to the
    same remote id may get different answers. The ids looked up are an
    output of `SyncRoute.Sync`.
- **Priority and status labels.** Nothing validates them at run time, and
  the client stores any string the user types. So both enumerations have
  one more case that carries any other label. A subset type keeps that
  case from carrying one of the known labels, which makes label ↔ value a
  bijection (`TaskTypes.ParseStatus`, `TaskTypes.StatusNameMatches`).
- **Other properties.** `task[field] = value` with a field name outside
  the record sets an extra property. It is kept in the task's `extra` map.
  The name `__proto__` is the exception: on a task without an own property
  of that name, assigning a string to it does nothing.
- **Update patches.** A patch field is either absent or given. An
  optional field may also be present with value `undefined` (`Edit.Unset`),
  which is what the reconciliation uses to clear the link.

## Model

| member | source | states |
|---|---|---|
| TaskTypes.ParsePriority | types/task.ts:1 | the stored label reads back unchanged; the value is one of the three priorities exactly when the label is one of theirs |
| TaskTypes.ParseStatus | types/task.ts:2 | the stored label reads back unchanged; the value is one of the six statuses exactly when the label is one of theirs |
| TaskTypes.StatusNameMatches | types/task.ts:2 | comparing a status with a label (`t.status === 'Review'`) is the same as comparing it with the status the label denotes, in both directions |
| Seqs.FirstIndex | lib/storage.ts:64 | `findIndex`: -1 exactly when no element passes the test, otherwise an element that passes with none passing before it |
| Seqs.Filter | lib/storage.ts:82 | `filter`: the result holds exactly the elements of the input that pass the test, and is no longer than the input |
| Seqs.FilterConcat | lib/storage.ts:82 | filtering a concatenation is concatenating the filtered parts, so `filter` keeps the input order |
| Storage.NewTask | lib/storage.ts:49-54 | the created task copies every input field; `id`, `createdAt` and `updatedAt` are set by the store; it has no extra properties |
| Storage.Merge | lib/storage.ts:70-74 | an update never changes `id` or `createdAt` and always sets `updatedAt` to the time of the update |
| Storage.MergeFields | lib/storage.ts:62-74 | field by field: a field in the patch overwrites the old value, an absent field keeps it, and a field given as `undefined` clears it |
| Storage.MergeEmpty | lib/storage.ts:70-74 | an empty patch changes only `updatedAt` |
| Storage.MergeIdempotent | lib/storage.ts:70-74 | applying the same patch twice at the same time equals applying it once |
| Storage.MergeThen | lib/storage.ts:70-74 | two updates in a row equal one update with the composed patch (the later patch wins field by field), stamped with the later time |
| Storage.IndexOf | lib/storage.ts:64 | the first position holding exactly the id, or -1 exactly when no task has it |
| Storage.Updated | lib/storage.ts:62-77 | length and ids are preserved; only the first task with the id changes, to the merge of that task with the patch; an unknown id leaves the tasks unchanged |
| Storage.FindCreated | lib/storage.ts:46-60 | a task created under an id no other task has is the one an exact lookup of that id finds, at the end of the board |
| Storage.Board.Initial | lib/storage.ts:17-24 | a missing board document loads as an empty board stamped with the current time |
| Storage.Board.Save | lib/storage.ts:30-34 | saving stamps `lastUpdated` with the current time and leaves the tasks alone |
| Storage.Board.GetTasks | lib/storage.ts:36-39 | every task, in stored order |
| Storage.Board.GetTask | lib/storage.ts:41-44 | nothing exactly when no task has the id; otherwise the task at the first position with exactly that id |
| Storage.Board.TasksByStatus | lib/storage.ts:80-83 | exactly the tasks with the given status, in board order and with the multiplicity `filter` keeps |
| Storage.Board.Create | lib/storage.ts:46-60 | the board becomes the old tasks followed by exactly the one new task, which is returned; the board is saved |
| Storage.Board.Update | lib/storage.ts:62-78 | an unknown id returns nothing and neither changes nor saves the board; otherwise only the first task with that id is replaced by its merge with the patch, the returned task is the one now stored there, and the board is saved |
| TasksRoute.InputFrom | app/api/tasks/route.ts:26-34 | the body's fields are passed through to the store; absent `tags` become the empty list; no link is set on create |
| TasksRoute.ReviewRequest | app/api/tasks/route.ts:38-41 | the remote title is "Review: " followed by the task's title; the notes are the description, the separator line, then the task's id |
| TasksRoute.LinkLandsOnCreated | app/api/tasks/route.ts:43-47 | when the fresh id is not taken, the link update changes only the task just appended, setting its link and its `updatedAt` |
| TasksRoute.LinkMissesCreated | app/api/tasks/route.ts:43-47 | when the fresh id is already taken, the link update lands on the earlier task with that id and the task just appended stays unlinked |
| TasksRoute.Get | app/api/tasks/route.ts:5-13 | status 200 with every task of the board in stored order |
| TasksRoute.Post | app/api/tasks/route.ts:15-51 | a body with any of title, description, priority or status missing or empty gets 400 and changes nothing. Otherwise the task is appended and returned with 201. A Review task issues exactly one remote create request and other statuses none. Only a truthy remote id is stored through the update and set on the response; the response keeps the creation `updatedAt` |
| SyncRoute.RemoteId | app/api/tasks/sync/route.ts:9-14 | a queried task is looked up by its link, which is present and not empty |
| SyncRoute.Completing | app/api/tasks/sync/route.ts:13-17 | the tasks moved to Done, in lookup order: never more than there were lookups |
| SyncRoute.CompletingMembers | app/api/tasks/sync/route.ts:13-17 | a task is among those moved to Done exactly when some lookup of it, at its own position, was answered completed |
| SyncRoute.CompletingCount | app/api/tasks/sync/route.ts:33-35 | `synced` counts the lookups answered completed |
| SyncRoute.Reconciled | app/api/tasks/sync/route.ts:17-21 | updating the completed tasks one by one keeps the board's length and its ids in order |
| SyncRoute.ReconciledMentions | app/api/tasks/sync/route.ts:17-21 | with unique ids, a task is moved to Done (once, however often it is named) exactly when some completed task carries its id, and is otherwise unchanged |
| SyncRoute.FilterUniqueIds | app/api/tasks/sync/route.ts:9 | the queried tasks of a board with unique ids have unique ids |
| SyncRoute.ReconciledTasks | app/api/tasks/sync/route.ts:9-21 | with unique ids: a task that is not in Review or has no link stays as it was; the `i`-th queried task becomes Done, unlinked and restamped when the `i`-th lookup answered completed, and stays as it was otherwise |
| SyncRoute.Handle | app/api/tasks/sync/route.ts:17-29 | one turn of the loop: an answer other than completed changes nothing; a completed one updates the task by id to Done with its link cleared, saves the board and appends the task's summary line |
| SyncRoute.Sync | app/api/tasks/sync/route.ts:6-36 | the remote ids looked up are those of the linked Review tasks, in board order; the board becomes the reconciliation of the tasks whose lookup answered completed, the summary lists those tasks in lookup order as `{taskId, title, completed}` with `synced` its length, and the board is saved only when something was updated |
| Cli.Trim | cli.js:79 | the result is the input between leading and trailing white space, and neither starts nor ends with white space |
| Cli.Split | cli.js:79 | at least one piece; no piece contains the separator; joining the pieces with it gives the input back |
| Cli.SplitJoin | cli.js:79 | splitting pieces joined by the separator gives the pieces back |
| Cli.SplitCount | cli.js:79 | splitting yields one piece more than the input has separators, so empty pieces are kept |
| Cli.ParseTags | cli.js:79 | an empty argument gives no tags; otherwise the comma-separated pieces of the argument, in order, each trimmed, one more than there are commas |
| Cli.TagsValue | cli.js:101-102 | `update … tags` splits with no empty-string test: an empty value gives one empty tag, any other value the same tags as `create` |
| Cli.CliTask | cli.js:73-83 | the created task is the store's new task built from the raw labels, the parsed tags and the agent (an empty agent is no agent); its labels read back unchanged |
| Cli.CreateTask | cli.js:65-86 | an empty required argument fails before the board changes; otherwise the new task is appended at the end and the board is saved |
| Cli.FindByPrefix | cli.js:94 | the first task whose id starts with the argument, or -1 exactly when there is none |
| Cli.PrefixMatchNoLater | cli.js:94 | a full id on the command line finds a task no later than exact lookup does, so an earlier task whose id extends it is chosen instead |
| Cli.SetFieldThenRead | cli.js:101-105 | after setting a field, reading it gives the value set (for `tags`, the split list), except that `__proto__` on a task without such an own property is left as it was; every other field reads as before |
| Cli.Edited | cli.js:101-108 | the updated task has the field set (with the same `tags` and `__proto__` cases) and `updatedAt` refreshed; every other property, and `tags` unless it is the field, is as before |
| Cli.UpdateTask | cli.js:92-112 | with no prefix match nothing changes and nothing is returned; otherwise only the first matching task is replaced by its edit and the board is saved |
| Cli.MoveTask | cli.js:114-116 | the same outcome as `update <prefix> status <value>`; the new status reads back as the label given |
| Cli.ShowTask | cli.js:118-125 | nothing exactly when no id starts with the argument; otherwise the first task whose id does |
| Cli.Listed | cli.js:39-43 | with no filter, every task; with one, exactly the tasks whose status label equals it |
| Cli.ListedIsByStatus | cli.js:41-43 | filtering by a label is the store's filtering by the status that label denotes |
| Cli.Groups | cli.js:47-50 | one column per status of the order that has a task, in that order, each holding exactly that status's tasks in board order |
| Cli.GroupsCover | cli.js:47-50 | with distinct column statuses, the columns hold between them exactly the tasks whose status is one of those columns |
| Cli.ListView | cli.js:41-50 | the total printed is the number of selected tasks; one column for each of the six statuses that has a selected task, in the fixed order, holding exactly those tasks in board order; between them the columns hold exactly the selected tasks with a known status |

## Left out

- File persistence (`loadBoard`, `saveBoard`, `ensureDataDir`; the CLI's own copies) and JSON (de)serialisation: the board is an in-memory object; only the missing-file branch and the save stamp are modelled.
- The remote task service (`lib/google-tasks.ts`) is not part of this model; its answers are parameters.
- Id and timestamp generation (`Date.now()`, `Math.random()`, `toISOString()`): the fresh id and the time are parameters. Nothing assumes the fresh id is unused except the lemmas that say what happens when it is (`TasksRoute.LinkLandsOnCreated`, `Storage.FindCreated`), next to `TasksRoute.LinkMissesCreated` for when it is not.
- The `try/catch` → 500 paths of both endpoints, which only exceptions from I/O reach; races between concurrent requests on the shared file.
- The PATCH status-transition route: its handler is not part of this model.
- The React UI (`components/`), CLI argument dispatch, `process.exit`, and the console formatting of `list` and `show`.
- `POST` bodies whose fields are not strings (numbers, objects, a non-array truthy `tags`): the body is modelled with string fields, a string-list `tags`, and absent or `null` as `None`.
- SyncRoute.Sync: the `if (updated)` test can never fail in the model, because each queried task's id is still on the board when its turn comes (the board is not shared with other requests here); the summary therefore lists every task whose lookup answered completed.
- SyncRoute.ReconciledTasks: stated for boards with unique ids. With duplicate ids each update lands on the first task with the id; `SyncRoute.Sync` still states that outcome exactly through `Storage.Updated`.
- Cli.Trim: white space is the fixed list of characters JavaScript's `trim` removes. Strings are sequences of Dafny `char`, which are Unicode scalar values, whereas JavaScript strings are sequences of UTF-16 code units. So a character outside the Basic Multilingual Plane has length 1 here and 2 in JavaScript, lone surrogates cannot occur, and Cli.FindByPrefix does not model `startsWith` with a prefix that ends in the first half of a surrogate pair, which JavaScript accepts.
- Cli.ListView: the columns are modelled as values (status and tasks); the printed text is not modelled.
- Cli.UpdateTask: setting a field replaces the stored task value; object identity and the JSON order of properties are not modelled.
