# Task tracker CLI — a verified model of its command core

The task tracker is a Node.js command-line tool, `task-cli`. Each run loads
an array of task records from `tasks.json`, then runs one command on that
array. The commands are `add`, `update`, `delete`, `mark-in-progress`,
`mark-done` and `list`; anything else prints the usage text. After a
successful mutating command the tool writes the whole array back.

This project models that command core in Dafny:

- `task_model.dfy` (module `TaskModel`) gives the data (`Task`, `Command`,
  `Outcome`) and one pure function per command. Each function maps the
  collection before the command to the collection after it, together with
  what the command reports. `FirstIndex` is the `find`/`findIndex` scan.
  `WithStatus` is the `filter` behind `list`.
- `task_list.dfy` (module `TaskCli`) holds the class `TaskList`. It keeps the
  loaded array in `tasks` and what `saveTasks` last wrote in `saved`. Its
  methods work in place, as `main` does: `push`, assignment to the found
  task, and `splice` after a linear scan. Each method is proved to produce
  exactly the transition of its `TaskModel` function, and to rewrite the
  file exactly when the command succeeds.
- `task_properties.dfy` (module `TaskProperties`) proves what the commands
  promise, about those functions.

In three places the code does less than a tracker of this kind is usually expected to do. The model follows the code:

- An empty or corrupt file is not treated as an empty collection.
  The code calls `JSON.parse`, which throws on such content. Loading is not
  part of this model.
- Ids are not guaranteed unique, and a second `delete` of the same id need not
  report not-found. The code assigns ids as length + 1, so after a deletion
  two tasks can share an id. `DuplicateIdsReachable` shows a run where this
  happens and where the second `delete` then succeeds. `DeleteTwiceNotFound`
  shows that a second delete does report not-found while ids are distinct.
- The tool writes only the statuses `todo`, `in-progress` and `done`, but `list`
  does not check its argument. A status that no task has shows nothing
  (`ListUnknownStatusEmpty`). The three known statuses are kept by every
  command (`ExecuteKeepsWellFormed`). So on tasks the tool wrote itself, any
  other string shows nothing (`ListOtherStatusShowsNothing`).

## Model

| member | source | states |
|---|---|---|
| `TaskModel.FirstIndex` | backend/task-tracker-cli/task-cli.js:98-99 | the result is -1 exactly when no task has the id; otherwise it is the index of a task with that id, and no earlier task has it |
| `TaskModel.WithStatus` | backend/task-tracker-cli/task-cli.js:163 | a task is in the result iff it is in the collection with exactly that status; the result is no longer than the collection |
| `TaskModel.ListTasks` | backend/task-tracker-cli/task-cli.js:156-164 | reference definition of `list`: shows only tasks of the collection, never more than it holds; proved exact in `ListAll`, `ListFilters`, `WithStatusAppend` |
| `TaskModel.AddTask` | backend/task-tracker-cli/task-cli.js:33-56 | reference definition of `add`: reports `Ok(length + 1)` or an empty description; on success exactly one task is added after the unchanged old ones, otherwise nothing changes; the new task is pinned in `AddAppends` |
| `TaskModel.UpdateTask` | backend/task-tracker-cli/task-cli.js:58-87 | reference definition of `update`: reports an invalid id, a missing task, an empty description or `Ok` of the given id; never changes the length, any id or any status; a failure changes nothing; the rest is proved in `UpdateValidationOrder`, `UpdateChangesOnlyFirstMatch` |
| `TaskModel.DeleteTask` | backend/task-tracker-cli/task-cli.js:89-108 | reference definition of `delete`: reports an invalid id, a missing task or `Ok` of the given id; a success removes one task and adds none, a failure changes nothing; the rest is proved in `DeleteRemovesFirstMatch` |
| `TaskModel.SetStatus` | backend/task-tracker-cli/task-cli.js:110-154 | reference definition of both mark branches: reports an invalid id, a missing task or `Ok` of the given id; never changes the length, any id or any description; a failure changes nothing; the rest is proved in `MarkSetsStatus`, `MarkLastWriteWins` |
| `TaskModel.Execute` | backend/task-tracker-cli/task-cli.js:32-182 | reference definition of the switch: only a reported success changes the collection; the list report comes exactly from `list`, the usage text exactly from an unrecognised command |
| `TaskCli.TaskList.constructor` | backend/task-tracker-cli/task-cli.js:15-18 | the in-memory collection and the file content are both the loaded records |
| `TaskCli.TaskList.Save` | backend/task-tracker-cli/task-cli.js:21-23 | the file then holds the whole in-memory collection, which itself is unchanged |
| `TaskCli.TaskList.IndexOf` | backend/task-tracker-cli/task-cli.js:98 | the linear scan returns the first index with the id, or -1 iff no task has it |
| `TaskCli.TaskList.Add` | backend/task-tracker-cli/task-cli.js:33-56 | the in-place `push` gives the collection and report of `AddTask`; the file is rewritten iff the add succeeds |
| `TaskCli.TaskList.Update` | backend/task-tracker-cli/task-cli.js:58-87 | the in-place field assignments give the collection and report of `UpdateTask`; the file is rewritten iff the update succeeds |
| `TaskCli.TaskList.Delete` | backend/task-tracker-cli/task-cli.js:89-108 | `findIndex` then `splice(index, 1)` gives the collection and report of `DeleteTask`; the file is rewritten iff the delete succeeds |
| `TaskCli.TaskList.Mark` | backend/task-tracker-cli/task-cli.js:110-154 | both mark branches give the collection and report of `SetStatus` with their status; the file is rewritten iff the mark succeeds |
| `TaskCli.TaskList.Run` | backend/task-tracker-cli/task-cli.js:32-182 | the dispatch gives the collection and report of `Execute`; the file is rewritten only after a successful mutating command, never for `list` or an unknown command |
| `TaskProperties.AddAppends` | backend/task-tracker-cli/task-cli.js:41-51 | a non-empty add appends exactly one task at the end, with id old length + 1, status `todo` and both timestamps equal to the supplied time; earlier tasks are unchanged |
| `TaskProperties.AddEmptyRejected` | backend/task-tracker-cli/task-cli.js:35-39 | an empty description is reported and leaves the collection unchanged |
| `TaskProperties.AddKeepsIdsUniqueIff` | backend/task-tracker-cli/task-cli.js:43 | given distinct ids, an add keeps them distinct iff no task already has id length + 1 |
| `TaskProperties.UpdateValidationOrder` | backend/task-tracker-cli/task-cli.js:63-78 | the checks run in this order: invalid id, then not found (even if the description is also empty), then empty description; each failure leaves the collection unchanged; success holds iff all three checks pass |
| `TaskProperties.UpdateChangesOnlyFirstMatch` | backend/task-tracker-cli/task-cli.js:70-83 | a successful update changes only the description and `updatedAt` of the first task with the id; length, order, other tasks and that task's id, status and `createdAt` are kept |
| `TaskProperties.DeleteRemovesFirstMatch` | backend/task-tracker-cli/task-cli.js:91-104 | delete succeeds iff the id parses and some task has it; on success exactly the first such task is removed, the rest keep their order, the length drops by one, and the multiset loses only that task; otherwise nothing changes |
| `TaskProperties.DeleteTwiceNotFound` | backend/task-tracker-cli/task-cli.js:98-103 | with distinct ids, deleting the same id again reports not found |
| `TaskProperties.MarkSetsStatus` | backend/task-tracker-cli/task-cli.js:112-150 | marking succeeds iff the id parses and some task has it; on success only the first such task changes, getting the new status and `updatedAt`; otherwise nothing changes |
| `TaskProperties.FirstIndexSameIds` | backend/task-tracker-cli/task-cli.js:119 | two collections with the same ids at every position have the same first match for every id |
| `TaskProperties.MarkLastWriteWins` | backend/task-tracker-cli/task-cli.js:112-149 | for every id, valid or not, two successive marks give the same result as the second one alone |
| `TaskProperties.ListAll` | backend/task-tracker-cli/task-cli.js:158-164 | with no status, or an empty one, `list` shows every task in order, with their number as the count |
| `TaskProperties.ListFilters` | backend/task-tracker-cli/task-cli.js:162-164 | with a status, `list` shows exactly the tasks with that status |
| `TaskProperties.WithStatusAppend` | backend/task-tracker-cli/task-cli.js:163 | filtering keeps the original order: filtering a concatenation concatenates the filtered parts |
| `TaskProperties.WithStatusSingle` | backend/task-tracker-cli/task-cli.js:163 | a single task is kept exactly when its status matches |
| `TaskProperties.ListUnknownStatusEmpty` | backend/task-tracker-cli/task-cli.js:162-164 | a status no task has, such as an unknown string, shows no task |
| `TaskProperties.ListOtherStatusShowsNothing` | backend/task-tracker-cli/task-cli.js:162-167 | on well-formed tasks, `list` with a non-empty status other than `todo`, `in-progress`, `done` shows zero tasks |
| `TaskProperties.WithStatusIdempotent` | backend/task-tracker-cli/task-cli.js:163 | filtering twice by one status is filtering once |
| `TaskProperties.ListNeverMutates` | backend/task-tracker-cli/task-cli.js:156-174 | `list` leaves the collection unchanged, and its count line equals the number of tasks shown |
| `TaskProperties.FailureChangesNothing` | backend/task-tracker-cli/task-cli.js:176-181 | every command that reports an error leaves the collection unchanged; an unrecognised command changes nothing and prints the usage text |
| `TaskProperties.ExecuteKeepsWellFormed` | backend/task-tracker-cli/task-cli.js:42-48 | if every task has a positive id, a non-empty description and a known status, every command keeps that true |
| `TaskProperties.DuplicateIdsReachable` | backend/task-tracker-cli/task-cli.js:43 | add, add, delete 1, add leaves two tasks with id 2; delete 2 then succeeds twice and empties the collection |
| `TaskProperties.EndToEnd` | backend/task-tracker-cli/task-cli.js:33-174 | from an empty file: `add "Buy milk"` gives task 1 in `todo`; after `mark-done 1`, `list done` shows it; after `delete 1`, `list` shows no task |

## Left out

- File I/O is not modelled: creating the file, `readFileSync`, `writeFileSync` and `JSON.stringify` formatting (task-cli.js:9-23). The file is the `saved` field. A load is the class constructor, given the records already decoded.
- `JSON.parse` is not modelled, and neither is what it does on empty or corrupt content (it throws).
- Records in the file are not schema-checked in the source. The model assumes every record has the five fields with these types. An id stored as a string, which `===` would never match, is not modelled.
- The clock is a `now` parameter. `add` reads the clock twice (lines 46-47), so the two timestamps can differ when a millisecond boundary falls between the reads. The model gives both the same value.
- `parseInt(…, 10)` is not modelled. Ids come in as `Option<int>`, with `None` for NaN.
- Ids are unbounded integers. The JavaScript number range, including precision beyond 2^53, is not modelled.
- `process.argv` splitting and `join(' ')` are not modelled. Descriptions come in as the joined string, and the command as an already-parsed `Command`.
- Console text is not modelled. That covers the Spanish messages, the raw id string echoed by `update`, the usage lines, and the `toUpperCase` formatting in `list`. It is replaced by the `Outcome` value, which carries the count and the tasks shown.
- Object aliasing is not modelled. The source updates the found task object through the reference `find` returns. The model replaces the element at that index instead. Nothing else holds the reference, so the result is the same.
