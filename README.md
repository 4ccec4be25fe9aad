# CLI task manager — Dafny model

A model of the task store of a small command-line task tracker
(`task_manager.py`). The tracker keeps a collection of tasks in a JSON object
whose keys are decimal task ids. Each task has a description, a status (`todo`,
`in-progress` or `done`), a creation time and an update time. One invocation
loads the collection and runs one command: `add`, `delete`, `clean`, `update`
or `list`. It then saves the collection, and every save renumbers the ids to
1..N in iteration order.

Files and modules:

- `task_model.dfy` (`TaskModel`): statuses and their string values, status
  validation, tasks, and the collection. The collection is an insertion-ordered
  sequence of `Entry(id, task)`, because a Python dict keeps insertion order.
  This file also holds key lookup (`Find`) and the largest key (`MaxKey`).
- `task_ops.dfy` (`TaskOps`): each operation as a function of the collection
  before it runs (`Renumbered`, `Added`, `Deleted`, `StatusUpdated`, `Shown`),
  with lemmas stating what the tracker promises of each one.
- `task_store.dfy` (`TaskStore`): the imperative part.
  - `ReorganizeIds` and `ListTasks` are loops proved against those functions.
  - The class `TaskCollection` is the dictionary that the commands change in
    place. Its methods keep the keys distinct.
- `dispatch.dfy` (`Dispatch`): the five commands. `RunCommand` runs one
  operation and then saves, as `main` does. `Run` is its pure counterpart:
  renumbering applied to the result of the operation. Its lemmas cover what an
  invocation leaves in the file.

Keys are natural numbers. The source stores them as decimal strings: `add_task`
reads them back with `int(k)`, and `save_tasks` writes `str(n)`. Timestamps are
natural numbers standing for the formatted `YYYY-MM-DD HH:MM:SS` clock reading,
whose string order is chronological order. The clock reading is a parameter
`now`.

On an empty collection `list_tasks` prints both "No tasks found" and "No tasks
found with status: ...", because `flag` stays false (task_manager.py:88-104).
`ListTasks` reports `noTasks` and `noMatch` independently, so both are true for
an empty collection.

## Model

| member | source | states |
|---|---|---|
| TaskModel.IsValidStatus | task_manager.py:15-19 | a string is valid exactly when it is the value of one of the three statuses |
| TaskModel.ParseStatus | task_manager.py:76-80 | a status is found exactly for a valid string, and its value is that string (the string stored by update) |
| TaskModel.Find | task_manager.py:80 | dictionary lookup: a position is found exactly when the key is present; it holds that key and is the first such position |
| TaskModel.MaxKey | task_manager.py:52 | the result bounds every key, is 0 for an empty collection and is one of the keys otherwise |
| TaskModel.DenseHasDistinctKeys | task_manager.py:44-46 | keys 1..N in order are pairwise distinct |
| TaskModel.DenseMaxKey | task_manager.py:52 | on a collection with keys 1..N, the largest key is N |
| TaskOps.RenumberFromAt | task_manager.py:45-46 | the k-th renumbered entry holds key start+k and the k-th task |
| TaskOps.RenumberedSpec | task_manager.py:39-48 | renumbering keeps the size and the tasks in order, gives keys exactly 1..N, and maps empty to empty |
| TaskOps.RenumberedOfDense | task_manager.py:39-48 | a collection already keyed 1..N is returned unchanged |
| TaskOps.RenumberedIdempotent | task_manager.py:39-48 | renumbering twice equals renumbering once |
| TaskOps.AddedSpec | task_manager.py:52-59 | the new key is not already present, keys stay distinct, earlier entries are unchanged, the size grows by one, and the new task has the given description, status todo and both times equal to now |
| TaskOps.AddedToDense | task_manager.py:52-54 | on a collection keyed 1..N the new key is N+1 and the keys stay 1..N+1 |
| TaskOps.DeletedSpec | task_manager.py:62-67 | a present key's entry is removed (size drops by one) and every other entry is kept in its iteration order; an absent key leaves the collection unchanged; keys stay distinct |
| TaskOps.UpdateInvalidStatus | task_manager.py:76-78 | an invalid status leaves the collection unchanged whether or not the key exists, since status is checked before lookup |
| TaskOps.UpdateValidStatus | task_manager.py:79-84 | a valid status on a present key sets that task's status and update time and keeps its description and creation time; every other entry is untouched; an absent key changes nothing |
| TaskOps.ShownAppend | task_manager.py:95-101 | one more input entry adds one row at the end exactly when it matches the filter |
| TaskOps.ShownSpec | task_manager.py:95-101 | the rows are exactly the entries whose status equals the filter, or all entries for "all" |
| TaskOps.ShownAll | task_manager.py:96 | with the filter "all" every entry is shown, in order |
| TaskOps.ShownEmpty | task_manager.py:94-104 | no row is shown exactly when no entry matches the filter |
| TaskStore.ReorganizeIds | task_manager.py:39-48 | the loop builds the renumbered collection: same size, keys 1..N, the same tasks in order |
| TaskStore.ListTasks | task_manager.py:86-104 | the loop emits exactly the matching rows in order; "No tasks found" appears iff the collection is empty; the with-status message appears iff no row was emitted, i.e. iff no entry matches |
| TaskStore.TaskCollection.constructor | task_manager.py:173 | the loaded collection, with distinct keys |
| TaskStore.TaskCollection.AddTask | task_manager.py:50-60 | inserts the new todo task under the largest key plus one, returns that key (not previously present), keys stay distinct |
| TaskStore.TaskCollection.DeleteTask | task_manager.py:62-67 | pops the key's entry; reports deleted exactly when the key was present |
| TaskStore.TaskCollection.CleanTasks | task_manager.py:69-72 | the collection is empty afterwards |
| TaskStore.TaskCollection.UpdateTaskStatus | task_manager.py:74-84 | reports an invalid status before a missing key; changes the collection only as the update function says |
| TaskStore.TaskCollection.SaveTasks | task_manager.py:33-37 | the renumbering step of save: keys become 1..N over the same tasks |
| Dispatch.RunCommand | task_manager.py:166-178 | one command then a save: the result is the renumbered outcome of the operation, keyed 1..N; add reports the new key, delete reports presence, clean reports cleaning, update reports an invalid status before a missing key and otherwise success, list reports its rows and messages |
| Dispatch.ApplyKeepsKeysDistinct | task_manager.py:50-84 | no operation introduces a duplicate key |
| Dispatch.RunLeavesDenseIds | task_manager.py:173-178 | after any invocation the keys are exactly 1..N over the tasks the operation left, in order |
| Dispatch.ListKeepsTasks | task_manager.py:173-178 | list followed by save changes no task; on a collection keyed 1..N it changes nothing at all |
| Dispatch.ListTwice | task_manager.py:173-178 | a second list invocation leaves the file as the first one left it |
| Dispatch.AddOnSavedStore | task_manager.py:52-54 | on a saved collection, add's reported key N+1 survives the save and the new task is appended last |
| Dispatch.DeleteShiftsLaterIds | task_manager.py:36-46 | ids are not stable: after deleting key k and saving, every later task moves down one key and earlier ones keep theirs |
| Dispatch.RunKeepsTimestampsOrdered | task_manager.py:57-81 | if the clock reads no earlier than every creation time, every task keeps its update time at or after its creation time |

## Left out

- `load_tasks` and the file write of `save_tasks` (task_manager.py:21-37): this is file I/O and JSON. Only the renumbering applied on save is modelled. The loaded collection is a constructor argument.
- Corrupt or missing task file: both give an empty collection in `load_tasks`. This is not modelled, because loading is not modelled.
- `datetime.now()`: this is the wall clock, passed in as `now`. `add_task` reads the clock twice (task_manager.py:57-58). Near a second boundary the two readings can differ. The model uses one reading for both times.
- Keys as strings: keys are naturals. String forms such as "01" and "1" are distinct dict keys in the source but equal in the model. A non-numeric key makes `int(k)` in `add_task` raise. Negative keys are not representable. The constructor requires distinct natural keys.
- Status strings in the file: a task's status is one of the three statuses. A hand-edited file holding any other status string is not representable.
- TaskStore.TaskCollection.DeleteTask: reports deleted exactly when the key was present. The source tests the popped task's truthiness. A task stored as an empty object would be removed but reported missing. Tasks in the model are always records, which are always truthy.
- Console text and the fixed-width table of `list_tasks` (task_manager.py:89-92, 98-101, 105): only which rows are shown and which messages appear are modelled. The other commands' messages are the `Report` values.
- `SupportedQueries` and argparse (task_manager.py:107-164): lower-casing of `new_status`, the `choices` checks and usage errors are argument-parsing plumbing. The command table is the `Command` datatype and the dispatch in `RunCommand`.
- Dispatch.RunKeepsTimestampsOrdered: requires that the clock is not behind any creation time. The source cannot ensure this because it reads the wall clock.
- TaskStore.TaskCollection.SaveTasks: renumbers `entries` in place. The source rebinds a local to the renumbered dict and writes that to the file, leaving `main`'s `tasks` dict as it was (task_manager.py:36). `entries` after `SaveTasks` stands for the file's content. Nothing reads `tasks` after the save, because `main` ends there.
