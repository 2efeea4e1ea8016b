# To-do list task manager, modelled in Dafny

This project models the state logic of a browser to-do list (`to-do-list-app/src/scripts/script.js`).
A `TaskManager` holds an ordered list of task records. Each record has an id, a text and a
`completed` flag. Five commands change the list:

- add a task;
- toggle the first task with an id;
- delete the tasks with an id;
- clear the completed tasks;
- clear all tasks.

After each change the list is written to local storage. The three counters (total, pending,
completed) and the "no tasks" message are then brought up to date. The add button first trims
the typed text and refuses it when nothing is left.

Modules:

- `ArrayOps` (`array_ops.dfy`): the JavaScript array operations the manager uses, over sequences.
  These are `filter` (`Filter`), `find` (`FindIndex`, the position of the element found) and
  `some` (`Any`), with their lemmas: order is kept, idempotence, and the split into a predicate
  and its negation.
- `Tasks` (`tasks.dfy`): the `Task` record and the `Stats` triple. Also the pure list updates
  behind the commands (`WithoutId`, `Toggled`, `PendingOnly`) and the lemmas about them.
- `Text` (`text.dfy`): white space and `trim`.
- `Manager` (`manager.dfy`): the `TaskManager` class and the `AddNewTask` command. Then a few
  client methods (`Scenario…`) that run short command sequences and assert what the contracts
  let a caller conclude.

`TaskManager` keeps `tasks` as a `seq<Task>` field that the commands reassign. It also has two
fields for the values written to the page: `shownStats` and `emptyShown`. Two ghost fields
stand for local storage: `saved`, the list a load would return (the list last written, or the
empty list when nothing is stored), and `saveCount`, the number of writes.
Its invariant `Valid()` says three things hold between commands:

- a load from storage would return the current list;
- the counters show `StatsOf(tasks)`;
- the empty message is shown exactly when the list is empty.

Every command keeps this invariant. Each command's `ensures` says whether it writes to storage.

Two facts about the code shape the model:

- Ids come from `Date.now()` (`script.js:32`) and need not be unique. No member of the model
  assumes unique ids. With a repeated id, `Toggled` flips only the first matching task, because
  the code uses `find`. `WithoutId` removes every matching task, because the code uses `filter`.
- Only `addNewTask` trims the text and refuses empty text (`script.js:199-211`). `addTask`
  accepts any text, and so does `TaskManager.AddTask`.

## Model

| member | source | states |
|---|---|---|
| `ArrayOps.Filter` | to-do-list-app/src/scripts/script.js:52 | the result is no longer than the input; it holds exactly the input's elements that satisfy the predicate |
| `ArrayOps.FindIndex` | to-do-list-app/src/scripts/script.js:42 | `find` semantics: a found position holds a matching element and no earlier element matches; when nothing is found, no element matches |
| `ArrayOps.Any` | to-do-list-app/src/scripts/script.js:60 | `some` is true exactly when some position holds a matching element |
| `ArrayOps.FilterConcat` | to-do-list-app/src/scripts/script.js:63 | filtering keeps relative order: it distributes over concatenation |
| `ArrayOps.FilterAll` | to-do-list-app/src/scripts/script.js:63 | when every element passes, filtering returns the input unchanged |
| `ArrayOps.FilterNone` | to-do-list-app/src/scripts/script.js:152 | when no element passes, filtering returns the empty sequence |
| `ArrayOps.AnyIffFilterNonEmpty` | to-do-list-app/src/scripts/script.js:60-63 | the `some` guard is true exactly when the filter would keep something |
| `ArrayOps.FilterIdempotent` | to-do-list-app/src/scripts/script.js:52 | filtering twice by the same predicate equals filtering once |
| `ArrayOps.FilterComplement` | to-do-list-app/src/scripts/script.js:151-153 | the lengths of the filters by a predicate and by its negation add up to the input length |
| `ArrayOps.FilterUpdateLength` | to-do-list-app/src/scripts/script.js:44 | replacing one element changes the filtered length by what the old and the new element contribute |
| `Tasks.StatsOf` | to-do-list-app/src/scripts/script.js:150-153 | total is the list length; completed <= total; pending is non-negative, equals the number of pending tasks and adds up with completed to total |
| `Tasks.StatsNoneCompleted` | to-do-list-app/src/scripts/script.js:152 | the completed count is 0 exactly when no task is completed, that is, exactly when the `some` guard of clear-completed is false |
| `Tasks.AddStats` | to-do-list-app/src/scripts/script.js:31-36 | appending a new pending task adds one to total and pending and leaves completed unchanged |
| `Tasks.WithoutId` | to-do-list-app/src/scripts/script.js:51-52 | the `filter` of delete: no task with the id remains; a task remains exactly when it was there and its id differs; the list shrinks by the number of tasks with the id |
| `Tasks.DeleteAbsent` | to-do-list-app/src/scripts/script.js:51-52 | deleting an id no task has leaves the list unchanged |
| `Tasks.DeleteIdempotent` | to-do-list-app/src/scripts/script.js:51-52 | a second delete of the same id changes nothing |
| `Tasks.Toggled` | to-do-list-app/src/scripts/script.js:41-47 | same length; only the first task with the id changes, and only in its `completed` flag; ids, texts and order stay; the list is unchanged when no task has the id |
| `Tasks.ToggleTwice` | to-do-list-app/src/scripts/script.js:41-47 | toggling the same id twice restores the original list |
| `Tasks.ToggleStats` | to-do-list-app/src/scripts/script.js:41-46 | toggle keeps total; it moves the completed count by -1 or +1 depending on the first match's old flag; with no match the stats are unchanged |
| `Tasks.PendingOnly` | to-do-list-app/src/scripts/script.js:63 | the `filter` of clear-completed: no completed task remains; a task remains exactly when it was there and pending; the list shrinks by the number of completed tasks |
| `Tasks.ClearCompletedStats` | to-do-list-app/src/scripts/script.js:59-66 | after clearing, the completed count is 0 and the pending count is unchanged |
| `Tasks.ClearCompletedNoop` | to-do-list-app/src/scripts/script.js:60-62 | with no completed task, clearing leaves the list as it was, so skipping the update in that case changes nothing |
| `Text.WhitespaceAscii` | to-do-list-app/src/scripts/script.js:200 | the white-space set `trim` removes (`Text.IsWhitespace`) contains, among ASCII characters, exactly space and TAB through CR, and no letter or digit |
| `Text.TrimStart` | to-do-list-app/src/scripts/script.js:200 | the result is a suffix of the input that does not start with white space, and only white space was removed |
| `Text.TrimEnd` | to-do-list-app/src/scripts/script.js:200 | the result is a prefix of the input that does not end with white space, and only white space was removed |
| `Text.Trim` | to-do-list-app/src/scripts/script.js:200-202 | the result is empty exactly when the input is all white space; otherwise it starts and ends with a non-white-space character |
| `Text.TrimSlice` | to-do-list-app/src/scripts/script.js:200 | the trimmed text is a contiguous piece of the input with only white space before and after it |
| `Text.TrimKeeps` | to-do-list-app/src/scripts/script.js:200 | a string that neither starts nor ends with white space is returned unchanged by `trim` |
| `Text.TrimIdempotent` | to-do-list-app/src/scripts/script.js:200 | trimming twice equals trimming once |
| `Manager.TaskManager.constructor` | to-do-list-app/src/scripts/script.js:24-28 | the list is the stored one, or empty when nothing is stored; the invariant holds, with storage, counters and empty message in step with the list |
| `Manager.TaskManager.AddTask` | to-do-list-app/src/scripts/script.js:31-38 | the list becomes the old list plus one new pending task with the given id and text at the end; total rises by one and completed stays; the empty message is hidden; the list is saved |
| `Manager.TaskManager.ToggleTaskComplete` | to-do-list-app/src/scripts/script.js:41-48 | the list becomes `Toggled(old list, id)`; it is saved exactly when some task has the id |
| `Manager.TaskManager.DeleteTask` | to-do-list-app/src/scripts/script.js:51-56 | the list keeps exactly the tasks whose id differs, in order; it is always saved |
| `Manager.TaskManager.ClearCompleted` | to-do-list-app/src/scripts/script.js:59-69 | the list keeps exactly the pending tasks, in order; the completed counter shows 0; it is saved exactly when some task was completed |
| `Manager.TaskManager.ClearAll` | to-do-list-app/src/scripts/script.js:72-80 | the list is empty; the counters show 0, 0, 0 and the empty message is shown; it is saved exactly when the list was not empty |
| `Manager.TaskManager.SaveTasks` | to-do-list-app/src/scripts/script.js:83-85 | storage holds the current list; one more write is counted |
| `Manager.TaskManager.UpdateStats` | to-do-list-app/src/scripts/script.js:150-158 | the counters show the statistics of the current list |
| `Manager.TaskManager.ToggleEmptyMessage` | to-do-list-app/src/scripts/script.js:161-167 | the empty message is shown exactly when the list is empty |
| `Manager.AddNewTask` | to-do-list-app/src/scripts/script.js:199-211 | a task is added exactly when the input is not all white space; the added task is pending, has the trimmed, non-empty text and the given time as its id, and the list is written to storage once; otherwise the list is unchanged and nothing is saved |

## Left out

- Rendering and the DOM are not modelled: element lookup, building and removing rows, CSS classes, icons, and the text of the counters (`script.js:1-10`, `94-147`). Only the values written to the counters and the visibility of the empty message are kept.
- Event wiring and timing are not modelled: the listeners, the 300 ms delay before a delete, the shake animation and the confirmation prompt before clear-all (`script.js:110-133`, `174-196`, `204-207`). Clear-all is modelled on its confirmed path. Clearing and refocusing the input field after an add (`script.js:214-215`) is not modelled.
- Local storage and JSON are not modelled (`script.js:84`, `89-90`). The constructor takes what storage holds as an `Option<seq<Task>>`. Saving is the ghost `saved` field plus a write counter. JSON encoding, a stored empty string and a parse failure are not modelled.
- Clock reads are not modelled. `Date.now()` becomes the `id`/`now` parameter. The `createdAt` field (`script.js:18`) is never read, so it is dropped.
- Manager.TaskManager.ToggleTaskComplete: the code flips the flag on the shared task object that `find` returns. The model replaces the list element by value instead. No other reference reads that flag, so the resulting list is the same. Object identity is not modelled.
- Text.IsWhitespace lists the white-space and line-terminator code points of ECMA-262 by hand. It is not tied to a Unicode database.
