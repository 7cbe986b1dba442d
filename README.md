# To-do lists: the two screens' state, in Dafny

This project models the in-memory state of a React Native to-do list app. It has two
screens:

- **The home screen** (`HomeScreen`) holds an ordered array `lists` of `{id, title, tasks}`
  and the text input `newListTitle`. Its handlers are `addList`, `removeList` and
  `updateListTasks`.
- **The task screen** (`TodoScreen`) is opened on one list. It keeps working copies of that
  list's `tasks` and `title`, the `newTask` input and the edit fields `editingTaskId` and
  `editedTaskText`. Its handlers are `addTask`, `removeTask`, `toggleTask`, `startEditing`
  and `confirmEdit`.

Every handler builds a new array with spread, `filter` or `map` and stores it. The task
screen pushes `(list.id, tasks, title)` back to the home screen's `updateListTasks` after
each change to `tasks` and when the title field loses focus.

Layout:

- `HomeScreen.ListStore` and `TodoScreen.TaskSession` model the screens as classes. Their
  `seq` fields are reassigned by methods, one method per handler or input setter.
- The session's push (`TaskSession.Push`) is a call to the store's `UpdateListTasks`.
- The arrays the handlers build are pure functions in `TaskOps` and `ListOps`. The lemmas
  next to them state their properties: no-op conditions in both directions, kept order,
  involution, last-writer-wins, and uniqueness of ids.
- `Seqs.Filter` models `Array.prototype.filter`.
- `Text.Trim` models `String.prototype.trim`, including the full ECMAScript whitespace table.
- `Scenarios` walks through whole interactions, starting from the home screen's initial
  state.

Behaviour of the code worth knowing:

- `updateListTasks` is declared `(id, updatedTasks)` (screens/HomeScreen.tsx:30). The title
  the task screen passes as a third argument is therefore dropped. Renaming a list in the
  task screen and leaving the field never reaches the home screen, and
  `Scenarios.SportScenario` ends with the list still titled "Sport".
- `addTask` and `addList` store the untrimmed input. Trimming is used only to reject blank
  input.
- `removeTask`, `toggleTask` and `confirmEdit` always store a fresh array, so each one
  pushes, even when the contents did not change. A blank `addTask` returns early and does
  not push.
- Ids (`Date.now().toString()` in the code) are arguments chosen by the caller. Nothing
  checks that they are fresh, and uniqueness is proved only under that assumption.

## Model

| member | source | states |
|---|---|---|
| `Text.Trim` | screens/TodoScreen.tsx:21 | `s.trim()` is a contiguous part of `s` cut only at whitespace, and it neither starts nor ends with whitespace |
| `Text.TrimEmptyIffBlank` | screens/HomeScreen.tsx:19 | `s.trim() === ""` holds exactly when every character of `s` is whitespace |
| `Seqs.Filter` | screens/TodoScreen.tsx:28 | `filter` keeps exactly the elements that pass, and never lengthens the array |
| `Seqs.FilterCount` | screens/TodoScreen.tsx:28 | `filter` keeps every copy of a passing element and drops every copy of a failing one |
| `Seqs.FilterAppend` | screens/HomeScreen.tsx:26 | `filter` distributes over concatenation, so the kept elements stay in their original order |
| `Seqs.FilterIdentity` | screens/TodoScreen.tsx:28 | `filter` returns an equal array exactly when every element passes |
| `Seqs.FilterIdempotent` | screens/TodoScreen.tsx:28 | filtering twice with the same predicate equals filtering once |
| `Seqs.PairwiseAppend` | screens/TodoScreen.tsx:22 | appending an element keeps a pairwise property exactly when the new element is related to every earlier one |
| `Seqs.FilterPairwise` | screens/HomeScreen.tsx:26 | a pairwise property such as distinct ids survives filtering |
| `TaskOps.AppendTask` | screens/TodoScreen.tsx:22 | `[...tasks, {id, text, completed: false}]` keeps every earlier task in place and adds one task at the end with the given id and text, not completed |
| `TaskOps.RemoveTask` | screens/TodoScreen.tsx:28 | the result holds exactly the tasks whose id differs, and is no longer than before |
| `TaskOps.ToggleTask` | screens/TodoScreen.tsx:33-37 | length, order, ids and texts are kept; `completed` changes at exactly the positions whose id matches |
| `TaskOps.EditTaskText` | screens/TodoScreen.tsx:48-52 | length, order, ids and `completed` are kept; tasks with the id get the buffer text unchecked, and all other tasks are unchanged |
| `TaskOps.ConfirmedTasks` | screens/TodoScreen.tsx:48-52 | length, order, ids and `completed` are kept; a task takes the buffer text exactly when `editingTaskId` holds its id, so with `editingTaskId` null the contents are unchanged |
| `TaskOps.AppendTaskUniqueIff` | screens/TodoScreen.tsx:22 | after `addTask`, task ids are unique exactly when they were unique before and the new id was absent |
| `TaskOps.RemoveTaskNoOpIff` | screens/TodoScreen.tsx:28 | `removeTask` returns an equal array exactly when no task has that id |
| `TaskOps.RemoveTaskKeepsOrder` | screens/TodoScreen.tsx:28 | `removeTask` distributes over any split of the array, so the survivors keep their order |
| `TaskOps.RemoveTaskIdempotent` | screens/TodoScreen.tsx:28 | removing the same id twice equals removing it once |
| `TaskOps.RemoveTaskKeepsUnique` | screens/TodoScreen.tsx:28 | `removeTask` keeps task ids unique |
| `TaskOps.ToggleTwice` | screens/TodoScreen.tsx:33-37 | toggling the same id twice gives back the original array |
| `TaskOps.ToggleNoOpIff` | screens/TodoScreen.tsx:33-37 | `toggleTask` returns an equal array exactly when no task has that id |
| `TaskOps.ToggleKeepsUnique` | screens/TodoScreen.tsx:33-37 | `toggleTask` keeps task ids unique |
| `TaskOps.EditNoOpIff` | screens/TodoScreen.tsx:48-52 | `confirmEdit` returns an equal array exactly when every task with the edited id already has the buffer text; this covers an absent id and an edit confirmed as seeded |
| `TaskOps.EditKeepsUnique` | screens/TodoScreen.tsx:48-52 | `confirmEdit` keeps task ids unique |
| `ListOps.InitialLists` | screens/HomeScreen.tsx:10-14 | the initial lists are three lists with pairwise distinct ids and no tasks |
| `ListOps.AppendList` | screens/HomeScreen.tsx:20 | `[...lists, {id, title, tasks: []}]` keeps every earlier list and adds one list at the end with the given id and title and no tasks |
| `ListOps.RemoveList` | screens/HomeScreen.tsx:26 | the result holds exactly the lists whose id differs, and is no longer than before |
| `ListOps.UpdateTasks` | screens/HomeScreen.tsx:31 | length, order, ids and titles are kept; lists with the id get the new tasks, and all other lists are unchanged |
| `ListOps.AppendListUniqueIff` | screens/HomeScreen.tsx:20 | after `addList`, list ids are unique exactly when they were unique before and the new id was absent |
| `ListOps.RemoveListNoOpIff` | screens/HomeScreen.tsx:26 | `removeList` returns an equal array exactly when no list has that id |
| `ListOps.RemoveListKeepsOrder` | screens/HomeScreen.tsx:26 | `removeList` distributes over any split of the array, so the survivors keep their order |
| `ListOps.RemoveListKeepsUnique` | screens/HomeScreen.tsx:26 | `removeList` keeps list ids unique |
| `ListOps.UpdateTasksNoOpIff` | screens/HomeScreen.tsx:31 | `updateListTasks` returns an equal array exactly when every list with that id already holds those tasks; an absent id is therefore a no-op |
| `ListOps.UpdateTasksOfLast` | screens/HomeScreen.tsx:31 | a push for the id of the last list, when no earlier list has that id, changes only that list's tasks |
| `ListOps.UpdateTasksLastWins` | screens/HomeScreen.tsx:31 | of two pushes for the same id only the later one is visible (last writer wins) |
| `ListOps.UpdateTasksKeepsUnique` | screens/HomeScreen.tsx:31 | `updateListTasks` keeps list ids unique |
| `HomeScreen.ListStore.constructor` | screens/HomeScreen.tsx:10-15 | the store starts with the three built-in lists, which have unique ids, and an empty input |
| `HomeScreen.ListStore.SetNewListTitle` | screens/HomeScreen.tsx:78 | the input takes any text |
| `HomeScreen.ListStore.AddList` | screens/HomeScreen.tsx:18-22 | blank input changes nothing; otherwise one list is appended with the untrimmed title and the input is cleared; unique ids stay unique when the new id is absent |
| `HomeScreen.ListStore.RemoveList` | screens/HomeScreen.tsx:25-27 | `lists` becomes its filter by id; it never grows and keeps ids unique |
| `HomeScreen.ListStore.UpdateListTasks` | screens/HomeScreen.tsx:30-32 | only the tasks of the lists with the id change; there is no title parameter; ids stay unique |
| `TodoScreen.TaskSession.constructor` | screens/TodoScreen.tsx:7-12 | the session starts with the list's tasks and title, empty inputs and no edit in progress |
| `TodoScreen.TaskSession.Push` | screens/TodoScreen.tsx:15-17 | the push replaces the tasks of the home screen's entries for this list, and afterwards those entries hold the session's tasks |
| `TodoScreen.TaskSession.SetNewTask` | screens/TodoScreen.tsx:112 | the new-task input takes any text |
| `TodoScreen.TaskSession.AddTask` | screens/TodoScreen.tsx:20-24 | blank input changes nothing and pushes nothing; otherwise one task is appended with the untrimmed text, not completed, the input is cleared, and the result is pushed |
| `TodoScreen.TaskSession.RemoveTask` | screens/TodoScreen.tsx:27-29 | `tasks` becomes its filter by id, is pushed, and keeps ids unique |
| `TodoScreen.TaskSession.ToggleTask` | screens/TodoScreen.tsx:32-38 | `tasks` becomes its toggle by id, is pushed, and keeps ids unique |
| `TodoScreen.TaskSession.StartEditing` | screens/TodoScreen.tsx:41-44 | the state becomes Editing(id, text) whatever it was, so an unconfirmed edit is dropped; tasks are untouched |
| `TodoScreen.TaskSession.SetEditedTaskText` | screens/TodoScreen.tsx:90 | the edit buffer takes any text; the edit state stays Idle or stays Editing the same task |
| `TodoScreen.TaskSession.ConfirmEdit` | screens/TodoScreen.tsx:47-54 | the edited task takes the buffer text; with no edit the contents stay the same; the state becomes Idle, and the result is pushed |
| `TodoScreen.TaskSession.SetTitle` | screens/TodoScreen.tsx:62 | the working title takes any text, and nothing is pushed |
| `TodoScreen.TaskSession.BlurTitle` | screens/TodoScreen.tsx:63 | leaving the title field pushes the tasks; every list in the home screen keeps its title |
| `Scenarios.SportScenario` | screens/TodoScreen.tsx:63 | after creating "Sport", adding "Run" and "Swim", ticking "Run", renaming and blurring, the home screen holds both tasks in order with only "Run" completed, and the title is still "Sport" |
| `Scenarios.RunSwimSession` | screens/TodoScreen.tsx:15-38 | adding "Run" and "Swim" to an empty list and ticking "Run" gives those two tasks in order, and the three pushes amount to the last one |
| `Scenarios.AddTaskRoundTrip` | screens/TodoScreen.tsx:15-24 | adding a task in a session opened on a built-in list leaves exactly that task in the home screen's entry, and the other lists unchanged |
| `Scenarios.EditScenario` | screens/TodoScreen.tsx:41-53 | confirming an unchanged buffer keeps the text, confirming "new" sets it, and confirming with no edit changes nothing; the home screen ends with the edited task |
| `Scenarios.ConfirmThreeWays` | screens/TodoScreen.tsx:41-54 | on a session whose only task reads "old": confirming as seeded keeps it, confirming "new" sets it, and confirming with no edit keeps it; the home screen sees the last push |
| `Scenarios.SwitchEditScenario` | screens/TodoScreen.tsx:41-44 | text typed for one task is dropped when editing switches to another task, and only the second task is confirmed |
| `Scenarios.SwitchThenConfirm` | screens/TodoScreen.tsx:41-53 | editing one task, typing, switching to another task and confirming as seeded leaves both tasks unchanged |

## Left out

- Rendering, styles, `FlatList`, swipe gestures and icons: presentation only.
- Navigation: only the handoff is modelled, as a list value plus the store whose `UpdateListTasks` is the callback.
- React scheduling: batched `setState`, the timing of effects and the push on first mount are not modelled. So is the stale `lists` that `updateListTasks` closes over when the task screen is opened. Each handler, with its push, is one atomic update of the current state.
- `Date.now()`: replaced by an id argument. The model does not claim ids are unique; it proves that they stay unique when the caller supplies a fresh one.
- The home screen's header title input: a free string with no logic.
- `Text.IsWhitespace`: covers the whitespace table of the Unicode version the model was written against. Characters added to the Zs category later are not included.
