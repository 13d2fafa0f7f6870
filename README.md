# Task board: verified model of the board mutations

A single-page kanban board. It keeps a dictionary of tasks and three status columns: To Do, In Progress and Done. Each column holds an ordered list of task ids, and the columns are shown in the board's `columnOrder`. The page can do four things to the board:

- **create** a task from the form;
- **update** a task from the form, which may move it to another column when its status changes;
- **delete** the selected task;
- **move** a task by dropping its card on another column.

Every board starts from a fixed seed of seven tasks.

This project models those operations in Dafny and proves that each one keeps a consistency invariant, `TaskTypes.Consistent`. The invariant has five parts:

- every status has its column, stored under its own id;
- every listed id names a task whose status is the listing column;
- every task is listed exactly once, in the column of its status;
- every task is stored under its own id;
- the column order names the three statuses once each.

On top of the invariant, the project proves what each operation does to every task and every column.

Files and modules:

- `options.dfy` (`Options`): an optional value. It stands for `Partial<Task>` fields, the `null`-able selection, and `a || b` fallbacks.
- `array_ops.dfy` (`ArrayOps`): the array primitives the handlers use on copied id lists.
  - `indexOf` is a method with a loop.
  - Splicing out the found index is `RemoveFirst`.
  - `filter(id => id !== x)` is `FilterOut`.
  - Lemmas give each a membership, offset and count specification.
- `task_types.dfy` (`TaskTypes`): `Priority`, `Status`, `Task`, `Column` and `BoardData`, the invariant, and its basic consequences.
- `mock_data.dfy` (`MockData`): `createMockTasks`, which fills the dictionary one assignment at a time, and `initialBoardData`.
- `task_board.dfy` (`TaskBoard`): the drop handler (as a function, and as the method that copies, splices and pushes), the move label, the column header, and the render loop's lookup of each column's ids into task cards.
- `index_page.dfy` (`IndexPage`): the update, create and delete transformations.
  - Update is also a method, because the source copies, splices and pushes there.
  - Preservation lemmas prove the invariant survives each transformation.
  - A cross-check proves that a drop equals a status-only edit.
  - A class `Index` holds the page's state: the board, whether the form is open, and the selection. Its event handlers keep `Valid()`.

## Model

| member | source | states |
|---|---|---|
| ArrayOps.IndexOf | src/components/TaskBoard.tsx:53 | The result is -1 exactly when the id is absent; otherwise it is the position of the first occurrence. |
| ArrayOps.RemoveFirst | src/components/TaskBoard.tsx:52-56 | The list after `indexOf` and `splice(i, 1)`: recursively, an empty list stays empty, a list headed by the id loses that head, and any other head is kept in front of the rest with the id removed. |
| ArrayOps.RemoveFirstCounts | src/components/TaskBoard.tsx:52-56 | Looking the id up and splicing it out removes one occurrence when there is one: the multiset loses only that id and the length drops by one. A list without the id is left unchanged. |
| ArrayOps.RemoveFirstAt | src/pages/Index.tsx:47-51 | Splicing at the first occurrence keeps everything before and after it, in order. |
| ArrayOps.FilterOut | src/pages/Index.tsx:133 | The list after `filter(id => id !== x)`: recursively, every element equal to the id is dropped and every other one is kept in place. |
| ArrayOps.FilterOutCounts | src/pages/Index.tsx:133 | Filtering leaves no copy of the id. Every other id keeps its membership and its number of occurrences. The length drops by the id's count. A list without the id is unchanged. |
| ArrayOps.FilterOutAppend | src/pages/Index.tsx:133 | Filtering a concatenation concatenates the filtered parts, so the surviving ids keep their relative order. |
| ArrayOps.FilterOutKeeps | src/pages/Index.tsx:133 | Every id that survives the filter was in the list and differs from the removed id. |
| ArrayOps.FilterOutSingle | src/pages/Index.tsx:133 | When the id occurs at most once, the delete's filter and the update's splice give the same list. |
| ArrayOps.OnceAt | src/components/TaskBoard.tsx:52-56 | An id listed exactly once is gone after the splice, and the result is the list cut at its one position. |
| TaskTypes.Consistent | src/types/task.ts:15-25 | The board invariant, the conjunction of five predicates. Every status has its column, stored under its own id. Every listed id names a task of the listing column's status. Every task occurs exactly once in the column of its status. Every task is stored under its own id. The order is a permutation of the three statuses. |
| TaskTypes.ExactlyOneColumn | src/types/task.ts:15-25 | On a consistent board a task occurs once in the column of its status and in no other column. |
| TaskTypes.OrderEachOnce | src/types/task.ts:24 | A column order that is a permutation of the three statuses has length 3, names every status, and has no repeats. |
| TaskTypes.NotListed | src/types/task.ts:21-25 | On a consistent board an id without a task is listed in no column. |
| MockData.InitialColumns | src/data/mockData.ts:94-110 | The seed columns, defined as a map literal: todo "To Do" with `task-1`…`task-3`, inprogress "In Progress" with `task-4`, `task-5`, and done "Done" with `task-6`, `task-7`. Each is stored under its own id. |
| MockData.SeedRecords | src/data/mockData.ts:16-86 | The seven literal seed tasks, in order `task-1`…`task-7`. Each has its title and description, its status, its priority (high, medium, low, high, medium, high, medium), its deadline `futureDate(d)` for d = 5, 7, 10, 3, 4, -2, -5, and `createdAt` equal to `now`. |
| MockData.SeedContents | src/data/mockData.ts:16-86 | A dictionary holds every seed record, unchanged, under its id. |
| MockData.IsInitialBoard | src/data/mockData.ts:92-112 | A board is the seed board: it has the seven seed records as its only tasks, the seed columns, and the order todo, inprogress, done. |
| MockData.CreateMockTasks | src/data/mockData.ts:12-89 | The dictionary holds exactly the keys `task-1`…`task-7`, and each key stores its seed record (`SeedContents`): same id, title, description, status, priority, deadline `futureDate(d)` and `createdAt` `now`. |
| MockData.SeedTasksCount | src/data/mockData.ts:16-86 | The seed dictionary has seven entries. |
| MockData.SeedKeys | src/data/mockData.ts:16-86 | Every seed task's `id` equals its key. |
| MockData.SeedColumns | src/data/mockData.ts:94-110 | Each seed column is stored under its own id, with titles "To Do", "In Progress" and "Done". The columns list 3, 2 and 2 ids, and no id is in two columns. |
| MockData.SeedResolve | src/data/mockData.ts:16-110 | Every id a seed column lists names a seed task whose status is that column. |
| MockData.SeedListedOnce | src/data/mockData.ts:94-110 | Each seed id occurs exactly once in the column of its status. |
| MockData.SeedOnce | src/data/mockData.ts:16-110 | Every seed task is listed exactly once, in the column of its status. |
| MockData.SeedConsistent | src/data/mockData.ts:92-112 | The seed tasks together with the seed columns and order form a consistent board. |
| MockData.InitialBoardData | src/data/mockData.ts:92-112 | The initial board is consistent and is the seed board (`IsInitialBoard`): the seven seed records with their literal contents, the seed columns, and the order todo, inprogress, done. |
| MockData.SeedBoardKeys | src/data/mockData.ts:92-112 | On a consistent board with the seed columns, the task keys are exactly `task-1`…`task-7`. |
| TaskBoard.StatusLabel | src/components/TaskBoard.tsx:89-93 | The `statusMap` used in the move message, defined by cases: todo "To Do", inprogress "In Progress", done "Done". |
| TaskBoard.StatusLabelIsSeedTitle | src/components/TaskBoard.tsx:89-95 | The move label of each status is the seed title of that column, and different statuses get different labels. |
| TaskBoard.DropDefined | src/components/TaskBoard.tsx:44-49 | The drop handler's unguarded lookups succeed: when the id has a task whose status differs from the target, both the task's column and the target column exist. |
| TaskBoard.Drop | src/components/TaskBoard.tsx:40-97 | Nothing is handed over exactly when the id has no task or the task already has the target status. Otherwise the task gets the target status and keeps its other fields; the other tasks and the order are kept; the destination gets the id appended; the source loses its first occurrence; every other column is kept. |
| TaskBoard.HandleDrop | src/components/TaskBoard.tsx:40-97 | The copy / `indexOf` / `splice` / `push` handler returns exactly the board `Drop` specifies, or None. |
| TaskBoard.DropMovesId | src/components/TaskBoard.tsx:52-60 | On a consistent board, after a real drop the id is gone from the source, which shrinks by one and is the old list cut at the id's position. The destination is the old list plus the id, one longer. The third column is unchanged. |
| TaskBoard.DropColumns | src/components/TaskBoard.tsx:66-83 | When columns are stored under their own ids, a drop gives the source column `RemoveFirst` of its ids, gives the destination its ids plus the dropped one, and keeps the third column. |
| TaskBoard.GetColumnHeader | src/components/TaskBoard.tsx:99-102 | The header shows the column's title and `taskIds.length`. |
| TaskBoard.RenderColumn | src/components/TaskBoard.tsx:117-119 | A rendered column has as many cards as ids, and card j is the task named by id j. |
| TaskBoard.RenderColumns | src/components/TaskBoard.tsx:117-119 | The columns are rendered one view per entry of the order, in that order. |
| TaskBoard.Render | src/components/TaskBoard.tsx:116-119 | The board view: `RenderColumns` over the board's own `columnOrder`, defined only when every lookup the loop makes succeeds. |
| TaskBoard.ConsistentRenders | src/components/TaskBoard.tsx:117-119 | On a consistent board every lookup of the render loop succeeds and three columns are rendered, covering all statuses. Every card carries its listed id and the status of the column that draws it. |
| TaskBoard.ColumnCountIsTasksOfStatus | src/components/TaskBoard.tsx:99-102 | On a consistent board a header's count equals the number of tasks with that status. |
| TaskBoard.ShownCountOfColumns | src/components/TaskBoard.tsx:99-119 | Rendering distinct columns whose counts match their statuses shows, in total, the number of tasks of those statuses. |
| TaskBoard.ShownCountIsTaskCount | src/components/TaskBoard.tsx:99-119 | On a consistent board the header counts add up to the number of tasks. |
| IndexPage.OrElse | src/pages/Index.tsx:95-96 | `v \|\| fallback` on a string: an absent or empty value gives the fallback, otherwise the value. |
| IndexPage.Merge | src/pages/Index.tsx:36-39 | Each patch field that is present replaces the task's field, and each absent one keeps it. `id` and `createdAt` are kept. |
| IndexPage.UpdatedStatus | src/pages/Index.tsx:42 | The new status is the merged task's status: the patch's status, or the old one when the patch has none. |
| IndexPage.UpdateDefined | src/pages/Index.tsx:41-54 | The update branch's unguarded lookups succeed: the selected id has a task and, when the status changes, both the old and the new status columns exist. |
| IndexPage.UpdateBoard | src/pages/Index.tsx:34-86 | The selected task becomes `Merge` of it and the patch; other tasks, key sets, column titles and ids, and the order are unchanged. Same status: columns identical. Changed status: the old column loses the first occurrence of the id, the new one gets it appended, the third is kept. |
| IndexPage.SaveTaskUpdate | src/pages/Index.tsx:45-84 | The copy / `indexOf` / `splice` / `push` update branch installs exactly the board `UpdateBoard` specifies. |
| IndexPage.UpdateDefinedOnConsistent | src/pages/Index.tsx:41-54 | On a consistent board every lookup of the update branch succeeds for a present id. |
| IndexPage.UpdateMovesId | src/pages/Index.tsx:45-75 | On a consistent board a status-changing update removes the id from the old column, keeping the rest in order, and makes it the last id of the new column. |
| IndexPage.UpdatePreservesConsistent | src/pages/Index.tsx:34-86 | An update of a present task keeps a consistent board consistent. |
| IndexPage.UpdateKeepsShape | src/pages/Index.tsx:58-84 | An update keeps the columns under their own ids, tasks under their own ids, and the order a permutation. |
| IndexPage.UpdateKeepsResolve | src/pages/Index.tsx:58-84 | After an update every listed id resolves to a task of the listing column. |
| IndexPage.UpdatedColumnResolves | src/pages/Index.tsx:58-75 | After a status-changing update an id in any column names a task with that column's status. |
| IndexPage.UpdateKeepsOnce | src/pages/Index.tsx:58-84 | After an update every task is listed exactly once, in the column of its status. |
| IndexPage.NewTask | src/pages/Index.tsx:93-101 | The task's id is the fresh id and `createdAt` is `now`. Defaults: title "New Task" (also for an empty title), description "", status todo, priority medium, deadline `now`. Any field given in the form is used instead. |
| IndexPage.CreateTask | src/pages/Index.tsx:104-117 | The new task is inserted under the fresh id and its id is appended to the end of its status column only. Existing tasks, the other columns and the order are unchanged. |
| IndexPage.CreatePreservesConsistent | src/pages/Index.tsx:88-117 | A create under an id with no task keeps a consistent board consistent. |
| IndexPage.CreateKeepsShape | src/pages/Index.tsx:104-117 | A create keeps the columns under their own ids, tasks under their own ids, and the order a permutation. |
| IndexPage.CreateKeepsResolve | src/pages/Index.tsx:104-117 | After a create every listed id resolves to a task of the listing column. |
| IndexPage.CreateKeepsOnce | src/pages/Index.tsx:104-117 | After a create every task is listed exactly once, in the column of its status. |
| IndexPage.DeleteDefined | src/pages/Index.tsx:129-130 | The delete's unguarded lookups succeed: the selected id has a task and the column of its status exists. |
| IndexPage.DeleteTask | src/pages/Index.tsx:128-149 | The key is removed from the task map and the task's column becomes its filtered id list. Every other task and column, the order and the column's title are unchanged. |
| IndexPage.DeleteKeepsConsistent | src/pages/Index.tsx:127-149 | A delete of a present task keeps a consistent board consistent. |
| IndexPage.DeleteCutsOwnColumn | src/pages/Index.tsx:128-149 | On a consistent board a delete keeps it consistent and leaves the id in no column. The owning column is cut at the id's one position, keeping the others in order; every other column is kept. |
| IndexPage.DeleteLeavesNoId | src/pages/Index.tsx:133 | After a delete on a consistent board no column lists the deleted id. |
| IndexPage.DeleteKeepsResolve | src/pages/Index.tsx:133-149 | After a delete every listed id resolves to a remaining task of the listing column. |
| IndexPage.DeletedColumnResolves | src/pages/Index.tsx:133-149 | An id still listed after a delete names a task that is still there, with that column's status. |
| IndexPage.DeleteKeepsOnce | src/pages/Index.tsx:133-149 | After a delete every remaining task is listed exactly once, in the column of its status. |
| IndexPage.DropIsStatusEdit | src/components/TaskBoard.tsx:46-83 | With columns stored under their own ids, a drop on another column hands over exactly the board a status-only save installs (src/pages/Index.tsx:45-75). A drop on the task's own column hands over nothing, and the same edit leaves the board as it was. |
| IndexPage.DropPreservesConsistent | src/components/TaskBoard.tsx:46-86 | Every drop on a consistent board is defined, and the board it hands over is consistent. |
| IndexPage.Truthy | src/pages/Index.tsx:34 | JavaScript truthiness of `selectedTaskId` (also line 128): there is a selection and it is not the empty string. |
| IndexPage.Index.constructor | src/pages/Index.tsx:13-15 | The page starts on the seed board (`IsInitialBoard`) with the form closed and no selection. That means the seven seed records with their literal contents, the seed columns, and the order todo, inprogress, done. The state is valid and the used ids are exactly the board's. |
| IndexPage.Index.HandleNewTask | src/pages/Index.tsx:21-24 | Clears the selection and opens the form. The board is not touched. |
| IndexPage.Index.HandleTaskClick | src/pages/Index.tsx:27-30 | Selects the clicked id and opens the form. The board is not touched. |
| IndexPage.Index.HandleSaveTask | src/pages/Index.tsx:33-124 | With a truthy selection of a present task the board becomes `UpdateBoard`; otherwise `CreateTask` under a never-used fresh id, which joins the used ids. The form closes, the selection is kept and `Valid()` is preserved. |
| IndexPage.Index.HandleDeleteTask | src/pages/Index.tsx:127-154 | With a truthy selection, the board becomes `DeleteTask` of it and the form closes. Without one nothing changes. The selection is kept and `Valid()` is preserved. |
| IndexPage.Index.HandleDrop | src/pages/Index.tsx:162-166 | The board view's `onDataChange` installs the board a drop hands over, and a no-op drop keeps the board. `Valid()` is preserved. |

## Left out

- `Task.deadline` and `Task.createdAt` are opaque integers. `getFutureDate` (the `Date` arithmetic in src/data/mockData.ts:5-9) is the parameter `futureDate`, and every `new Date()` of one call is the single parameter `now`.
- `uuidv4()` is the parameter `freshId`. It comes with the precondition that the id was never used in the session, tracked in the ghost set `usedIds`.
- Toast notifications, React state wiring and rendering, and the drag-event plumbing (`dataTransfer`, `classList`, `draggingTaskId`) are side effects and are not modelled. The only exception is the move label `StatusLabel`.
- The modal form (src/components/TaskModal.tsx), the header and theme toggle (src/components/Header.tsx), the card (src/components/TaskCard.tsx) and the date formatting (src/utils/dateUtils.ts) are presentation or clock-dependent. They are not part of this model. The form's edit mode passes the task's own `id` and `createdAt` back.
- IndexPage.Merge: the patch type has only the five editable fields. The source's `{ ...task, ...taskData }` would let a patch carrying `id` or `createdAt` overwrite them, and the model does not allow that.
- IndexPage.Merge: a `Partial<Task>` field that is present but `undefined` would overwrite the field with `undefined` in the spread. An absent patch field is modelled as "not present".
- IndexPage.NewTask: the `||` fallbacks for status, priority and deadline are modelled as "absent gives the default". These values cannot be empty strings or other falsy values in the types. For title and description, the empty string also falls back.
- Columns are keyed by `Status` and not by arbitrary strings. `src/types/task.ts:23` allows other keys, but no operation adds one.
- Reading an absent key in JavaScript yields `undefined`, and dereferencing it then throws. The model turns each access the source makes without a guard into a precondition:
  - update: `UpdateDefined`;
  - delete: `DeleteDefined`;
  - drop: `DropDefined`;
  - create: the status column exists;
  - the render loop: `Renderable`.
  All of these follow from `Consistent`.
- The drop handler and the delete write their columns under `column.id`, while the update writes under the status key. `IndexPage.DropIsStatusEdit` therefore assumes columns are stored under their own ids, which `Consistent` includes.
- IndexPage.Index.HandleDeleteTask: the source keeps the deleted id as `selectedTaskId` once the form closes, and the model keeps it too. Saving again requires the selected task to be present; in the source, opening the form always sets a new selection first.
- Only one board replacement per event is modelled, as an atomic assignment of the new board value. React's asynchronous state batching is not modelled.
