/** The page that owns the board: saving a task from the form (update or
    create), deleting the selected task, and the session state that holds
    the board between events. */
module IndexPage {
  import opened Options
  import opened TaskTypes
  import opened ArrayOps
  import TaskBoard
  import MockData

  /** The fields the task form hands to a save. `id` and `createdAt` are
      not among them. */
  datatype TaskPatch = TaskPatch(
    title: Option<string>,
    description: Option<string>,
    status: Option<Status>,
    priority: Option<Priority>,
    deadline: Option<int>)

  /** A patch that carries only a status. */
  function StatusOnly(s: Status): TaskPatch
  {
    TaskPatch(None, None, Some(s), None, None)
  }

  /** JavaScript's `v || fallback` on an optional string: an absent or empty
      string gives way to the fallback. */
  function OrElse(v: Option<string>, fallback: string): (r: string)
    ensures v.Some? && v.value != "" ==> r == v.value
    ensures v.None? || v.value == "" ==> r == fallback
  {
    if v.Some? && v.value != "" then v.value else fallback
  }

  // ---------------------------------------------------------------------
  // Update

  /** `{ ...task, ...taskData }`: a field present in the patch replaces the
      task's, an absent one keeps it; identity and creation time stay. */
  function Merge(task: Task, taskData: TaskPatch): (r: Task)
    ensures r.id == task.id && r.createdAt == task.createdAt
    ensures taskData.title.Some? ==> r.title == taskData.title.value
    ensures taskData.title.None? ==> r.title == task.title
    ensures taskData.description.Some? ==> r.description == taskData.description.value
    ensures taskData.description.None? ==> r.description == task.description
    ensures taskData.status.Some? ==> r.status == taskData.status.value
    ensures taskData.status.None? ==> r.status == task.status
    ensures taskData.priority.Some? ==> r.priority == taskData.priority.value
    ensures taskData.priority.None? ==> r.priority == task.priority
    ensures taskData.deadline.Some? ==> r.deadline == taskData.deadline.value
    ensures taskData.deadline.None? ==> r.deadline == task.deadline
  {
    task.(
      title := GetOr(taskData.title, task.title),
      description := GetOr(taskData.description, task.description),
      status := GetOr(taskData.status, task.status),
      priority := GetOr(taskData.priority, task.priority),
      deadline := GetOr(taskData.deadline, task.deadline))
  }

  /** `taskData.status || oldStatus`. */
  function UpdatedStatus(task: Task, taskData: TaskPatch): (s: Status)
    ensures s == Merge(task, taskData).status
  {
    GetOr(taskData.status, task.status)
  }

  /** The update dereferences the selected task, and the two columns only
      when the status changes. */
  predicate UpdateDefined(b: BoardData, id: string, taskData: TaskPatch)
  {
    && id in b.tasks
    && (UpdatedStatus(b.tasks[id], taskData) != b.tasks[id].status ==>
          b.tasks[id].status in b.columns && UpdatedStatus(b.tasks[id], taskData) in b.columns)
  }

  /** The board installed by the update branch of a save. */
  function UpdateBoard(b: BoardData, id: string, taskData: TaskPatch): (r: BoardData)
    requires UpdateDefined(b, id, taskData)
    ensures r.columnOrder == b.columnOrder
    ensures forall k :: k in r.tasks <==> k in b.tasks
    ensures r.tasks[id] == Merge(b.tasks[id], taskData)
    ensures forall k :: k in b.tasks && k != id ==> r.tasks[k] == b.tasks[k]
    ensures forall s :: s in r.columns <==> s in b.columns
    ensures forall s :: s in b.columns ==>
      r.columns[s].id == b.columns[s].id && r.columns[s].title == b.columns[s].title
    ensures UpdatedStatus(b.tasks[id], taskData) == b.tasks[id].status ==> r.columns == b.columns
    ensures
      var from := b.tasks[id].status;
      var to := UpdatedStatus(b.tasks[id], taskData);
      from != to ==>
        && r.columns[from].taskIds == RemoveFirst(b.columns[from].taskIds, id)
        && r.columns[to].taskIds == b.columns[to].taskIds + [id]
        && forall s :: s in b.columns && s != from && s != to ==> r.columns[s] == b.columns[s]
  {
    var task := b.tasks[id];
    var updatedTask := Merge(task, taskData);
    var oldStatus := task.status;
    var newStatus := UpdatedStatus(task, taskData);
    if oldStatus != newStatus then
      b.(
        tasks := b.tasks[id := updatedTask],
        columns := b.columns
          [oldStatus := b.columns[oldStatus].(taskIds := RemoveFirst(b.columns[oldStatus].taskIds, id))]
          [newStatus := b.columns[newStatus].(taskIds := b.columns[newStatus].taskIds + [id])])
    else
      b.(tasks := b.tasks[id := updatedTask])
  }

  /** The update branch of `handleSaveTask`: with a changed status the old
      column's ids are copied and the task's id spliced out where `indexOf`
      finds it, and the new column's copy gets the id pushed on its end. */
  method SaveTaskUpdate(boardData: BoardData, selectedTaskId: string, taskData: TaskPatch)
    returns (newData: BoardData)
    requires UpdateDefined(boardData, selectedTaskId, taskData)
    ensures newData == UpdateBoard(boardData, selectedTaskId, taskData)
  {
    var task := boardData.tasks[selectedTaskId];
    var updatedTask := Merge(task, taskData);
    var oldStatus := task.status;
    var newStatus := UpdatedStatus(task, taskData);

    if oldStatus != newStatus {
      var oldColumnTaskIds := boardData.columns[oldStatus].taskIds;
      var taskIndex := IndexOf(oldColumnTaskIds, selectedTaskId);
      if taskIndex != -1 {
        RemoveFirstAt(oldColumnTaskIds, selectedTaskId, taskIndex);
        oldColumnTaskIds := oldColumnTaskIds[..taskIndex] + oldColumnTaskIds[taskIndex + 1..];
      } else {
        RemoveFirstCounts(oldColumnTaskIds, selectedTaskId);
      }

      var newColumnTaskIds := boardData.columns[newStatus].taskIds;
      newColumnTaskIds := newColumnTaskIds + [selectedTaskId];

      newData := boardData.(
        tasks := boardData.tasks[selectedTaskId := updatedTask],
        columns := boardData.columns
          [oldStatus := boardData.columns[oldStatus].(taskIds := oldColumnTaskIds)]
          [newStatus := boardData.columns[newStatus].(taskIds := newColumnTaskIds)]);
    } else {
      newData := boardData.(tasks := boardData.tasks[selectedTaskId := updatedTask]);
    }
  }

  // ---------------------------------------------------------------------
  // Create

  /** The task a create builds from the form's fields, under the fresh id
      and stamped with the current time. */
  function NewTask(newTaskId: string, taskData: TaskPatch, now: int): (t: Task)
    ensures t.id == newTaskId && t.createdAt == now
    ensures taskData.title.None? || taskData.title == Some("") ==> t.title == "New Task"
    ensures taskData.title.Some? && taskData.title.value != "" ==> t.title == taskData.title.value
    ensures taskData.description.None? ==> t.description == ""
    ensures taskData.description.Some? ==> t.description == taskData.description.value
    ensures taskData.status.None? ==> t.status == Todo
    ensures taskData.status.Some? ==> t.status == taskData.status.value
    ensures taskData.priority.None? ==> t.priority == Medium
    ensures taskData.priority.Some? ==> t.priority == taskData.priority.value
    ensures taskData.deadline.None? ==> t.deadline == now
    ensures taskData.deadline.Some? ==> t.deadline == taskData.deadline.value
  {
    Task(
      newTaskId,
      OrElse(taskData.title, "New Task"),
      OrElse(taskData.description, ""),
      GetOr(taskData.status, Todo),
      GetOr(taskData.priority, Medium),
      GetOr(taskData.deadline, now),
      now)
  }

  /** The board installed by the create branch of a save. */
  function CreateTask(b: BoardData, newTaskId: string, taskData: TaskPatch, now: int): (r: BoardData)
    requires GetOr(taskData.status, Todo) in b.columns
    ensures r.columnOrder == b.columnOrder
    ensures forall k :: k in r.tasks <==> k in b.tasks || k == newTaskId
    ensures r.tasks[newTaskId] == NewTask(newTaskId, taskData, now)
    ensures forall k :: k in b.tasks && k != newTaskId ==> r.tasks[k] == b.tasks[k]
    ensures forall s :: s in r.columns <==> s in b.columns
    ensures
      var status := GetOr(taskData.status, Todo);
      && r.columns[status] == b.columns[status].(taskIds := b.columns[status].taskIds + [newTaskId])
      && forall s :: s in b.columns && s != status ==> r.columns[s] == b.columns[s]
  {
    var status := GetOr(taskData.status, Todo);
    var newTask := NewTask(newTaskId, taskData, now);
    b.(
      tasks := b.tasks[newTaskId := newTask],
      columns := b.columns[status := b.columns[status].(taskIds := b.columns[status].taskIds + [newTaskId])])
  }

  // ---------------------------------------------------------------------
  // Delete

  /** The delete dereferences the selected task and its status column. */
  predicate DeleteDefined(b: BoardData, id: string)
  {
    id in b.tasks && b.tasks[id].status in b.columns
  }

  /** The board installed by `handleDeleteTask`: the task is taken out of the
      map and its id filtered out of the column of its status. */
  function DeleteTask(b: BoardData, id: string): (r: BoardData)
    requires DeleteDefined(b, id)
    ensures r.columnOrder == b.columnOrder
    ensures forall k :: k in r.tasks <==> k in b.tasks && k != id
    ensures forall k :: k in r.tasks ==> r.tasks[k] == b.tasks[k]
    ensures
      var column := b.columns[b.tasks[id].status];
      && (forall s :: s in r.columns <==> s in b.columns || s == column.id)
      && r.columns[column.id] == column.(taskIds := FilterOut(column.taskIds, id))
      && forall s :: s in b.columns && s != column.id ==> r.columns[s] == b.columns[s]
  {
    var taskToDelete := b.tasks[id];
    var column := b.columns[taskToDelete.status];
    var updatedTaskIds := FilterOut(column.taskIds, id);
    var remainingTasks := b.tasks - {id};
    b.(tasks := remainingTasks, columns := b.columns[column.id := column.(taskIds := updatedTaskIds)])
  }

  // ---------------------------------------------------------------------
  // Consistency

  /** On a consistent board the update is defined for every present id. */
  lemma UpdateDefinedOnConsistent(b: BoardData, id: string, taskData: TaskPatch)
    requires Consistent(b) && id in b.tasks
    ensures UpdateDefined(b, id, taskData)
  {
  }

  /** An update keeps a consistent board consistent. */
  lemma UpdatePreservesConsistent(b: BoardData, id: string, taskData: TaskPatch)
    requires Consistent(b) && id in b.tasks
    ensures UpdateDefined(b, id, taskData)
    ensures Consistent(UpdateBoard(b, id, taskData))
  {
    UpdateKeepsShape(b, id, taskData);
    UpdateKeepsResolve(b, id, taskData);
    UpdateKeepsOnce(b, id, taskData);
  }

  lemma UpdateKeepsShape(b: BoardData, id: string, taskData: TaskPatch)
    requires Consistent(b) && id in b.tasks
    ensures ColumnsPresent(UpdateBoard(b, id, taskData))
    ensures KeysAreIds(UpdateBoard(b, id, taskData))
    ensures OrderIsPermutation(UpdateBoard(b, id, taskData).columnOrder)
  {
  }

  lemma UpdateKeepsResolve(b: BoardData, id: string, taskData: TaskPatch)
    requires Consistent(b) && id in b.tasks
    ensures ListedResolve(UpdateBoard(b, id, taskData))
  {
    var r := UpdateBoard(b, id, taskData);
    var from := b.tasks[id].status;
    var to := UpdatedStatus(b.tasks[id], taskData);
    if from == to {
      forall s: Status, k | s in r.columns && k in r.columns[s].taskIds
        ensures k in r.tasks && r.tasks[k].status == s
      {
        assert k in b.tasks && b.tasks[k].status == s;
      }
    } else {
      ExactlyOneColumn(b, id, from);
      ExactlyOneColumn(b, id, to);
      forall s: Status, k | s in r.columns && k in r.columns[s].taskIds
        ensures k in r.tasks && r.tasks[k].status == s
      {
        UpdatedColumnResolves(b, id, taskData, s, k);
      }
    }
  }

  lemma UpdateKeepsOnce(b: BoardData, id: string, taskData: TaskPatch)
    requires Consistent(b) && id in b.tasks
    ensures ListedOnce(UpdateBoard(b, id, taskData))
  {
    var r := UpdateBoard(b, id, taskData);
    var from := b.tasks[id].status;
    var to := UpdatedStatus(b.tasks[id], taskData);
    ExactlyOneColumn(b, id, to);
    RemoveFirstCounts(b.columns[from].taskIds, id);
    forall k | k in r.tasks
      ensures r.tasks[k].status in r.columns
      ensures multiset(r.columns[r.tasks[k].status].taskIds)[k] == 1
    {
      if k == id {
        assert r.tasks[k].status == to;
      } else {
        var s := b.tasks[k].status;
        assert r.tasks[k].status == s;
        ExactlyOneColumn(b, k, s);
        if from != to && s == from {
          assert multiset(r.columns[s].taskIds) == multiset(b.columns[s].taskIds) - multiset{id};
        } else if from != to && s == to {
          assert r.columns[s].taskIds == b.columns[s].taskIds + [id];
        } else {
          assert r.columns[s] == b.columns[s];
        }
      }
    }
  }

  /** After a status-changing update every listed id still resolves to a
      task of the listing column. */
  lemma UpdatedColumnResolves(b: BoardData, id: string, taskData: TaskPatch, s: Status, k: string)
    requires Consistent(b) && id in b.tasks
    requires UpdatedStatus(b.tasks[id], taskData) != b.tasks[id].status
    requires multiset(b.columns[b.tasks[id].status].taskIds)[id] == 1
    requires multiset(b.columns[UpdatedStatus(b.tasks[id], taskData)].taskIds)[id] == 0
    requires k in UpdateBoard(b, id, taskData).columns[s].taskIds
    ensures k in UpdateBoard(b, id, taskData).tasks
    ensures UpdateBoard(b, id, taskData).tasks[k].status == s
  {
    var r := UpdateBoard(b, id, taskData);
    var from := b.tasks[id].status;
    var to := UpdatedStatus(b.tasks[id], taskData);
    if s == from {
      RemoveFirstCounts(b.columns[from].taskIds, id);
      assert multiset(r.columns[s].taskIds)[k] > 0;
      assert k != id;
      assert k in b.columns[s].taskIds;
    } else if s == to {
      assert k == id || k in b.columns[s].taskIds;
    } else {
      assert k in b.columns[s].taskIds;
    }
  }

  /** A create under an id no task has keeps a consistent board
      consistent. */
  lemma CreatePreservesConsistent(b: BoardData, newTaskId: string, taskData: TaskPatch, now: int)
    requires Consistent(b) && newTaskId !in b.tasks
    ensures GetOr(taskData.status, Todo) in b.columns
    ensures Consistent(CreateTask(b, newTaskId, taskData, now))
  {
    CreateKeepsShape(b, newTaskId, taskData, now);
    CreateKeepsResolve(b, newTaskId, taskData, now);
    CreateKeepsOnce(b, newTaskId, taskData, now);
  }

  lemma CreateKeepsShape(b: BoardData, newTaskId: string, taskData: TaskPatch, now: int)
    requires Consistent(b)
    ensures ColumnsPresent(CreateTask(b, newTaskId, taskData, now))
    ensures KeysAreIds(CreateTask(b, newTaskId, taskData, now))
    ensures OrderIsPermutation(CreateTask(b, newTaskId, taskData, now).columnOrder)
  {
  }

  lemma CreateKeepsResolve(b: BoardData, newTaskId: string, taskData: TaskPatch, now: int)
    requires Consistent(b) && newTaskId !in b.tasks
    ensures ListedResolve(CreateTask(b, newTaskId, taskData, now))
  {
  }

  lemma CreateKeepsOnce(b: BoardData, newTaskId: string, taskData: TaskPatch, now: int)
    requires Consistent(b) && newTaskId !in b.tasks
    ensures ListedOnce(CreateTask(b, newTaskId, taskData, now))
  {
    // Dafny finds this alone; naming the facts per task keeps it fast.
    var r := CreateTask(b, newTaskId, taskData, now);
    NotListed(b, newTaskId);
    forall k | k in r.tasks
      ensures r.tasks[k].status in r.columns
      ensures multiset(r.columns[r.tasks[k].status].taskIds)[k] == 1
    {
      if k != newTaskId {
        ExactlyOneColumn(b, k, b.tasks[k].status);
      }
    }
  }

  /** A delete keeps a consistent board consistent. */
  lemma DeleteKeepsConsistent(b: BoardData, id: string)
    requires Consistent(b) && id in b.tasks
    ensures DeleteDefined(b, id)
    ensures Consistent(DeleteTask(b, id))
  {
    DeleteKeepsResolve(b, id);
    DeleteKeepsOnce(b, id);
  }

  /** A delete keeps a consistent board consistent and leaves the id in no
      column: its own column loses exactly that entry, with the others
      kept in order, and the other columns do not change. */
  lemma DeleteCutsOwnColumn(b: BoardData, id: string)
    requires Consistent(b) && id in b.tasks
    ensures DeleteDefined(b, id)
    ensures Consistent(DeleteTask(b, id))
    ensures forall s: Status :: id !in DeleteTask(b, id).columns[s].taskIds
    ensures
      var src := b.columns[b.tasks[id].status].taskIds;
      exists i :: 0 <= i < |src| && src[i] == id &&
        DeleteTask(b, id).columns[b.tasks[id].status].taskIds == src[..i] + src[i + 1..]
    ensures forall s: Status :: s != b.tasks[id].status ==> DeleteTask(b, id).columns[s] == b.columns[s]
  {
    var from := b.tasks[id].status;
    ExactlyOneColumn(b, id, from);
    FilterOutSingle(b.columns[from].taskIds, id);
    OnceAt(b.columns[from].taskIds, id);
    DeleteLeavesNoId(b, id);
    DeleteKeepsConsistent(b, id);
  }

  lemma DeleteLeavesNoId(b: BoardData, id: string)
    requires Consistent(b) && id in b.tasks
    ensures forall s: Status :: id !in DeleteTask(b, id).columns[s].taskIds
  {
    FilterOutCounts(b.columns[b.tasks[id].status].taskIds, id);
    forall s: Status ensures id !in DeleteTask(b, id).columns[s].taskIds {
      ExactlyOneColumn(b, id, s);
    }
  }

  lemma DeleteKeepsResolve(b: BoardData, id: string)
    requires ColumnsPresent(b) && ListedResolve(b) && id in b.tasks
    ensures ListedResolve(DeleteTask(b, id))
  {
    var r := DeleteTask(b, id);
    forall s: Status, k | s in r.columns && k in r.columns[s].taskIds
      ensures k in r.tasks && r.tasks[k].status == s
    {
      DeletedColumnResolves(b, id, s, k);
    }
  }

  /** An id still listed after a delete names a task that is still there,
      with the status of the listing column. */
  lemma DeletedColumnResolves(b: BoardData, id: string, s: Status, k: string)
    requires ColumnsPresent(b) && ListedResolve(b) && DeleteDefined(b, id)
    requires k in DeleteTask(b, id).columns[s].taskIds
    ensures k in DeleteTask(b, id).tasks && DeleteTask(b, id).tasks[k].status == s
  {
    var r := DeleteTask(b, id);
    var from := b.tasks[id].status;
    assert b.columns[from].id == from;
    if s == from {
      assert r.columns[s].taskIds == FilterOut(b.columns[s].taskIds, id);
      FilterOutKeeps(b.columns[s].taskIds, id, k);
    } else {
      assert r.columns[s] == b.columns[s];
      assert k in b.columns[s].taskIds;
    }
    assert k in b.tasks && b.tasks[k].status == s;
    assert k != id;
  }

  lemma DeleteKeepsOnce(b: BoardData, id: string)
    requires Consistent(b) && id in b.tasks
    ensures ListedOnce(DeleteTask(b, id))
  {
    var r := DeleteTask(b, id);
    FilterOutCounts(b.columns[b.tasks[id].status].taskIds, id);
    forall k | k in r.tasks
      ensures r.tasks[k].status in r.columns
      ensures multiset(r.columns[r.tasks[k].status].taskIds)[k] == 1
    {
      ExactlyOneColumn(b, k, b.tasks[k].status);
    }
  }

  // ---------------------------------------------------------------------
  // Drop against edit

  /** On a board whose columns are stored under their own ids, dropping a
      task on another column installs the same board as saving a patch that
      changes only its status; a drop on its own column installs nothing,
      and the same edit leaves the board as it was. */
  lemma DropIsStatusEdit(b: BoardData, id: string, s: Status)
    requires ColumnsPresent(b) && id in b.tasks
    ensures UpdateDefined(b, id, StatusOnly(s)) && TaskBoard.DropDefined(b, id, s)
    ensures b.tasks[id].status != s ==>
      TaskBoard.Drop(b, id, s) == Some(UpdateBoard(b, id, StatusOnly(s)))
    ensures b.tasks[id].status == s ==>
      TaskBoard.Drop(b, id, s) == None && UpdateBoard(b, id, StatusOnly(s)) == b
  {
    var task := b.tasks[id];
    assert Merge(task, StatusOnly(s)) == task.(status := s);
    if task.status == s {
      assert b.tasks[id := task] == b.tasks;
    } else {
      var d := TaskBoard.Drop(b, id, s).value;
      var u := UpdateBoard(b, id, StatusOnly(s));
      assert d.tasks == u.tasks;
      assert d.columns == u.columns;
    }
  }

  /** A drop keeps a consistent board consistent. */
  lemma DropPreservesConsistent(b: BoardData, id: string, s: Status)
    requires Consistent(b)
    ensures TaskBoard.DropDefined(b, id, s)
    ensures TaskBoard.Drop(b, id, s).Some? ==> Consistent(TaskBoard.Drop(b, id, s).value)
  {
    if id in b.tasks && b.tasks[id].status != s {
      DropIsStatusEdit(b, id, s);
      UpdatePreservesConsistent(b, id, StatusOnly(s));
    }
  }

  /** A save that changes the status moves the id exactly as a drop does:
      out of the old column with the rest kept in order, onto the end of
      the new one. */
  lemma UpdateMovesId(b: BoardData, id: string, taskData: TaskPatch)
    requires Consistent(b) && id in b.tasks
    requires UpdatedStatus(b.tasks[id], taskData) != b.tasks[id].status
    ensures UpdateDefined(b, id, taskData)
    ensures
      var from := b.tasks[id].status;
      var to := UpdatedStatus(b.tasks[id], taskData);
      var src := b.columns[from].taskIds;
      var r := UpdateBoard(b, id, taskData);
      && id !in r.columns[from].taskIds
      && (exists i :: 0 <= i < |src| && src[i] == id && r.columns[from].taskIds == src[..i] + src[i + 1..])
      && r.columns[to].taskIds == b.columns[to].taskIds + [id]
  {
    var to := UpdatedStatus(b.tasks[id], taskData);
    var from := b.tasks[id].status;
    ExactlyOneColumn(b, id, from);
    OnceAt(b.columns[from].taskIds, id);
  }

  // ---------------------------------------------------------------------
  // Page state

  /** JavaScript truthiness of the selected id: `null` and `""` are false. */
  predicate Truthy(selected: Option<string>)
  {
    selected.Some? && selected.value != ""
  }

  /** The page's state: the board, whether the task form is open and which
      task it edits. `usedIds` records every id the session has put on the
      board, deleted ones included. */
  class Index {
    var boardData: BoardData
    var isModalOpen: bool
    var selectedTaskId: Option<string>
    ghost var usedIds: set<string>

    ghost predicate Valid()
      reads this
    {
      Consistent(boardData) && boardData.tasks.Keys <= usedIds
    }

    /** The page starts on the seed board with the form closed. */
    constructor (now: int, futureDate: int -> int)
      ensures Valid()
      ensures !isModalOpen && selectedTaskId == None
      ensures MockData.IsInitialBoard(boardData, now, futureDate)
      ensures usedIds == boardData.tasks.Keys
    {
      var seed := MockData.InitialBoardData(now, futureDate);
      boardData, isModalOpen, selectedTaskId := seed, false, None;
      usedIds := seed.tasks.Keys;
    }

    /** Opens the form for a new task. */
    method HandleNewTask()
      modifies this
      ensures selectedTaskId == None && isModalOpen
      ensures boardData == old(boardData) && usedIds == old(usedIds)
    {
      selectedTaskId := None;
      isModalOpen := true;
    }

    /** Opens the form on the task the user clicked. */
    method HandleTaskClick(taskId: string)
      modifies this
      ensures selectedTaskId == Some(taskId) && isModalOpen
      ensures boardData == old(boardData) && usedIds == old(usedIds)
    {
      selectedTaskId := Some(taskId);
      isModalOpen := true;
    }

    /** `handleSaveTask`: with a selected task the board becomes the updated
        one, otherwise a new task under the fresh id `freshId` (the id
        generator's draw, never used before in the session) is created at
        time `now`; the form closes either way. */
    method HandleSaveTask(taskData: TaskPatch, freshId: string, now: int)
      requires Valid()
      requires Truthy(selectedTaskId) ==> selectedTaskId.value in boardData.tasks
      requires !Truthy(selectedTaskId) ==> freshId !in usedIds
      modifies this
      ensures Valid()
      ensures !isModalOpen && selectedTaskId == old(selectedTaskId)
      ensures Truthy(selectedTaskId) ==>
        boardData == UpdateBoard(old(boardData), selectedTaskId.value, taskData) && usedIds == old(usedIds)
      ensures !Truthy(selectedTaskId) ==>
        boardData == CreateTask(old(boardData), freshId, taskData, now) && usedIds == old(usedIds) + {freshId}
    {
      if Truthy(selectedTaskId) {
        UpdatePreservesConsistent(boardData, selectedTaskId.value, taskData);
        var newData := SaveTaskUpdate(boardData, selectedTaskId.value, taskData);
        boardData := newData;
      } else {
        CreatePreservesConsistent(boardData, freshId, taskData, now);
        boardData := CreateTask(boardData, freshId, taskData, now);
        usedIds := usedIds + {freshId};
      }
      isModalOpen := false;
    }

    /** `handleDeleteTask`: with a selected task the board loses it and the
        form closes; the selection itself is kept. Without one nothing
        happens. */
    method HandleDeleteTask()
      requires Valid()
      requires Truthy(selectedTaskId) ==> selectedTaskId.value in boardData.tasks
      modifies this
      ensures Valid()
      ensures selectedTaskId == old(selectedTaskId) && usedIds == old(usedIds)
      ensures Truthy(selectedTaskId) ==>
        boardData == DeleteTask(old(boardData), selectedTaskId.value) && !isModalOpen
      ensures !Truthy(selectedTaskId) ==>
        boardData == old(boardData) && isModalOpen == old(isModalOpen)
    {
      if Truthy(selectedTaskId) {
        var newData := DeleteTask(boardData, selectedTaskId.value);
        DeleteKeepsConsistent(boardData, selectedTaskId.value);
        assert newData.tasks.Keys <= boardData.tasks.Keys;
        boardData := newData;
        isModalOpen := false;
      }
    }

    /** A drop on the board view, whose `onDataChange` installs the board it
        hands over. */
    method HandleDrop(taskId: string, columnId: Status)
      requires Valid()
      modifies this
      ensures Valid()
      ensures TaskBoard.Drop(old(boardData), taskId, columnId).Some? ==>
        boardData == TaskBoard.Drop(old(boardData), taskId, columnId).value
      ensures TaskBoard.Drop(old(boardData), taskId, columnId).None? ==> boardData == old(boardData)
      ensures isModalOpen == old(isModalOpen) && selectedTaskId == old(selectedTaskId)
      ensures usedIds == old(usedIds)
    {
      DropPreservesConsistent(boardData, taskId, columnId);
      var newData := TaskBoard.HandleDrop(boardData, taskId, columnId);
      if newData.Some? {
        boardData := newData.value;
      }
    }
  }
}
