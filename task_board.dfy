/** The board view: moving a task by dropping it on a column, the column
    headers, and the resolution of each column's ids to the cards shown. */
module TaskBoard {
  import opened Options
  import opened TaskTypes
  import opened ArrayOps
  import MockData

  /** The name a move notification gives the destination column. */
  function StatusLabel(s: Status): string
  {
    match s
    case Todo => "To Do"
    case InProgress => "In Progress"
    case Done => "Done"
  }

  /** The label of a status is the title of its column on the seed board,
      and different statuses have different labels. */
  lemma StatusLabelIsSeedTitle(s: Status, t: Status)
    ensures StatusLabel(s) == MockData.InitialColumns()[s].title
    ensures StatusLabel(s) == StatusLabel(t) ==> s == t
  {
    MockData.SeedColumns();
  }

  /** The drop handler dereferences the source and destination columns only
      when it moves the task. */
  predicate DropDefined(data: BoardData, taskId: string, columnId: Status)
  {
    taskId in data.tasks && data.tasks[taskId].status != columnId ==>
      data.tasks[taskId].status in data.columns && columnId in data.columns
  }

  /** The board a drop of `taskId` on column `columnId` hands to
      `onDataChange`, or None when nothing is handed over. */
  function Drop(data: BoardData, taskId: string, columnId: Status): (r: Option<BoardData>)
    requires DropDefined(data, taskId, columnId)
    ensures r.None? <==> taskId !in data.tasks || data.tasks[taskId].status == columnId
    ensures r.Some? ==>
      var task := data.tasks[taskId];
      var src := data.columns[task.status];
      var dst := data.columns[columnId];
      && r.value.columnOrder == data.columnOrder
      && (forall k :: k in r.value.tasks <==> k in data.tasks)
      && r.value.tasks[taskId].status == columnId
      && r.value.tasks[taskId].(status := task.status) == task
      && (forall k :: k in data.tasks && k != taskId ==> r.value.tasks[k] == data.tasks[k])
      && (forall s :: s in r.value.columns <==> s in data.columns || s == src.id || s == dst.id)
      && r.value.columns[dst.id] == dst.(taskIds := dst.taskIds + [taskId])
      && (src.id != dst.id ==>
            r.value.columns[src.id] == src.(taskIds := RemoveFirst(src.taskIds, taskId)))
      && (forall s :: s in data.columns && s != src.id && s != dst.id ==>
            r.value.columns[s] == data.columns[s])
  {
    if taskId in data.tasks && data.tasks[taskId].status != columnId then
      var task := data.tasks[taskId];
      var sourceColumn := data.columns[task.status];
      var destColumn := data.columns[columnId];
      Some(data.(
        tasks := data.tasks[taskId := task.(status := columnId)],
        columns := data.columns
          [sourceColumn.id := sourceColumn.(taskIds := RemoveFirst(sourceColumn.taskIds, taskId))]
          [destColumn.id := destColumn.(taskIds := destColumn.taskIds + [taskId])]))
    else
      None
  }

  /** `handleDrop`: the id list of the source column is copied and the
      dropped id cut out of it where `indexOf` finds it; the destination's
      copy gets the id pushed on its end. */
  method HandleDrop(data: BoardData, taskId: string, columnId: Status) returns (newData: Option<BoardData>)
    requires DropDefined(data, taskId, columnId)
    ensures newData == Drop(data, taskId, columnId)
  {
    newData := None;
    if taskId in data.tasks && data.tasks[taskId].status != columnId {
      var task := data.tasks[taskId];
      var sourceColumn := data.columns[task.status];
      var destColumn := data.columns[columnId];

      var sourceTaskIds := sourceColumn.taskIds;
      var taskIndex := IndexOf(sourceTaskIds, taskId);
      if taskIndex != -1 {
        RemoveFirstAt(sourceTaskIds, taskId, taskIndex);
        sourceTaskIds := sourceTaskIds[..taskIndex] + sourceTaskIds[taskIndex + 1..];
      } else {
        RemoveFirstCounts(sourceTaskIds, taskId);
      }

      var destTaskIds := destColumn.taskIds;
      destTaskIds := destTaskIds + [taskId];

      var updatedTask := task.(status := columnId);
      newData := Some(data.(
        tasks := data.tasks[taskId := updatedTask],
        columns := data.columns
          [sourceColumn.id := sourceColumn.(taskIds := sourceTaskIds)]
          [destColumn.id := destColumn.(taskIds := destTaskIds)]));
    }
  }

  /** On a consistent board a real drop takes the id out of its source
      column, keeping the other ids in order, and makes it the last entry of
      the destination column; the third column is left as it was. */
  lemma DropMovesId(data: BoardData, taskId: string, columnId: Status)
    requires Consistent(data)
    requires taskId in data.tasks && data.tasks[taskId].status != columnId
    ensures
      var from := data.tasks[taskId].status;
      var src := data.columns[from].taskIds;
      var dst := data.columns[columnId].taskIds;
      var r := Drop(data, taskId, columnId).value;
      && taskId !in r.columns[from].taskIds
      && |r.columns[from].taskIds| == |src| - 1
      && (exists i :: 0 <= i < |src| && src[i] == taskId && r.columns[from].taskIds == src[..i] + src[i + 1..])
      && r.columns[columnId].taskIds == dst + [taskId]
      && |r.columns[columnId].taskIds| == |dst| + 1
      && (forall s: Status :: s != from && s != columnId ==> r.columns[s] == data.columns[s])
  {
    var from := data.tasks[taskId].status;
    ExactlyOneColumn(data, taskId, from);
    DropColumns(data, taskId, columnId);
    OnceAt(data.columns[from].taskIds, taskId);
  }

  /** The columns after a real drop, on a board whose columns are stored
      under their own ids. */
  lemma DropColumns(data: BoardData, taskId: string, columnId: Status)
    requires ColumnsPresent(data)
    requires taskId in data.tasks && data.tasks[taskId].status != columnId
    ensures
      var from := data.tasks[taskId].status;
      var r := Drop(data, taskId, columnId).value;
      && r.columns[from].taskIds == RemoveFirst(data.columns[from].taskIds, taskId)
      && r.columns[columnId].taskIds == data.columns[columnId].taskIds + [taskId]
      && (forall s: Status :: s != from && s != columnId ==> r.columns[s] == data.columns[s])
  {
  }

  /** What `getColumnHeader` shows: the column's title and its task count. */
  datatype ColumnHeader = ColumnHeader(title: string, taskCount: nat)

  function GetColumnHeader(data: BoardData, columnId: Status): (h: ColumnHeader)
    requires columnId in data.columns
    ensures h.title == data.columns[columnId].title
    ensures h.taskCount == |data.columns[columnId].taskIds|
  {
    var column := data.columns[columnId];
    ColumnHeader(column.title, |column.taskIds|)
  }

  /** One rendered column: its header and the task cards in list order. */
  datatype ColumnView = ColumnView(columnId: Status, header: ColumnHeader, cards: seq<Task>)

  /** The render loop looks up every column of `order` and every id it
      lists; each lookup must succeed for a card to be drawn. */
  predicate Renderable(data: BoardData, order: seq<Status>)
  {
    forall i :: 0 <= i < |order| ==>
      order[i] in data.columns && forall k :: k in data.columns[order[i]].taskIds ==> k in data.tasks
  }

  function RenderColumn(data: BoardData, columnId: Status): (v: ColumnView)
    requires columnId in data.columns
    requires forall k :: k in data.columns[columnId].taskIds ==> k in data.tasks
    ensures v.columnId == columnId
    ensures |v.cards| == v.header.taskCount == |data.columns[columnId].taskIds|
    ensures forall j :: 0 <= j < |v.cards| ==> v.cards[j] == data.tasks[data.columns[columnId].taskIds[j]]
  {
    var ids := data.columns[columnId].taskIds;
    ColumnView(columnId, GetColumnHeader(data, columnId), seq(|ids|, j requires 0 <= j < |ids| => data.tasks[ids[j]]))
  }

  /** The columns of `order`, rendered in that order. */
  function RenderColumns(data: BoardData, order: seq<Status>): (r: seq<ColumnView>)
    requires Renderable(data, order)
    ensures |r| == |order|
    ensures forall i :: 0 <= i < |r| ==> r[i] == RenderColumn(data, order[i])
  {
    if order == [] then []
    else
      assert Renderable(data, order[1..]) by {
        forall i | 0 <= i < |order[1..]| ensures order[1..][i] == order[i + 1] { }
      }
      [RenderColumn(data, order[0])] + RenderColumns(data, order[1..])
  }

  function Render(data: BoardData): (r: seq<ColumnView>)
    requires Renderable(data, data.columnOrder)
  {
    RenderColumns(data, data.columnOrder)
  }

  /** On a consistent board every column of the order renders, the three
      statuses are all rendered, and each card is the task its listed id
      names, with the status of the column it is drawn in. */
  lemma ConsistentRenders(data: BoardData)
    requires Consistent(data)
    ensures Renderable(data, data.columnOrder)
    ensures |Render(data)| == 3
    ensures forall s: Status :: s in data.columnOrder
    ensures forall i, j :: 0 <= i < |Render(data)| && 0 <= j < |Render(data)[i].cards| ==>
      Render(data)[i].cards[j].id == data.columns[data.columnOrder[i]].taskIds[j]
      && Render(data)[i].cards[j].status == Render(data)[i].columnId
  {
    OrderEachOnce(data.columnOrder);
    var r := Render(data);
    forall i, j | 0 <= i < |r| && 0 <= j < |r[i].cards|
      ensures r[i].cards[j].id == data.columns[data.columnOrder[i]].taskIds[j]
      ensures r[i].cards[j].status == r[i].columnId
    {
      assert data.columns[data.columnOrder[i]].taskIds[j] in data.columns[data.columnOrder[i]].taskIds;
    }
  }

  /** The sum of the counts shown in the headers. */
  function ShownCount(views: seq<ColumnView>): nat
  {
    if views == [] then 0 else views[0].header.taskCount + ShownCount(views[1..])
  }

  /** The tasks whose status is one of `order`. */
  function TasksIn(data: BoardData, order: seq<Status>): set<string>
  {
    set k | k in data.tasks && data.tasks[k].status in order
  }

  /** On a consistent board a column's header count is the number of tasks
      with that status. */
  lemma ColumnCountIsTasksOfStatus(data: BoardData, s: Status)
    requires Consistent(data)
    ensures |data.columns[s].taskIds| == |TasksIn(data, [s])|
  {
    var ids := data.columns[s].taskIds;
    forall x ensures multiset(ids)[x] <= 1 {
      if x in ids {
        ExactlyOneColumn(data, x, s);
      }
    }
    DistinctCard(ids);
    assert (set x | x in ids) == TasksIn(data, [s]) by {
      forall x | x in TasksIn(data, [s]) ensures x in ids {
        ExactlyOneColumn(data, x, s);
      }
    }
  }

  /** The tasks of a status and those of statuses not including it are
      disjoint and together make up the tasks of both. */
  lemma TasksInSplit(data: BoardData, order: seq<Status>)
    requires order != [] && order[0] !in order[1..]
    ensures TasksIn(data, order) == TasksIn(data, [order[0]]) + TasksIn(data, order[1..])
    ensures TasksIn(data, [order[0]]) * TasksIn(data, order[1..]) == {}
  {
  }

  /** Rendering distinct columns whose lists each hold exactly the tasks of
      their status shows a count for every task of those statuses. */
  lemma {:induction false} ShownCountOfColumns(data: BoardData, order: seq<Status>)
    requires Renderable(data, order)
    requires forall i :: 0 <= i < |order| ==> |data.columns[order[i]].taskIds| == |TasksIn(data, [order[i]])|
    requires forall i, j :: 0 <= i < j < |order| ==> order[i] != order[j]
    ensures ShownCount(RenderColumns(data, order)) == |TasksIn(data, order)|
  {
    if order != [] {
      var rest := order[1..];
      assert forall i, j :: 0 <= i < j < |rest| ==> rest[i] != rest[j] by {
        forall i, j | 0 <= i < j < |rest| ensures rest[i] != rest[j] {
          assert rest[i] == order[i + 1] && rest[j] == order[j + 1];
        }
      }
      assert order[0] !in rest by {
        forall j | 0 <= j < |rest| ensures rest[j] != order[0] {
          assert rest[j] == order[j + 1];
        }
      }
      assert Renderable(data, rest) by {
        forall i | 0 <= i < |rest| ensures rest[i] == order[i + 1] { }
      }
      assert forall i :: 0 <= i < |rest| ==> |data.columns[rest[i]].taskIds| == |TasksIn(data, [rest[i]])| by {
        forall i | 0 <= i < |rest| ensures rest[i] == order[i + 1] { }
      }
      ShownCountOfColumns(data, rest);
      TasksInSplit(data, order);
      var r := RenderColumns(data, order);
      assert r[1..] == RenderColumns(data, rest);
    }
  }

  /** On a consistent board the header counts add up to the number of
      tasks: every task is counted once. */
  lemma ShownCountIsTaskCount(data: BoardData)
    requires Consistent(data)
    ensures Renderable(data, data.columnOrder)
    ensures ShownCount(Render(data)) == |data.tasks|
  {
    OrderEachOnce(data.columnOrder);
    ConsistentRenders(data);
    forall s: Status ensures |data.columns[s].taskIds| == |TasksIn(data, [s])| {
      ColumnCountIsTasksOfStatus(data, s);
    }
    ShownCountOfColumns(data, data.columnOrder);
    TasksInAll(data, data.columnOrder);
  }

  lemma TasksInAll(data: BoardData, order: seq<Status>)
    requires forall s: Status :: s in order
    ensures TasksIn(data, order) == data.tasks.Keys
  {
  }
}
