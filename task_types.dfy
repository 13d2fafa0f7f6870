/** The board's data model: tasks, status columns and the board that holds
    them, with the consistency invariant every board operation keeps. */
module TaskTypes {

  datatype Priority = Low | Medium | High

  /** A status is also the identity of the column that lists the task. */
  datatype Status = Todo | InProgress | Done

  /** `deadline` and `createdAt` are calendar instants, kept opaque. */
  datatype Task = Task(
    id: string,
    title: string,
    description: string,
    status: Status,
    priority: Priority,
    deadline: int,
    createdAt: int)

  /** `taskIds` is the column's display order. */
  datatype Column = Column(id: Status, title: string, taskIds: seq<string>)

  /** The task map, the columns keyed by status, and the order in which the
      columns are shown. */
  datatype BoardData = BoardData(
    tasks: map<string, Task>,
    columns: map<Status, Column>,
    columnOrder: seq<Status>)

  /** Every status has a column, stored under its own id. */
  predicate ColumnsPresent(b: BoardData)
  {
    forall s: Status :: s in b.columns && b.columns[s].id == s
  }

  /** Every listed id names a task whose status is the listing column. */
  predicate ListedResolve(b: BoardData)
  {
    forall s: Status, k: string :: s in b.columns && k in b.columns[s].taskIds ==>
      k in b.tasks && b.tasks[k].status == s
  }

  /** Every task is listed exactly once in the column of its status. */
  predicate ListedOnce(b: BoardData)
  {
    forall k :: k in b.tasks ==>
      b.tasks[k].status in b.columns && multiset(b.columns[b.tasks[k].status].taskIds)[k] == 1
  }

  /** Every task is stored under its own id. */
  predicate KeysAreIds(b: BoardData)
  {
    forall k :: k in b.tasks ==> b.tasks[k].id == k
  }

  /** The column order names each of the three statuses exactly once. */
  predicate OrderIsPermutation(order: seq<Status>)
  {
    multiset(order) == multiset{Todo, InProgress, Done}
  }

  predicate Consistent(b: BoardData)
  {
    && ColumnsPresent(b)
    && ListedResolve(b)
    && ListedOnce(b)
    && KeysAreIds(b)
    && OrderIsPermutation(b.columnOrder)
  }

  /** On a consistent board a task is listed once in the column of its
      status and in no other column. */
  lemma ExactlyOneColumn(b: BoardData, k: string, s: Status)
    requires Consistent(b) && k in b.tasks
    ensures multiset(b.columns[s].taskIds)[k] == if s == b.tasks[k].status then 1 else 0
  {
    if s != b.tasks[k].status {
      assert k !in b.columns[s].taskIds;
    }
  }

  /** A permutation of the three statuses has three entries, all distinct,
      and names every status. */
  lemma OrderEachOnce(order: seq<Status>)
    requires OrderIsPermutation(order)
    ensures |order| == 3
    ensures forall s: Status :: s in order
    ensures forall i, j :: 0 <= i < j < |order| ==> order[i] != order[j]
  {
    assert |multiset(order)| == 3;
    forall s: Status ensures s in order {
      assert multiset{Todo, InProgress, Done}[s] == 1 by {
        match s
        case Todo =>
        case InProgress =>
        case Done =>
      }
    }
  }

  /** On a consistent board an id with no task is listed in no column. */
  lemma NotListed(b: BoardData, k: string)
    requires Consistent(b) && k !in b.tasks
    ensures forall s: Status :: k !in b.columns[s].taskIds
  {
  }
}
