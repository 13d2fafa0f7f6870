/** The seed board every session starts from: seven tasks spread 3/2/2 over
    the three columns. */
module MockData {
  import opened TaskTypes

  /** The columns of the seed board, in the literal's key order. */
  function InitialColumns(): map<Status, Column>
  {
    map[
      Todo := Column(Todo, "To Do", ["task-1", "task-2", "task-3"]),
      InProgress := Column(InProgress, "In Progress", ["task-4", "task-5"]),
      Done := Column(Done, "Done", ["task-6", "task-7"])]
  }

  /** The ids of the seed tasks. */
  function SeedIds(): set<string>
  {
    {"task-1", "task-2", "task-3", "task-4", "task-5", "task-6", "task-7"}
  }

  /** The seven seed ids are distinct, so the seed dictionary has seven entries. */
  lemma SeedTasksCount(tasks: map<string, Task>, now: int)
    requires SeedTasks(tasks, now)
    ensures |tasks| == 7
  {
    assert |tasks| == |tasks.Keys| == |SeedIds()|;
  }

  /** `tasks` holds the seed task `k`, stored under its own id, with status
      `s` and created at `now`. */
  predicate SeedEntry(tasks: map<string, Task>, k: string, s: Status, now: int)
  {
    k in tasks && tasks[k].id == k && tasks[k].status == s && tasks[k].createdAt == now
  }

  /** Titles and descriptions of the seed tasks `task-1` to `task-7`. */
  const Title1 := "Design new dashboard layout"
  const Description1 := "Create wireframes and mockups for the new analytics dashboard"
  const Title2 := "Update user documentation"
  const Description2 := "Update the user guide with new features from the latest release"
  const Title3 := "Research competitor features"
  const Description3 := "Analyze top 3 competitors and create a feature comparison report"
  const Title4 := "Implement authentication flow"
  const Description4 := "Develop and test the new OAuth integration"
  const Title5 := "Optimize database queries"
  const Description5 := "Review and optimize slow-performing database queries"
  const Title6 := "Setup CI/CD pipeline"
  const Description6 := "Configure automated testing and deployment workflow"
  const Title7 := "Create onboarding email sequence"
  const Description7 := "Design and write copy for the 5-email onboarding sequence"

  /** The seed task dictionary, filled one assignment at a time. `now` stands
      for every `new Date()` of the seed and `futureDate(d)` for the date `d`
      days from now. */
  method CreateMockTasks(now: int, futureDate: int -> int) returns (tasks: map<string, Task>)
    ensures SeedTasks(tasks, now)
    ensures SeedContents(tasks, now, futureDate)
  {
    tasks := map[];

    tasks := tasks["task-1" := Task(
      "task-1",
      Title1,
      Description1,
      Todo, High, futureDate(5), now)];

    tasks := tasks["task-2" := Task(
      "task-2",
      Title2,
      Description2,
      Todo, Medium, futureDate(7), now)];

    tasks := tasks["task-3" := Task(
      "task-3",
      Title3,
      Description3,
      Todo, Low, futureDate(10), now)];

    tasks := tasks["task-4" := Task(
      "task-4",
      Title4,
      Description4,
      InProgress, High, futureDate(3), now)];

    tasks := tasks["task-5" := Task(
      "task-5",
      Title5,
      Description5,
      InProgress, Medium, futureDate(4), now)];

    tasks := tasks["task-6" := Task(
      "task-6",
      Title6,
      Description6,
      Done, High, futureDate(-2), now)];

    tasks := tasks["task-7" := Task(
      "task-7",
      Title7,
      Description7,
      Done, Medium, futureDate(-5), now)];

    assert tasks.Keys == SeedIds();
  }

  /** `initialBoardData`: the seed tasks, the seed columns and the order
      To Do, In Progress, Done. */
  method InitialBoardData(now: int, futureDate: int -> int) returns (b: BoardData)
    ensures Consistent(b) && IsInitialBoard(b, now, futureDate)
  {
    var tasks := CreateMockTasks(now, futureDate);
    b := BoardData(tasks, InitialColumns(), [Todo, InProgress, Done]);
    SeedConsistent(b, now);
    SeedTasksCount(tasks, now);
  }

  /** The seven seed records in literal order; `futureDate(d)` stands for
      the date `d` days from now. */
  function SeedRecords(now: int, futureDate: int -> int): (r: seq<Task>)
    ensures |r| == 7
  {
    [ Task("task-1", Title1, Description1, Todo, High, futureDate(5), now),
      Task("task-2", Title2, Description2, Todo, Medium, futureDate(7), now),
      Task("task-3", Title3, Description3, Todo, Low, futureDate(10), now),
      Task("task-4", Title4, Description4, InProgress, High, futureDate(3), now),
      Task("task-5", Title5, Description5, InProgress, Medium, futureDate(4), now),
      Task("task-6", Title6, Description6, Done, High, futureDate(-2), now),
      Task("task-7", Title7, Description7, Done, Medium, futureDate(-5), now) ]
  }

  /** Every seed record is stored, unchanged, under its id. */
  predicate SeedContents(tasks: map<string, Task>, now: int, futureDate: int -> int)
  {
    forall i :: 0 <= i < |SeedRecords(now, futureDate)| ==>
      SeedRecords(now, futureDate)[i].id in tasks && tasks[SeedRecords(now, futureDate)[i].id] == SeedRecords(now, futureDate)[i]
  }

  /** `b` is the seed board: the seven seed tasks with their literal
      contents, the seed columns and the order To Do, In Progress, Done. */
  predicate IsInitialBoard(b: BoardData, now: int, futureDate: int -> int)
  {
    && SeedContents(b.tasks, now, futureDate)
    && |b.tasks| == 7
    && b.columns == InitialColumns()
    && b.columnOrder == [Todo, InProgress, Done]
  }

  /** `tasks` holds exactly the seven seed tasks, each under its own id,
      with the status of the seed column that lists it. */
  predicate SeedTasks(tasks: map<string, Task>, now: int)
  {
    && tasks.Keys == SeedIds()
    && SeedEntry(tasks, "task-1", Todo, now) && SeedEntry(tasks, "task-2", Todo, now)
    && SeedEntry(tasks, "task-3", Todo, now)
    && SeedEntry(tasks, "task-4", InProgress, now) && SeedEntry(tasks, "task-5", InProgress, now)
    && SeedEntry(tasks, "task-6", Done, now) && SeedEntry(tasks, "task-7", Done, now)
  }

  /** On a consistent board with the seed columns, the tasks are exactly the seven seeded ids. */
  lemma SeedBoardKeys(b: BoardData)
    requires Consistent(b) && b.columns == InitialColumns()
    ensures b.tasks.Keys == SeedIds()
  {
    SeedListedAreTasks(b);
    SeedTasksAreListed(b);
  }

  lemma SeedListedAreTasks(b: BoardData)
    requires ListedResolve(b) && b.columns == InitialColumns()
    ensures SeedIds() <= b.tasks.Keys
  {
    var cols := InitialColumns();
    assert forall k :: k in cols[Todo].taskIds ==> k in b.tasks;
    assert forall k :: k in cols[InProgress].taskIds ==> k in b.tasks;
    assert forall k :: k in cols[Done].taskIds ==> k in b.tasks;
  }

  lemma SeedTasksAreListed(b: BoardData)
    requires ListedOnce(b) && b.columns == InitialColumns()
    ensures b.tasks.Keys <= SeedIds()
  {
  }

  /** A board holding the seed tasks and the seed columns is consistent. */
  lemma SeedConsistent(b: BoardData, now: int)
    requires SeedTasks(b.tasks, now)
    requires b.columns == InitialColumns() && b.columnOrder == [Todo, InProgress, Done]
    ensures Consistent(b)
  {
    SeedColumns();
    assert ColumnsPresent(b);
    SeedResolve(b.tasks, now);
    assert ListedResolve(b);
    SeedOnce(b.tasks, now);
    assert ListedOnce(b);
    SeedKeys(b.tasks, now);
  }

  lemma SeedResolve(tasks: map<string, Task>, now: int)
    requires SeedTasks(tasks, now)
    ensures forall s: Status, k | s in InitialColumns() && k in InitialColumns()[s].taskIds ::
      k in tasks && tasks[k].status == s
  {
    forall s: Status, k | s in InitialColumns() && k in InitialColumns()[s].taskIds
      ensures k in tasks && tasks[k].status == s
    {
      match s
      case Todo => assert k == "task-1" || k == "task-2" || k == "task-3";
      case InProgress => assert k == "task-4" || k == "task-5";
      case Done => assert k == "task-6" || k == "task-7";
    }
  }

  lemma SeedOnce(tasks: map<string, Task>, now: int)
    requires SeedTasks(tasks, now)
    ensures forall k | k in tasks :: multiset(InitialColumns()[tasks[k].status].taskIds)[k] == 1
  {
    forall k | k in tasks
      ensures multiset(InitialColumns()[tasks[k].status].taskIds)[k] == 1
    {
      SeedListedOnce(k);
      if k == "task-1" || k == "task-2" || k == "task-3" {
        assert tasks[k].status == Todo;
      } else if k == "task-4" || k == "task-5" {
        assert tasks[k].status == InProgress;
      } else {
        assert k == "task-6" || k == "task-7";
        assert tasks[k].status == Done;
      }
    }
  }

  lemma SeedKeys(tasks: map<string, Task>, now: int)
    requires SeedTasks(tasks, now)
    ensures forall k | k in tasks :: tasks[k].id == k
  {
  }

  /** Each seed id occurs once in the seed column of its status. */
  lemma SeedListedOnce(k: string)
    requires k in SeedIds()
    ensures k == "task-1" || k == "task-2" || k == "task-3" ==> multiset(InitialColumns()[Todo].taskIds)[k] == 1
    ensures k == "task-4" || k == "task-5" ==> multiset(InitialColumns()[InProgress].taskIds)[k] == 1
    ensures k == "task-6" || k == "task-7" ==> multiset(InitialColumns()[Done].taskIds)[k] == 1
  {
  }

  /** Each seed column is stored under its own id, carries its display
      title and lists 3, 2 and 2 ids, with no id in two columns. */
  lemma SeedColumns()
    ensures forall s: Status :: s in InitialColumns() && InitialColumns()[s].id == s
    ensures InitialColumns()[Todo].title == "To Do"
    ensures InitialColumns()[InProgress].title == "In Progress"
    ensures InitialColumns()[Done].title == "Done"
    ensures |InitialColumns()[Todo].taskIds| == 3
    ensures |InitialColumns()[InProgress].taskIds| == 2
    ensures |InitialColumns()[Done].taskIds| == 2
    ensures forall s: Status, t: Status, k :: s != t && k in InitialColumns()[s].taskIds ==>
      k !in InitialColumns()[t].taskIds
  {
    forall s: Status ensures s in InitialColumns() && InitialColumns()[s].id == s {
      match s
      case Todo =>
      case InProgress =>
      case Done =>
    }
  }
}
