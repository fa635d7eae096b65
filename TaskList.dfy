/**
  The "tasks assigned to me" screen: the same query pipeline as the bug screen (exact
  status and priority filters, text search, optional column sort, pagination), the task
  statistics, and the edit dialog that changes a task's status, locked for completed tasks.
 */
module TaskList {
  import opened Common
  import opened Text
  import opened Sequences
  import opened Sorting
  import opened Paging

  /**
    A task as the screen reads it. `taskId` is the text of `task_id.toString()`; the fields
    read through `?.` may be missing. `deadline` is a timestamp.
   */
  datatype Task = Task(
    taskId: Option<string>,
    title: Option<string>,
    projectName: Option<string>,
    assignedBy: Option<string>,
    status: string,
    priority: string,
    deadline: int,
    delayReason: Option<string>)

  /** The sortable columns: `task_id`, `title`, `status`, `priority`. */
  datatype TaskColumn = TaskIdColumn | TitleColumn | StatusColumn | PriorityColumn

  /** The filter selection: `searchTerm`, `selectedStatus`, `selectedPriority`. */
  datatype Criteria = Criteria(searchTerm: string, selectedStatus: string, selectedPriority: string)

  /** `task[sortField] || ''`. */
  function SortKey(t: Task, column: TaskColumn): string {
    match column
    case TaskIdColumn => t.taskId.GetOr("")
    case TitleColumn => t.title.GetOr("")
    case StatusColumn => t.status
    case PriorityColumn => t.priority
  }

  // ----- The three filter conditions -----

  predicate StatusPasses(t: Task, c: Criteria) {
    c.selectedStatus == "all" || t.status == c.selectedStatus
  }

  predicate PriorityPasses(t: Task, c: Criteria) {
    c.selectedPriority == "all" || t.priority == c.selectedPriority
  }

  /** `field?.toLowerCase().includes(term)`. */
  predicate FieldHas(field: Option<string>, term: string) {
    field.Some? && Includes(Lower(field.value), term)
  }

  /**
    Some searched field of `t` contains the lower-cased `term`. The task number is
    searched as it is, without lower-casing.
   */
  predicate SearchHit(t: Task, term: string) {
    || FieldHas(t.title, term) || FieldHas(t.projectName, term) || FieldHas(t.assignedBy, term)
    || (t.taskId.Some? && Includes(t.taskId.value, term))
  }

  predicate SearchPasses(t: Task, c: Criteria) {
    IsBlank(c.searchTerm) || SearchHit(t, Lower(c.searchTerm))
  }

  predicate Matches(t: Task, c: Criteria) {
    StatusPasses(t, c) && PriorityPasses(t, c) && SearchPasses(t, c)
  }

  /** The tests of the three filter steps, and of all three at once, as function values. */
  function StatusStep(status: string): Task -> bool {
    (t: Task) => t.status == status
  }

  function PriorityStep(priority: string): Task -> bool {
    (t: Task) => t.priority == priority
  }

  function SearchStep(term: string): Task -> bool {
    (t: Task) => SearchHit(t, term)
  }

  function MatchesAll(c: Criteria): Task -> bool {
    (t: Task) => Matches(t, c)
  }

  /** The sort key of a column, as a function value. */
  function ByColumn(column: TaskColumn): Task -> string {
    (t: Task) => SortKey(t, column)
  }

  /** The filter chain of `filteredAndSortedTasks`, one step at a time as the screen runs it. */
  function FilterTasks(tasks: seq<Task>, c: Criteria): seq<Task> {
    var byStatus := if c.selectedStatus != "all" then Filter(tasks, StatusStep(c.selectedStatus)) else tasks;
    var byPriority := if c.selectedPriority != "all" then Filter(byStatus, PriorityStep(c.selectedPriority)) else byStatus;
    if !IsBlank(c.searchTerm) then Filter(byPriority, SearchStep(Lower(c.searchTerm))) else byPriority
  }

  /** `filteredAndSortedTasks()`: the filtered tasks, sorted on a copy only when a column is chosen. */
  function FilteredAndSortedTasks(tasks: seq<Task>, c: Criteria, sortField: Option<TaskColumn>, dir: Direction): seq<Task> {
    var filtered := FilterTasks(tasks, c);
    match sortField
    case Some(column) => SortBy(filtered, ByColumn(column), dir)
    case None => filtered
  }

  /** The step-by-step chain is a single filter by the conjunction of the three conditions. */
  lemma FilterTasksIsConjunction(tasks: seq<Task>, c: Criteria)
    ensures FilterTasks(tasks, c) == Filter(tasks, MatchesAll(c))
  {
    var p1 := (t: Task) => StatusPasses(t, c);
    var p2 := (t: Task) => PriorityPasses(t, c);
    var p3 := (t: Task) => SearchPasses(t, c);
    var p12 := (t: Task) => StatusPasses(t, c) && PriorityPasses(t, c);

    var byStatus := if c.selectedStatus != "all" then Filter(tasks, StatusStep(c.selectedStatus)) else tasks;
    if c.selectedStatus != "all" {
      FilterCongruent(tasks, StatusStep(c.selectedStatus), p1);
    } else {
      FilterKeepsAll(tasks, p1);
    }
    assert byStatus == Filter(tasks, p1);

    var byPriority := if c.selectedPriority != "all" then Filter(byStatus, PriorityStep(c.selectedPriority)) else byStatus;
    if c.selectedPriority != "all" {
      FilterCongruent(byStatus, PriorityStep(c.selectedPriority), p2);
    } else {
      FilterKeepsAll(byStatus, p2);
    }
    assert byPriority == Filter(byStatus, p2);

    if !IsBlank(c.searchTerm) {
      FilterCongruent(byPriority, SearchStep(Lower(c.searchTerm)), p3);
    } else {
      FilterKeepsAll(byPriority, p3);
    }
    assert FilterTasks(tasks, c) == Filter(byPriority, p3);

    FilterFusion(tasks, p1, p2, p12);
    FilterFusion(tasks, p12, p3, MatchesAll(c));
  }

  /** With no sort column the visible rows are the matching tasks in their fetched order. */
  lemma UnsortedQueryKeepsOrder(tasks: seq<Task>, c: Criteria, dir: Direction)
    ensures FilteredAndSortedTasks(tasks, c, None, dir) == Filter(tasks, MatchesAll(c))
    ensures IsSubsequence(FilteredAndSortedTasks(tasks, c, None, dir), tasks)
  {
    FilterTasksIsConjunction(tasks, c);
    FilterIsSubsequence(tasks, MatchesAll(c));
  }

  /** A task is a visible row exactly when it was fetched and passes all three filters. */
  lemma QueryMembership(tasks: seq<Task>, c: Criteria, sortField: Option<TaskColumn>, dir: Direction, t: Task)
    ensures t in FilteredAndSortedTasks(tasks, c, sortField, dir) <==> t in tasks && Matches(t, c)
  {
    FilterTasksIsConjunction(tasks, c);
    var filtered := FilterTasks(tasks, c);
    var r := FilteredAndSortedTasks(tasks, c, sortField, dir);
    assert multiset(r) == multiset(filtered);
    assert t in r <==> t in multiset(r);
    assert t in filtered <==> t in multiset(filtered);
    if t in tasks && Matches(t, c) {
      var i :| 0 <= i < |tasks| && tasks[i] == t;
    }
  }

  /** With a sort column the rows are a permutation of the matching tasks, ordered by that column. */
  lemma SortedQueryIsOrderedPermutation(tasks: seq<Task>, c: Criteria, column: TaskColumn, dir: Direction)
    ensures multiset(FilteredAndSortedTasks(tasks, c, Some(column), dir)) == multiset(Filter(tasks, MatchesAll(c)))
    ensures SortedBy(FilteredAndSortedTasks(tasks, c, Some(column), dir), ByColumn(column), dir)
  {
    FilterTasksIsConjunction(tasks, c);
  }

  /** The number of rows depends only on the filters, never on the sort. */
  lemma RowCountIgnoresSort(tasks: seq<Task>, c: Criteria, sortField: Option<TaskColumn>, dir: Direction)
    ensures |FilteredAndSortedTasks(tasks, c, sortField, dir)| == Count(tasks, MatchesAll(c))
  {
    FilterTasksIsConjunction(tasks, c);
    if sortField.Some? {
      SortKeepsLength(FilterTasks(tasks, c), ByColumn(sortField.value), dir);
    }
  }

  /** The term is lower-cased but the task number is not, so searching "T1" misses the task numbered "T1". */
  lemma TaskIdSearchIsCaseSensitive()
    ensures !SearchPasses(Task(Some("T1"), None, None, None, "Planned", "Low", 0, None), Criteria("T1", "all", "all"))
  {
    var term := Lower("T1");
    assert term == "t1";
    assert !Includes("T1", term) by {
      assert !OccursAt("T1", term, 0);
    }
  }

  // ----- Statistics header -----

  /** `taskStats`: counts over the whole fetched collection by exact status and priority. */
  datatype TaskStats = TaskStats(total: nat, planned: nat, inProgress: nat, completed: nat,
                                 highPriority: nat, mediumPriority: nat, lowPriority: nat)

  function Stats(tasks: seq<Task>): TaskStats {
    TaskStats(
      |tasks|,
      Count(tasks, (t: Task) => t.status == "Planned"),
      Count(tasks, (t: Task) => t.status == "In Progress"),
      Count(tasks, (t: Task) => t.status == "Completed"),
      Count(tasks, (t: Task) => t.priority == "High"),
      Count(tasks, (t: Task) => t.priority == "Medium"),
      Count(tasks, (t: Task) => t.priority == "Low"))
  }

  /** No task is counted twice: the status counts, and the priority counts, never exceed the total. */
  lemma StatsBounded(tasks: seq<Task>)
    ensures Stats(tasks).planned + Stats(tasks).inProgress + Stats(tasks).completed <= Stats(tasks).total
    ensures Stats(tasks).highPriority + Stats(tasks).mediumPriority + Stats(tasks).lowPriority <= Stats(tasks).total
  {
    var planned := (t: Task) => t.status == "Planned";
    var inProgress := (t: Task) => t.status == "In Progress";
    var completed := (t: Task) => t.status == "Completed";
    var notDone := (t: Task) => planned(t) || inProgress(t);
    CountDisjoint(tasks, planned, inProgress, notDone);
    CountDisjoint(tasks, notDone, completed, (t: Task) => notDone(t) || completed(t));
    var high := (t: Task) => t.priority == "High";
    var medium := (t: Task) => t.priority == "Medium";
    var low := (t: Task) => t.priority == "Low";
    var highOrMedium := (t: Task) => high(t) || medium(t);
    CountDisjoint(tasks, high, medium, highOrMedium);
    CountDisjoint(tasks, highOrMedium, low, (t: Task) => highOrMedium(t) || low(t));
  }

  // ----- Editing a task's status -----

  /** `isdeadlinePassed`: the deadline lies strictly before `now`. */
  predicate DeadlinePassed(t: Task, now: int) {
    t.deadline < now
  }

  /** A task whose status is `Completed` cannot be opened for editing. */
  predicate EditLocked(t: Task) {
    t.status == "Completed"
  }

  /** The copy `handleEditTask` edits: `{ ...task, delayReason: task.delayReason || '' }`. */
  function EditCopy(t: Task): (e: Task)
    ensures e.delayReason.Some?
    ensures t.delayReason.Some? ==> e.delayReason == t.delayReason
    ensures e.(delayReason := t.delayReason) == t
  {
    t.(delayReason := Some(t.delayReason.GetOr("")))
  }

  /** The `updateTaskStatus` payload: `{ task_id, status }`, plus `delayReason` when late. */
  datatype StatusUpdate = StatusUpdate(taskId: Option<string>, status: string, delayReason: Option<string>)

  /** The payload `handleSaveEdit` builds for the task being edited. */
  function SaveEditPayload(e: Task, now: int): (p: StatusUpdate)
    ensures p.taskId == e.taskId && p.status == e.status
    ensures p.delayReason.Some? <==> DeadlinePassed(e, now)
    ensures p.delayReason.Some? ==> p.delayReason.value == e.delayReason.GetOr("")
  {
    var base := StatusUpdate(e.taskId, e.status, None);
    if e.deadline < now then base.(delayReason := Some(e.delayReason.GetOr(""))) else base
  }

  /** Nothing demands a non-empty reason: a late task can be saved with an empty one. */
  lemma LateSaveMayHaveEmptyReason(e: Task, now: int)
    requires DeadlinePassed(e, now) && e.delayReason.GetOr("") == ""
    ensures SaveEditPayload(e, now).delayReason == Some("")
  {
  }

  /** Whether the task was late is decided by the same comparison the dialog uses to show the reason box. */
  lemma PayloadReasonFollowsReasonBox(t: Task, now: int)
    ensures SaveEditPayload(EditCopy(t), now).delayReason.Some? <==> DeadlinePassed(t, now)
  {
  }

  /** The state of the screen that its handlers change. */
  class TaskListScreen {
    var tasks: seq<Task>
    var searchTerm: string
    var selectedStatus: string
    var selectedPriority: string
    var sortField: Option<TaskColumn>
    var sortDirection: Direction
    var currentPage: nat
    var tasksPerPage: nat
    /** `parseInt(goToPage, 10)`: `None` when the input is empty or not a number. */
    var goToPage: Option<int>
    var editTask: Option<Task>

    /** Pages count from 1, a page holds at least one row, and a task under edit always has a reason string. */
    ghost predicate Valid()
      reads this`currentPage, this`tasksPerPage, this`editTask
    {
      currentPage >= 1 && tasksPerPage > 0 && (editTask.Some? ==> editTask.value.delayReason.Some?)
    }

    function Filters(): Criteria
      reads this`searchTerm, this`selectedStatus, this`selectedPriority
    {
      Criteria(searchTerm, selectedStatus, selectedPriority)
    }

    /** `sortedTasks`. */
    function Rows(): seq<Task>
      reads this`tasks, this`searchTerm, this`selectedStatus, this`selectedPriority, this`sortField, this`sortDirection
    {
      FilteredAndSortedTasks(tasks, Filters(), sortField, sortDirection)
    }

    /** `totalPages`. */
    function PageCount(): nat
      reads this`tasks, this`searchTerm, this`selectedStatus, this`selectedPriority, this`sortField, this`sortDirection, this`tasksPerPage
      requires tasksPerPage > 0
    {
      TotalPages(|Rows()|, tasksPerPage)
    }

    /** `currentTasks`: the rows on the current page. */
    function CurrentTasks(): seq<Task>
      reads this`tasks, this`searchTerm, this`selectedStatus, this`selectedPriority, this`sortField, this`sortDirection, this`currentPage, this`tasksPerPage
      requires currentPage >= 1 && tasksPerPage > 0
    {
      Page(Rows(), currentPage, tasksPerPage)
    }

    constructor ()
      ensures Valid()
      ensures tasks == [] && searchTerm == "" && selectedStatus == "all" && selectedPriority == "all"
      ensures sortField == None && sortDirection == Asc && currentPage == 1 && tasksPerPage == 8
      ensures goToPage == None && editTask == None
    {
      tasks, searchTerm, selectedStatus, selectedPriority := [], "", "all", "all";
      sortField, sortDirection, currentPage, tasksPerPage := None, Asc, 1, 8;
      goToPage, editTask := None, None;
    }

    /** The store answered `getAllTaskByEmployeeId`: the collection is replaced wholesale. */
    method ReceiveTasks(fetched: seq<Task>)
      requires Valid()
      modifies this`tasks
      ensures Valid() && tasks == fetched
    {
      tasks := fetched;
    }

    /** Typing in the search box; a changed term sends the screen back to page 1. */
    method SetSearchTerm(term: string)
      requires Valid()
      modifies this`searchTerm, this`currentPage
      ensures Valid() && searchTerm == term
      ensures currentPage == if term != old(searchTerm) then 1 else old(currentPage)
    {
      if term != searchTerm {
        currentPage := 1;
      }
      searchTerm := term;
    }

    /** `handleStatusFilter`; a changed selection sends the screen back to page 1. */
    method HandleStatusFilter(status: string)
      requires Valid()
      modifies this`selectedStatus, this`currentPage
      ensures Valid() && selectedStatus == status
      ensures currentPage == if status != old(selectedStatus) then 1 else old(currentPage)
    {
      if status != selectedStatus {
        currentPage := 1;
      }
      selectedStatus := status;
    }

    /** `handlePriorityFilter`; a changed selection sends the screen back to page 1. */
    method HandlePriorityFilter(priority: string)
      requires Valid()
      modifies this`selectedPriority, this`currentPage
      ensures Valid() && selectedPriority == priority
      ensures currentPage == if priority != old(selectedPriority) then 1 else old(currentPage)
    {
      if priority != selectedPriority {
        currentPage := 1;
      }
      selectedPriority := priority;
    }

    /** Choosing the page size; a changed size sends the screen back to page 1. */
    method SetTasksPerPage(perPage: nat)
      requires Valid() && perPage > 0
      modifies this`tasksPerPage, this`currentPage
      ensures Valid() && tasksPerPage == perPage
      ensures currentPage == if perPage != old(tasksPerPage) then 1 else old(currentPage)
    {
      if perPage != tasksPerPage {
        currentPage := 1;
      }
      tasksPerPage := perPage;
    }

    /** Typing in the go-to-page box. */
    method SetGoToPage(input: Option<int>)
      requires Valid()
      modifies this`goToPage
      ensures Valid() && goToPage == input
    {
      goToPage := input;
    }

    /** `handlePageChange`: only a page in `1..totalPages` is accepted, and it is never an empty page; otherwise nothing changes. */
    method HandlePageChange(pageNumber: int) returns (accepted: bool)
      requires Valid()
      modifies this`currentPage
      ensures Valid()
      ensures accepted <==> 1 <= pageNumber <= old(PageCount())
      ensures currentPage == if accepted then pageNumber else old(currentPage)
      ensures accepted ==> CurrentTasks() != []
    {
      accepted := 1 <= pageNumber <= PageCount();
      if accepted {
        currentPage := pageNumber;
        PageNonEmpty(Rows(), currentPage, tasksPerPage);
      }
    }

    /** `handleGoToPage`: the same bound; the input box is cleared only when the page is accepted. */
    method HandleGoToPage() returns (accepted: bool)
      requires Valid()
      modifies this`currentPage, this`goToPage
      ensures Valid()
      ensures accepted <==> old(goToPage).Some? && 1 <= old(goToPage).value <= old(PageCount())
      ensures accepted ==> currentPage == old(goToPage).value && goToPage == None
      ensures !accepted ==> currentPage == old(currentPage) && goToPage == old(goToPage)
    {
      accepted := goToPage.Some? && 1 <= goToPage.value <= PageCount();
      if accepted {
        currentPage := goToPage.value;
        goToPage := None;
      }
    }

    /** `handleSort`: the same column flips the direction, a new column sorts ascending. The page is kept. */
    method HandleSort(column: TaskColumn)
      requires Valid()
      modifies this`sortField, this`sortDirection
      ensures Valid() && sortField == Some(column)
      ensures sortDirection == if old(sortField) == Some(column) then old(sortDirection).Flip() else Asc
    {
      if sortField == Some(column) {
        sortDirection := sortDirection.Flip();
      } else {
        sortField := Some(column);
        sortDirection := Asc;
      }
    }

    /** `clearFilters`: back to no search, all statuses and priorities, and no sort. */
    method ClearFilters()
      requires Valid()
      modifies this`searchTerm, this`selectedStatus, this`selectedPriority, this`sortField, this`sortDirection, this`currentPage
      ensures Valid()
      ensures searchTerm == "" && selectedStatus == "all" && selectedPriority == "all"
      ensures sortField == None && sortDirection == Asc
      ensures currentPage ==
        if old(searchTerm) != "" || old(selectedStatus) != "all" || old(selectedPriority) != "all" then 1
        else old(currentPage)
    {
      SetSearchTerm("");
      HandleStatusFilter("all");
      HandlePriorityFilter("all");
      sortField := None;
      sortDirection := Asc;
    }

    /** `handleEditTask`: a completed task is never opened; any other one is opened as its edit copy. */
    method HandleEditTask(t: Task)
      requires Valid()
      modifies this`editTask
      ensures Valid()
      ensures editTask == if EditLocked(t) then old(editTask) else Some(EditCopy(t))
    {
      if t.status != "Completed" {
        editTask := Some(EditCopy(t));
      }
    }

    /** Choosing a status in the open edit dialog. */
    method SetEditStatus(status: string)
      requires Valid() && editTask.Some?
      modifies this`editTask
      ensures Valid() && editTask == Some(old(editTask).value.(status := status))
    {
      editTask := Some(editTask.value.(status := status));
    }

    /** Typing a delay reason in the open edit dialog. */
    method SetEditDelayReason(reason: string)
      requires Valid() && editTask.Some?
      modifies this`editTask
      ensures Valid() && editTask == Some(old(editTask).value.(delayReason := Some(reason)))
    {
      editTask := Some(editTask.value.(delayReason := Some(reason)));
    }

    /** Cancel, or closing the edit dialog. */
    method CancelEdit()
      requires Valid()
      modifies this`editTask
      ensures Valid() && editTask == None
    {
      editTask := None;
    }

    /**
      `handleSaveEdit`: sends the payload for the task under edit; on success the dialog
      closes and a fresh collection is requested, on failure the edit is kept. With no task
      under edit the handler fails before sending anything.
     */
    method HandleSaveEdit(now: int, outcome: Outcome) returns (request: Option<StatusUpdate>, refetch: bool)
      requires Valid()
      modifies this`editTask
      ensures Valid()
      ensures request == if old(editTask).Some? then Some(SaveEditPayload(old(editTask).value, now)) else None
      ensures refetch <==> request.Some? && outcome == Succeeded
      ensures editTask == if refetch then None else old(editTask)
    {
      match editTask
      case None =>
        request, refetch := None, false;
      case Some(e) =>
        request := Some(SaveEditPayload(e, now));
        refetch := outcome == Succeeded;
        if refetch {
          editTask := None;
        }
    }
  }
}
